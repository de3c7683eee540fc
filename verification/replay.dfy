/**
  The planner's experience memory: a first-in first-out queue that holds at most
  `capacity` entries and drops its oldest entry when a push would overflow it,
  as a double-ended queue created with a maximum length does.
 */
module Replay {

  /** Entries run from oldest (index 0) to newest. */
  datatype Buffer<T> = Buffer(items: seq<T>, capacity: nat)

  predicate Valid<T>(b: Buffer<T>)
  {
    |b.items| <= b.capacity
  }

  function Min(a: int, b: int): int
  {
    if a <= b then a else b
  }

  function Empty<T>(capacity: nat): (b: Buffer<T>)
    ensures Valid(b) && |b.items| == 0 && b.capacity == capacity
  {
    Buffer([], capacity)
  }

  /** The last `n` entries of `s` (all of `s` when it is shorter). */
  function Newest<T>(s: seq<T>, n: nat): (r: seq<T>)
    ensures |r| == Min(|s|, n)
    ensures forall i :: 0 <= i < |r| ==> r[i] == s[|s| - |r| + i]
  {
    s[|s| - Min(|s|, n)..]
  }

  /**
    Appends `t` at the newest end; when the buffer is full the oldest entry is
    dropped, so the length becomes `min(old + 1, capacity)` and the surviving
    entries keep their order.
   */
  function Push<T>(b: Buffer<T>, t: T): (r: Buffer<T>)
    requires Valid(b)
    ensures Valid(r) && r.capacity == b.capacity
    ensures |r.items| == Min(|b.items| + 1, b.capacity)
    ensures r.items == Newest(b.items + [t], b.capacity)
    ensures b.capacity > 0 ==> r.items[|r.items| - 1] == t
    ensures |b.items| < b.capacity ==> r.items == b.items + [t]
  {
    if |b.items| < b.capacity then Buffer(b.items + [t], b.capacity)
    else Buffer((b.items + [t])[1..], b.capacity)
  }

  /** Pushes the entries of `ts` one after another, first to last. */
  function PushAll<T>(b: Buffer<T>, ts: seq<T>): (r: Buffer<T>)
    requires Valid(b)
    ensures Valid(r) && r.capacity == b.capacity
    decreases |ts|
  {
    if |ts| == 0 then b else PushAll(Push(b, ts[0]), ts[1..])
  }

  /** After any run of pushes the buffer holds the newest `capacity` entries ever pushed. */
  lemma {:induction false} PushAllKeepsNewest<T>(b: Buffer<T>, ts: seq<T>)
    requires Valid(b)
    ensures PushAll(b, ts).items == Newest(b.items + ts, b.capacity)
    decreases |ts|
  {
    if |ts| == 0 {
      assert b.items + ts == b.items;
    } else {
      var n := b.capacity;
      var b' := Push(b, ts[0]);
      calc {
        PushAll(b, ts).items;
        PushAll(b', ts[1..]).items;
        { PushAllKeepsNewest(b', ts[1..]); }
        Newest(b'.items + ts[1..], n);
        Newest(Newest(b.items + [ts[0]], n) + ts[1..], n);
        { NewestConcat(b.items + [ts[0]], ts[1..], n); }
        Newest(b.items + [ts[0]] + ts[1..], n);
        { assert b.items + [ts[0]] + ts[1..] == b.items + ts; }
        Newest(b.items + ts, n);
      }
    }
  }

  /** Keeping the newest `n` of a prefix does not change the newest `n` of the whole. */
  lemma NewestConcat<T>(s: seq<T>, u: seq<T>, n: nat)
    ensures Newest(Newest(s, n) + u, n) == Newest(s + u, n)
  {
    var a := Newest(Newest(s, n) + u, n);
    var b := Newest(s + u, n);
    assert |a| == |b|;
    forall i | 0 <= i < |a|
      ensures a[i] == b[i]
    {
    }
  }

  /**
    A buffer of capacity `N` that receives `N + 1` pushes from empty keeps the
    last `N` of them and no longer holds the first (when it differs from the rest).
   */
  lemma OverflowEvictsFirst<T>(ts: seq<T>, n: nat)
    requires |ts| == n + 1
    ensures PushAll(Empty(n), ts).items == ts[1..]
    ensures ts[0] !in ts[1..] ==> ts[0] !in PushAll(Empty(n), ts).items
  {
    calc {
      PushAll(Empty(n), ts).items;
      { PushAllKeepsNewest(Empty<T>(n), ts); }
      Newest(Empty<T>(n).items + ts, n);
      { assert Empty<T>(n).items + ts == ts; }
      Newest(ts, n);
      ts[1..];
    }
  }
}
