/**
  Dense real vectors and matrices, as small as the filter and the planner need
  them. A matrix is a sequence of rows; every operation states the shapes it
  expects, as the array library the system relies on does at run time.
 */
module LinAlg {

  type Vector = seq<real>
  type Matrix = seq<seq<real>>

  /** `m` has `rows` rows of `cols` entries each. */
  predicate IsMatrix(m: Matrix, rows: nat, cols: nat)
  {
    |m| == rows && forall i :: 0 <= i < |m| ==> |m[i]| == cols
  }

  /** Number of columns of a matrix (taken from its first row). */
  function Cols(m: Matrix): nat
  {
    if |m| == 0 then 0 else |m[0]|
  }

  predicate Symmetric(m: Matrix)
    requires IsMatrix(m, |m|, |m|)
  {
    forall i, j :: 0 <= i < |m| && 0 <= j < |m| ==> m[i][j] == m[j][i]
  }

  // ---- vectors ---------------------------------------------------------------

  /** The sum of the first `n` products `a[i] * b[i]`. */
  function DotPrefix(a: Vector, b: Vector, n: nat): real
    requires n <= |a| && n <= |b|
    decreases n
  {
    if n == 0 then 0.0 else DotPrefix(a, b, n - 1) + a[n - 1] * b[n - 1]
  }

  /** The dot product of two vectors of one length. */
  function Dot(a: Vector, b: Vector): real
    requires |a| == |b|
  {
    DotPrefix(a, b, |a|)
  }

  function Zeros(n: nat): (v: Vector)
    ensures |v| == n && forall i :: 0 <= i < n ==> v[i] == 0.0
  {
    seq(n, _ => 0.0)
  }

  /** The vector of length `n` that is `c` at index `k` and zero elsewhere. */
  function OneHot(n: nat, k: nat, c: real): (v: Vector)
    ensures |v| == n && forall i :: 0 <= i < n ==> v[i] == if i == k then c else 0.0
  {
    seq(n, i => if i == k then c else 0.0)
  }

  function VecAdd(a: Vector, b: Vector): (r: Vector)
    requires |a| == |b|
    ensures |r| == |a| && forall i :: 0 <= i < |a| ==> r[i] == a[i] + b[i]
  {
    seq(|a|, i requires 0 <= i < |a| => a[i] + b[i])
  }

  function VecSub(a: Vector, b: Vector): (r: Vector)
    requires |a| == |b|
    ensures |r| == |a| && forall i :: 0 <= i < |a| ==> r[i] == a[i] - b[i]
  {
    seq(|a|, i requires 0 <= i < |a| => a[i] - b[i])
  }

  function VecScale(c: real, a: Vector): (r: Vector)
    ensures |r| == |a| && forall i :: 0 <= i < |a| ==> r[i] == c * a[i]
  {
    seq(|a|, i requires 0 <= i < |a| => c * a[i])
  }

  /** Entrywise product. */
  function Hadamard(a: Vector, b: Vector): (r: Vector)
    requires |a| == |b|
    ensures |r| == |a| && forall i :: 0 <= i < |a| ==> r[i] == a[i] * b[i]
  {
    seq(|a|, i requires 0 <= i < |a| => a[i] * b[i])
  }

  /** Applies a scalar function to every entry. */
  function MapVec(f: real -> real, a: Vector): (r: Vector)
    ensures |r| == |a| && forall i :: 0 <= i < |a| ==> r[i] == f(a[i])
  {
    seq(|a|, i requires 0 <= i < |a| => f(a[i]))
  }

  // ---- matrices --------------------------------------------------------------

  /** The `n`×`n` matrix with `c` on the diagonal and zero elsewhere. */
  function Diag(n: nat, c: real): (m: Matrix)
    ensures IsMatrix(m, n, n)
    ensures forall i, j :: 0 <= i < n && 0 <= j < n ==> m[i][j] == if i == j then c else 0.0
  {
    seq(n, i => seq(n, j => if i == j then c else 0.0))
  }

  function Identity(n: nat): (m: Matrix)
    ensures IsMatrix(m, n, n)
  {
    Diag(n, 1.0)
  }

  function Column(m: Matrix, j: nat): (c: Vector)
    requires forall i :: 0 <= i < |m| ==> j < |m[i]|
    ensures |c| == |m| && forall i :: 0 <= i < |m| ==> c[i] == m[i][j]
  {
    seq(|m|, i requires 0 <= i < |m| => m[i][j])
  }

  function Transpose(m: Matrix, cols: nat): (t: Matrix)
    requires IsMatrix(m, |m|, cols)
    ensures IsMatrix(t, cols, |m|)
    ensures forall j, i :: 0 <= j < cols && 0 <= i < |m| ==> t[j][i] == m[i][j]
  {
    seq(cols, j requires 0 <= j < cols => seq(|m|, i requires 0 <= i < |m| => m[i][j]))
  }

  function MatAdd(a: Matrix, b: Matrix): (r: Matrix)
    requires IsMatrix(b, |a|, Cols(a)) && IsMatrix(a, |a|, Cols(a))
    ensures IsMatrix(r, |a|, Cols(a))
    ensures forall i, j :: 0 <= i < |a| && 0 <= j < Cols(a) ==> r[i][j] == a[i][j] + b[i][j]
  {
    seq(|a|, i requires 0 <= i < |a| => VecAdd(a[i], b[i]))
  }

  function MatSub(a: Matrix, b: Matrix): (r: Matrix)
    requires IsMatrix(b, |a|, Cols(a)) && IsMatrix(a, |a|, Cols(a))
    ensures IsMatrix(r, |a|, Cols(a))
    ensures forall i, j :: 0 <= i < |a| && 0 <= j < Cols(a) ==> r[i][j] == a[i][j] - b[i][j]
  {
    seq(|a|, i requires 0 <= i < |a| => VecSub(a[i], b[i]))
  }

  function MatScale(c: real, a: Matrix): (r: Matrix)
    ensures |r| == |a|
    ensures forall i :: 0 <= i < |a| ==> |r[i]| == |a[i]|
    ensures forall i, j :: 0 <= i < |a| && 0 <= j < |a[i]| ==> r[i][j] == c * a[i][j]
  {
    seq(|a|, i requires 0 <= i < |a| => VecScale(c, a[i]))
  }

  function MatVec(m: Matrix, v: Vector): (r: Vector)
    requires IsMatrix(m, |m|, |v|)
    ensures |r| == |m| && forall i :: 0 <= i < |m| ==> r[i] == Dot(m[i], v)
  {
    seq(|m|, i requires 0 <= i < |m| => Dot(m[i], v))
  }

  function MatMul(a: Matrix, b: Matrix): (r: Matrix)
    requires IsMatrix(a, |a|, |b|) && IsMatrix(b, |b|, Cols(b))
    ensures IsMatrix(r, |a|, Cols(b))
    ensures forall i, j :: 0 <= i < |a| && 0 <= j < Cols(b) ==> r[i][j] == Dot(a[i], Column(b, j))
  {
    seq(|a|, i requires 0 <= i < |a| =>
      seq(Cols(b), j requires 0 <= j < Cols(b) => Dot(a[i], Column(b, j))))
  }

  /** The outer product `u vᵀ`. */
  function Outer(u: Vector, v: Vector): (r: Matrix)
    ensures IsMatrix(r, |u|, |v|)
    ensures forall i, j :: 0 <= i < |u| && 0 <= j < |v| ==> r[i][j] == u[i] * v[j]
  {
    seq(|u|, i requires 0 <= i < |u| => seq(|v|, j requires 0 <= j < |v| => u[i] * v[j]))
  }

  /** Entry `(i, j)` of `m + c (u vᵀ)` is `m[i][j] + c u[i] v[j]`. */
  lemma AddScaledOuterAt(m: Matrix, c: real, u: Vector, v: Vector, i: nat, j: nat)
    requires IsMatrix(m, |u|, |v|) && i < |u| && j < |v|
    ensures IsMatrix(MatAdd(m, MatScale(c, Outer(u, v))), |u|, |v|)
    ensures MatAdd(m, MatScale(c, Outer(u, v)))[i][j] == m[i][j] + c * (u[i] * v[j])
  {
    var o := Outer(u, v);
    assert Cols(m) == |v|;
    assert MatScale(c, o)[i][j] == c * o[i][j];
  }

  /** A matrix whose every entry is `m[i][j] + c u[i] v[j]` is `m + c u vᵀ`. */
  lemma AddScaledOuterIs(m: Matrix, c: real, u: Vector, v: Vector, r: Matrix)
    requires IsMatrix(m, |u|, |v|) && IsMatrix(r, |u|, |v|)
    requires forall i, j :: 0 <= i < |u| && 0 <= j < |v| ==> r[i][j] == m[i][j] + c * (u[i] * v[j])
    ensures r == MatAdd(m, MatScale(c, Outer(u, v)))
  {
    var t := MatAdd(m, MatScale(c, Outer(u, v)));
    forall i, j | 0 <= i < |u| && 0 <= j < |v|
      ensures r[i][j] == t[i][j]
    {
      AddScaledOuterAt(m, c, u, v, i, j);
    }
    if |u| > 0 {
      assert Cols(m) == |v|;
    }
    RowsEqual(r, t, |u|, |v|);
  }

  /** A vector whose every entry is `a[i] + c u[i]` is `a + c u`. */
  lemma AddScaledIs(a: Vector, c: real, u: Vector, r: Vector)
    requires |a| == |u| == |r|
    requires forall i :: 0 <= i < |u| ==> r[i] == a[i] + c * u[i]
    ensures r == VecAdd(a, VecScale(c, u))
  {
  }

  // ---- facts about Dot -------------------------------------------------------

  /** Against a vector with at most one non-zero entry, a dot product picks out one term. */
  lemma DotSparse(a: Vector, v: Vector, k: int, c: real)
    requires |a| == |v|
    requires forall i :: 0 <= i < |v| ==> v[i] == (if i == k then c else 0.0)
    ensures Dot(a, v) == if 0 <= k < |a| then a[k] * c else 0.0
  {
    PrefixSparse(a, v, k, c, |a|);
  }

  lemma {:induction false} PrefixSparse(a: Vector, v: Vector, k: int, c: real, n: nat)
    requires n <= |a| == |v|
    requires forall i :: 0 <= i < |v| ==> v[i] == (if i == k then c else 0.0)
    ensures DotPrefix(a, v, n) == if 0 <= k < n then a[k] * c else 0.0
  {
    if n > 0 {
      PrefixSparse(a, v, k, c, n - 1);
      SameProduct(a[n - 1], v[n - 1], if n - 1 == k then c else 0.0);
    }
  }

  lemma DotZeros(a: Vector)
    ensures Dot(a, Zeros(|a|)) == 0.0
  {
    DotSparse(a, Zeros(|a|), -1, 0.0);
  }

  lemma DotCommutes(a: Vector, b: Vector)
    requires |a| == |b|
    ensures Dot(a, b) == Dot(b, a)
  {
    PrefixCommutes(a, b, |a|);
  }

  lemma {:induction false} PrefixCommutes(a: Vector, b: Vector, n: nat)
    requires n <= |a| == |b|
    ensures DotPrefix(a, b, n) == DotPrefix(b, a, n)
  {
    if n > 0 {
      PrefixCommutes(a, b, n - 1);
    }
  }

  /** A dot product of two four-vectors, written out. */
  lemma Dot4(a: Vector, b: Vector)
    requires |a| == 4 && |b| == 4
    ensures Dot(a, b) == a[0] * b[0] + a[1] * b[1] + a[2] * b[2] + a[3] * b[3]
  {
    assert DotPrefix(a, b, 2) == a[0] * b[0] + a[1] * b[1];
    assert DotPrefix(a, b, 4) == DotPrefix(a, b, 2) + a[2] * b[2] + a[3] * b[3];
  }

  /** Dot is linear in its first argument: if `x == c a + b` then `x · w == c (a · w) + b · w`. */
  lemma DotLinear(c: real, a: Vector, b: Vector, x: Vector, w: Vector)
    requires |a| == |b| == |x| == |w|
    requires forall i :: 0 <= i < |x| ==> x[i] == c * a[i] + b[i]
    ensures Dot(x, w) == c * Dot(a, w) + Dot(b, w)
  {
    PrefixLinear(c, a, b, x, w, |a|);
  }

  lemma {:induction false} PrefixLinear(c: real, a: Vector, b: Vector, x: Vector, w: Vector, n: nat)
    requires n <= |a| == |b| == |x| == |w|
    requires forall i :: 0 <= i < |x| ==> x[i] == c * a[i] + b[i]
    ensures DotPrefix(x, w, n) == c * DotPrefix(a, w, n) + DotPrefix(b, w, n)
  {
    if n > 0 {
      var k := n - 1;
      PrefixLinear(c, a, b, x, w, k);
      LinearStep(c, a[k], b[k], w[k], DotPrefix(a, w, k), DotPrefix(b, w, k),
                 x[k], DotPrefix(x, w, k), DotPrefix(a, w, n), DotPrefix(b, w, n));
    }
  }

  /** Equal factors give equal products (stated so the solver need not re-associate). */
  lemma SameProduct(c: real, a: real, b: real)
    requires a == b
    ensures c * a == c * b && a * c == b * c
  {
  }

  /** The scalar step of `PrefixLinear`: one more term on each side keeps the identity. */
  lemma LinearStep(c: real, ak: real, bk: real, wk: real, da: real, db: real,
                   xk: real, dx: real, da': real, db': real)
    requires xk == c * ak + bk && dx == c * da + db
    requires da' == da + ak * wk && db' == db + bk * wk
    ensures dx + xk * wk == c * da' + db'
  {
  }

  lemma DotSubLeft(a: Vector, b: Vector, w: Vector)
    requires |a| == |b| == |w|
    ensures Dot(VecSub(a, b), w) == Dot(a, w) - Dot(b, w)
  {
    PrefixSubLeft(a, b, w, |a|);
  }

  lemma {:induction false} PrefixSubLeft(a: Vector, b: Vector, w: Vector, n: nat)
    requires n <= |a| == |b| == |w|
    ensures DotPrefix(VecSub(a, b), w, n) == DotPrefix(a, w, n) - DotPrefix(b, w, n)
  {
    if n > 0 {
      var k := n - 1;
      PrefixSubLeft(a, b, w, k);
      SameProduct(w[k], VecSub(a, b)[k], a[k] - b[k]);
    }
  }

  lemma VecAddZeros(v: Vector)
    ensures VecAdd(v, Zeros(|v|)) == v
  {
    assert forall i :: 0 <= i < |v| ==> VecAdd(v, Zeros(|v|))[i] == v[i];
  }

  // ---- facts about matrices --------------------------------------------------

  /** Two matrices of one shape that agree entry by entry are equal. */
  lemma RowsEqual(a: Matrix, b: Matrix, rows: nat, cols: nat)
    requires IsMatrix(a, rows, cols) && IsMatrix(b, rows, cols)
    requires forall i, j :: 0 <= i < rows && 0 <= j < cols ==> a[i][j] == b[i][j]
    ensures a == b
  {
    forall i | 0 <= i < rows
      ensures a[i] == b[i]
    {
    }
  }

  lemma MatVecZeros(m: Matrix, n: nat)
    requires IsMatrix(m, |m|, n)
    ensures MatVec(m, Zeros(n)) == Zeros(|m|)
  {
    forall i | 0 <= i < |m|
      ensures MatVec(m, Zeros(n))[i] == 0.0
    {
      DotZeros(m[i]);
    }
  }

  /** Correcting `v` by any gain applied to the zero difference `v − v` leaves `v`. */
  lemma CorrectionVanishes(k: Matrix, v: Vector)
    requires IsMatrix(k, |v|, |v|)
    ensures VecAdd(v, MatVec(k, VecSub(v, v))) == v
  {
    assert VecSub(v, v) == Zeros(|v|);
    MatVecZeros(k, |v|);
    VecAddZeros(v);
  }

  lemma MatVecIdentity(v: Vector)
    ensures MatVec(Identity(|v|), v) == v
  {
    var n := |v|;
    forall i | 0 <= i < n
      ensures MatVec(Identity(n), v)[i] == v[i]
    {
      DotCommutes(Identity(n)[i], v);
      DotSparse(v, Identity(n)[i], i, 1.0);
    }
    assert |MatVec(Identity(n), v)| == n;
  }

  lemma TransposeIdentity(n: nat)
    ensures Transpose(Identity(n), n) == Identity(n)
  {
    var t := Transpose(Identity(n), n);
    forall j | 0 <= j < n
      ensures t[j] == Identity(n)[j]
    {
    }
  }

  lemma MatMulIdentityLeft(m: Matrix, n: nat, c: nat)
    requires IsMatrix(m, n, c) && n > 0
    ensures MatMul(Identity(n), m) == m
  {
    forall i, j | 0 <= i < n && 0 <= j < c
      ensures MatMul(Identity(n), m)[i][j] == m[i][j]
    {
      DotCommutes(Identity(n)[i], Column(m, j));
      DotSparse(Column(m, j), Identity(n)[i], i, 1.0);
    }
    RowsEqual(MatMul(Identity(n), m), m, n, c);
  }

  lemma MatMulIdentityRight(m: Matrix, r: nat, n: nat)
    requires IsMatrix(m, r, n) && n > 0
    ensures MatMul(m, Identity(n)) == m
  {
    forall i, j | 0 <= i < r && 0 <= j < n
      ensures MatMul(m, Identity(n))[i][j] == m[i][j]
    {
      DotSparse(m[i], Column(Identity(n), j), j, 1.0);
    }
    RowsEqual(MatMul(m, Identity(n)), m, r, n);
  }

  /** `(A − B) C == A C − B C` */
  lemma MatMulSubLeft(a: Matrix, b: Matrix, c: Matrix, n: nat, k: nat, m: nat)
    requires IsMatrix(a, n, k) && IsMatrix(b, n, k) && IsMatrix(c, k, m) && n > 0 && k > 0
    ensures MatMul(MatSub(a, b), c) == MatSub(MatMul(a, c), MatMul(b, c))
  {
    forall i, j | 0 <= i < n && 0 <= j < m
      ensures MatMul(MatSub(a, b), c)[i][j] == MatSub(MatMul(a, c), MatMul(b, c))[i][j]
    {
      DotSubLeft(a[i], b[i], Column(c, j));
    }
    RowsEqual(MatMul(MatSub(a, b), c), MatSub(MatMul(a, c), MatMul(b, c)), n, m);
  }

  /** `(I − K I) P = P − K P`: the covariance update with an identity observation. */
  lemma CovarianceCorrection(k: Matrix, p: Matrix, n: nat)
    requires IsMatrix(k, n, n) && IsMatrix(p, n, n) && n > 0
    ensures MatMul(MatSub(Identity(n), MatMul(k, Identity(n))), p) == MatSub(p, MatMul(k, p))
  {
    MatMulIdentityRight(k, n, n);
    MatMulSubLeft(Identity(n), k, p, n, n, n);
    MatMulIdentityLeft(p, n, n);
  }

  /** `inv` is a two-sided inverse of the square, non-empty matrix `m`. */
  ghost predicate IsInverse(m: Matrix, inv: Matrix)
  {
    && |m| > 0
    && IsMatrix(m, |m|, |m|)
    && IsMatrix(inv, |m|, |m|)
    && MatMul(m, inv) == Identity(|m|)
    && MatMul(inv, m) == Identity(|m|)
  }

  ghost predicate Invertible(m: Matrix)
  {
    exists inv :: IsInverse(m, inv)
  }

  /**
    Matrix inversion, defined exactly on the invertible matrices. Which inverse
    is meant does not matter: a two-sided inverse is unique (InverseUnique).
   */
  ghost function Inverse(m: Matrix): (inv: Matrix)
    requires Invertible(m)
    ensures IsInverse(m, inv)
  {
    var inv :| IsInverse(m, inv); inv
  }

  /** `u` (as a row) times `b`, summing only the first `k` rows. */
  function VecMatPrefix(u: Vector, b: Matrix, cols: nat, k: nat): (r: Vector)
    requires IsMatrix(b, |u|, cols) && k <= |u|
    ensures |r| == cols && forall j :: 0 <= j < cols ==> r[j] == DotPrefix(u, Column(b, j), k)
  {
    seq(cols, j requires 0 <= j < cols => DotPrefix(u, Column(b, j), k))
  }

  /** `(uᵀ B) w == uᵀ (B w)` */
  lemma VecMatDot(u: Vector, b: Matrix, w: Vector)
    requires IsMatrix(b, |u|, |w|)
    ensures forall j :: 0 <= j < |w| ==> VecMatPrefix(u, b, |w|, |u|)[j] == Dot(u, Column(b, j))
    ensures Dot(VecMatPrefix(u, b, |w|, |u|), w) == Dot(u, MatVec(b, w))
  {
    PrefixVecMatDot(u, b, w, |u|);
  }

  lemma {:induction false} PrefixVecMatDot(u: Vector, b: Matrix, w: Vector, k: nat)
    requires IsMatrix(b, |u|, |w|) && k <= |u|
    ensures Dot(VecMatPrefix(u, b, |w|, k), w) == DotPrefix(u, MatVec(b, w), k)
  {
    var n := |w|;
    if k == 0 {
      DotCommutes(VecMatPrefix(u, b, n, 0), w);
      DotSparse(w, VecMatPrefix(u, b, n, 0), -1, 0.0);
    } else {
      var i := k - 1;
      var m := MatVec(b, w);
      var x := VecMatPrefix(u, b, n, k);
      var y := VecMatPrefix(u, b, n, i);
      PrefixVecMatDot(u, b, w, i);
      forall j | 0 <= j < n
        ensures x[j] == u[i] * b[i][j] + y[j]
      {
      }
      DotLinear(u[i], b[i], y, x, w);
      SameProduct(u[i], Dot(b[i], w), m[i]);
    }
  }

  /** Matrix multiplication is associative. */
  lemma MatMulAssoc(a: Matrix, b: Matrix, c: Matrix, n: nat, k: nat, l: nat, m: nat)
    requires IsMatrix(a, n, k) && IsMatrix(b, k, l) && IsMatrix(c, l, m)
    requires k > 0 && l > 0
    ensures MatMul(MatMul(a, b), c) == MatMul(a, MatMul(b, c))
  {
    var ab := MatMul(a, b);
    var bc := MatMul(b, c);
    forall i, j | 0 <= i < n && 0 <= j < m
      ensures MatMul(ab, c)[i][j] == MatMul(a, bc)[i][j]
    {
      VecMatDot(a[i], b, Column(c, j));
      assert ab[i] == VecMatPrefix(a[i], b, l, k);
      assert Column(bc, j) == MatVec(b, Column(c, j));
    }
    RowsEqual(MatMul(ab, c), MatMul(a, bc), n, m);
  }

  /** A left inverse and a right inverse of the same matrix coincide. */
  lemma InverseUnique(m: Matrix, a: Matrix, b: Matrix)
    requires IsInverse(m, a) && IsInverse(m, b)
    ensures a == b
  {
    var n := |m|;
    calc {
      a;
      { MatMulIdentityRight(a, n, n); }
      MatMul(a, Identity(n));
      MatMul(a, MatMul(m, b));
      { MatMulAssoc(a, m, b, n, n, n, n); }
      MatMul(MatMul(a, m), b);
      MatMul(Identity(n), b);
      { MatMulIdentityLeft(b, n, n); }
      b;
    }
  }

  /** An invertible factor on the right cancels: `a m = b m` forces `a = b`. */
  lemma CancelRight(a: Matrix, b: Matrix, m: Matrix)
    requires Invertible(m) && IsMatrix(a, |m|, |m|) && IsMatrix(b, |m|, |m|)
    requires MatMul(a, m) == MatMul(b, m)
    ensures a == b
  {
    var n := |m|;
    var mi := Inverse(m);
    calc {
      a;
      { MatMulIdentityRight(a, n, n); }
      MatMul(a, Identity(n));
      MatMul(a, MatMul(m, mi));
      { MatMulAssoc(a, m, mi, n, n, n, n); }
      MatMul(MatMul(b, m), mi);
      { MatMulAssoc(b, m, mi, n, n, n, n); }
      MatMul(b, Identity(n));
      { MatMulIdentityRight(b, n, n); }
      b;
    }
  }

  // ---- transposes and symmetry -----------------------------------------------

  /** A square matrix is symmetric exactly when it equals its transpose. */
  lemma SymmetricTranspose(m: Matrix, n: nat)
    requires IsMatrix(m, n, n)
    ensures Symmetric(m) <==> Transpose(m, n) == m
  {
    if Symmetric(m) {
      RowsEqual(Transpose(m, n), m, n, n);
    }
    if Transpose(m, n) == m {
      forall i, j | 0 <= i < n && 0 <= j < n
        ensures m[i][j] == m[j][i]
      {
        assert Transpose(m, n)[i][j] == m[j][i];
      }
    }
  }

  /** `(a b)ᵀ = bᵀ aᵀ` for square matrices. */
  lemma TransposeMul(a: Matrix, b: Matrix, n: nat)
    requires IsMatrix(a, n, n) && IsMatrix(b, n, n) && n > 0
    ensures Transpose(MatMul(a, b), n) == MatMul(Transpose(b, n), Transpose(a, n))
  {
    var bt, at := Transpose(b, n), Transpose(a, n);
    forall i, j | 0 <= i < n && 0 <= j < n
      ensures Transpose(MatMul(a, b), n)[i][j] == MatMul(bt, at)[i][j]
    {
      assert bt[i] == Column(b, i);
      assert Column(at, j) == a[j];
      DotCommutes(a[j], Column(b, i));
    }
    RowsEqual(Transpose(MatMul(a, b), n), MatMul(bt, at), n, n);
  }

  /** The inverse of a symmetric matrix is symmetric. */
  lemma InverseSymmetric(m: Matrix)
    requires IsMatrix(m, |m|, |m|) && Invertible(m) && Symmetric(m)
    ensures Symmetric(Inverse(m))
  {
    var n := |m|;
    var mi := Inverse(m);
    var t := Transpose(mi, n);
    SymmetricTranspose(m, n);
    TransposeIdentity(n);
    calc {
      MatMul(m, t);
      MatMul(Transpose(m, n), t);
      { TransposeMul(mi, m, n); }
      Transpose(MatMul(mi, m), n);
      Identity(n);
    }
    calc {
      MatMul(t, m);
      MatMul(t, Transpose(m, n));
      { TransposeMul(m, mi, n); }
      Transpose(MatMul(m, mi), n);
      Identity(n);
    }
    assert IsInverse(m, t);
    InverseUnique(m, mi, t);
    SymmetricTranspose(mi, n);
  }

  /** `p s p` is symmetric when `p` and `s` are. */
  lemma SandwichSymmetric(p: Matrix, s: Matrix, n: nat)
    requires IsMatrix(p, n, n) && IsMatrix(s, n, n) && n > 0
    requires Symmetric(p) && Symmetric(s)
    ensures Symmetric(MatMul(MatMul(p, s), p))
  {
    var ps := MatMul(p, s);
    SymmetricTranspose(p, n);
    SymmetricTranspose(s, n);
    calc {
      Transpose(MatMul(ps, p), n);
      { TransposeMul(ps, p, n); }
      MatMul(Transpose(p, n), Transpose(ps, n));
      { TransposeMul(p, s, n); }
      MatMul(p, MatMul(s, p));
      { MatMulAssoc(p, s, p, n, n, n, n); }
      MatMul(ps, p);
    }
    SymmetricTranspose(MatMul(ps, p), n);
  }

  /** The difference of two symmetric matrices is symmetric. */
  lemma SubSymmetric(a: Matrix, b: Matrix, n: nat)
    requires IsMatrix(a, n, n) && IsMatrix(b, n, n) && Symmetric(a) && Symmetric(b)
    ensures IsMatrix(MatSub(a, b), n, n) && Symmetric(MatSub(a, b))
  {
    var r := MatSub(a, b);
    forall i, j | 0 <= i < n && 0 <= j < n
      ensures r[i][j] == r[j][i]
    {
      assert a[i][j] == a[j][i] && b[i][j] == b[j][i];
    }
  }
}
