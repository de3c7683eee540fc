/**
  The value-based planner: a two-layer network with `tanh` hidden units scores
  each discrete action, actions are chosen epsilon-greedily, transitions go to a
  bounded replay memory, and a training step replays a sample of the memory one
  transition at a time through a hand-written gradient update.

  Randomness is injected: `Act` receives the uniform draw and the random action,
  `TrainStep` the sampled memory indices, `Init` the Gaussian draws for the
  weights. The activation `tanh` is a parameter, so nothing here depends on
  which function it is.
 */
module Planning {
  import opened LinAlg
  import opened Replay

  const DefaultStateDim: nat := 4
  const DefaultActionDim: nat := 3
  const DefaultHiddenDim: nat := 64
  const DefaultLearningRate: real := 0.001
  const DefaultGamma: real := 0.95
  const DefaultBufferSize: nat := 10000
  const DefaultBatchSize: nat := 64
  /** Scale applied to the Gaussian draws that initialise `w1` and `w2`. */
  const InitScale: real := 0.1

  datatype Dims = Dims(state: nat, hidden: nat, action: nat)

  /** `w1`: hidden×state, `b1`: hidden, `w2`: action×hidden, `b2`: action. */
  datatype Weights = Weights(w1: Matrix, b1: Vector, w2: Matrix, b2: Vector)

  datatype Transition = Transition(state: Vector, action: int, reward: real, next: Vector, done: bool)

  datatype Planner = Planner(
    weights: Weights,
    dims: Dims,
    lr: real,
    gamma: real,
    batchSize: nat,
    memory: Buffer<Transition>)

  predicate Shaped(w: Weights, d: Dims)
  {
    && IsMatrix(w.w1, d.hidden, d.state)
    && |w.b1| == d.hidden
    && IsMatrix(w.w2, d.action, d.hidden)
    && |w.b2| == d.action
  }

  /**
    A transition the network can learn from: a state of the right length, an
    action in range, and, unless the episode ended there, a next state of the
    right length. The next state of a terminal transition is never read.
   */
  predicate Fits(t: Transition, d: Dims)
  {
    |t.state| == d.state && 0 <= t.action < d.action && (!t.done ==> |t.next| == d.state)
  }

  predicate WellFormed(p: Planner)
  {
    Shaped(p.weights, p.dims) && Valid(p.memory)
  }

  /**
    A fresh planner: `w1` and `w2` are the given Gaussian draws scaled by 0.1,
    both biases are zero and the memory is empty with room for `bufferSize`.
   */
  function Init(d: Dims, lr: real, gamma: real, bufferSize: nat, batchSize: nat,
                draw1: Matrix, draw2: Matrix): (p: Planner)
    requires IsMatrix(draw1, d.hidden, d.state) && IsMatrix(draw2, d.action, d.hidden)
    ensures WellFormed(p) && p.dims == d
    ensures p.lr == lr && p.gamma == gamma && p.batchSize == batchSize
    ensures p.memory.items == [] && p.memory.capacity == bufferSize
    ensures forall j :: 0 <= j < d.hidden ==> p.weights.b1[j] == 0.0
    ensures forall i :: 0 <= i < d.action ==> p.weights.b2[i] == 0.0
    ensures forall j, k :: 0 <= j < d.hidden && 0 <= k < d.state ==>
      p.weights.w1[j][k] == InitScale * draw1[j][k]
    ensures forall i, j :: 0 <= i < d.action && 0 <= j < d.hidden ==>
      p.weights.w2[i][j] == InitScale * draw2[i][j]
  {
    var w := Weights(MatScale(InitScale, draw1), Zeros(d.hidden), MatScale(InitScale, draw2), Zeros(d.action));
    Planner(w, d, lr, gamma, batchSize, Empty(bufferSize))
  }

  /** A planner with every hyperparameter at its default. */
  function DefaultPlanner(draw1: Matrix, draw2: Matrix): (p: Planner)
    requires IsMatrix(draw1, DefaultHiddenDim, DefaultStateDim)
    requires IsMatrix(draw2, DefaultActionDim, DefaultHiddenDim)
    ensures WellFormed(p) && p.dims == Dims(4, 64, 3)
    ensures p.lr == 0.001 && p.gamma == 0.95 && p.batchSize == 64
    ensures p.memory.items == [] && p.memory.capacity == 10000
  {
    Init(Dims(DefaultStateDim, DefaultHiddenDim, DefaultActionDim), DefaultLearningRate, DefaultGamma,
         DefaultBufferSize, DefaultBatchSize, draw1, draw2)
  }

  // ---- the network -----------------------------------------------------------

  /** The hidden activations `tanh(w1 s + b1)`. */
  function Hidden(w: Weights, d: Dims, s: Vector, tanh: real -> real): (h: Vector)
    requires Shaped(w, d) && |s| == d.state
    ensures |h| == d.hidden
    ensures forall j :: 0 <= j < d.hidden ==> h[j] == tanh(Dot(w.w1[j], s) + w.b1[j])
  {
    MapVec(tanh, VecAdd(MatVec(w.w1, s), w.b1))
  }

  /**
    The action values `w2 tanh(w1 s + b1) + b2`, one per action: entry `i` is
    row `i` of `w2` against the hidden activations, plus `b2[i]`.
   */
  function Forward(w: Weights, d: Dims, s: Vector, tanh: real -> real): (q: Vector)
    requires Shaped(w, d) && |s| == d.state
    ensures |q| == d.action
    ensures forall i :: 0 <= i < d.action ==> q[i] == Dot(w.w2[i], Hidden(w, d, s, tanh)) + w.b2[i]
  {
    var h1 := Hidden(w, d, s, tanh);
    VecAdd(MatVec(w.w2, h1), w.b2)
  }

  // ---- maxima ----------------------------------------------------------------

  /** `k` holds a maximal entry of `q`, and no earlier entry is as large. */
  predicate IsFirstMax(q: Vector, k: int)
  {
    && 0 <= k < |q|
    && (forall j :: 0 <= j < |q| ==> q[j] <= q[k])
    && (forall j :: 0 <= j < k ==> q[j] < q[k])
  }

  /** At most one index is the first maximum. */
  lemma FirstMaxUnique(q: Vector, k1: int, k2: int)
    requires IsFirstMax(q, k1) && IsFirstMax(q, k2)
    ensures k1 == k2
  {
    assert q[k1] == q[k2];
  }

  /** The index of the largest entry, the lowest such index on ties. */
  function ArgMax(q: Vector): (k: nat)
    requires |q| > 0
    ensures IsFirstMax(q, k)
    decreases |q|
  {
    if |q| == 1 then 0
    else
      var k := ArgMax(q[..|q| - 1]);
      if q[|q| - 1] > q[k] then |q| - 1 else k
  }

  /** The largest entry. */
  function Max(q: Vector): (m: real)
    requires |q| > 0
    ensures forall j :: 0 <= j < |q| ==> q[j] <= m
    ensures exists j :: 0 <= j < |q| && q[j] == m
    decreases |q|
  {
    if |q| == 1 then q[0]
    else
      var m := Max(q[1..]);
      assert forall j :: 1 <= j < |q| ==> q[j] == q[1..][j - 1];
      if q[0] >= m then q[0] else m
  }

  /** The maximum value and the maximising index agree. */
  lemma MaxIsValueAtArgMax(q: Vector)
    requires |q| > 0
    ensures Max(q) == q[ArgMax(q)]
  {
    var j :| 0 <= j < |q| && q[j] == Max(q);
    assert q[j] <= q[ArgMax(q)];
  }

  // ---- acting ----------------------------------------------------------------

  /**
    Epsilon-greedy choice. `u` is the uniform draw in [0, 1) and `k` the uniform
    action; when `u < eps` the random action is taken, otherwise the first
    action of highest value.
   */
  function Act(p: Planner, s: Vector, eps: real, u: real, k: int, tanh: real -> real): (a: int)
    requires WellFormed(p) && |s| == p.dims.state && p.dims.action > 0
    requires 0.0 <= u < 1.0 && 0 <= k < p.dims.action
    ensures 0 <= a < p.dims.action
    ensures u < eps ==> a == k
    ensures !(u < eps) ==> IsFirstMax(Forward(p.weights, p.dims, s, tanh), a)
  {
    if u < eps then k
    else ArgMax(Forward(p.weights, p.dims, s, tanh))
  }

  /** With `eps <= 0` the random branch is never taken: the choice depends on the weights alone. */
  lemma GreedyIsDeterministic(p: Planner, s: Vector, eps: real, u1: real, k1: int, u2: real, k2: int,
                              tanh: real -> real)
    requires WellFormed(p) && |s| == p.dims.state && p.dims.action > 0
    requires 0.0 <= u1 < 1.0 && 0 <= k1 < p.dims.action
    requires 0.0 <= u2 < 1.0 && 0 <= k2 < p.dims.action
    requires eps <= 0.0
    ensures Act(p, s, eps, u1, k1, tanh) == Act(p, s, eps, u2, k2, tanh)
  {
    var q := Forward(p.weights, p.dims, s, tanh);
    FirstMaxUnique(q, Act(p, s, eps, u1, k1, tanh), Act(p, s, eps, u2, k2, tanh));
  }

  /** With `eps >= 1` every draw takes the random branch. */
  lemma FullExploration(p: Planner, s: Vector, eps: real, u: real, k: int, tanh: real -> real)
    requires WellFormed(p) && |s| == p.dims.state && p.dims.action > 0
    requires 0.0 <= u < 1.0 && 0 <= k < p.dims.action
    requires eps >= 1.0
    ensures Act(p, s, eps, u, k, tanh) == k
  {
  }

  // ---- memory ----------------------------------------------------------------

  /** Stores a transition at the newest end of the memory; the weights are untouched. */
  function Remember(p: Planner, t: Transition): (r: Planner)
    requires WellFormed(p)
    ensures WellFormed(r)
    ensures r == p.(memory := r.memory)
    ensures r.memory.capacity == p.memory.capacity
    ensures |r.memory.items| == Min(|p.memory.items| + 1, p.memory.capacity)
    ensures r.memory.items == Newest(p.memory.items + [t], p.memory.capacity)
  {
    p.(memory := Push(p.memory, t))
  }

  // ---- learning --------------------------------------------------------------

  /** The slope `1 − h²` of `tanh` at each unit, written with the unit's activation `h`. */
  function Slope(h: Vector): (r: Vector)
    ensures |r| == |h|
    ensures forall j :: 0 <= j < |h| ==> r[j] == 1.0 - h[j] * h[j]
  {
    seq(|h|, j requires 0 <= j < |h| => 1.0 - h[j] * h[j])
  }

  /**
    The gradient at the hidden pre-activations for hidden activations `h`:
    `w2ᵀ g`, entrywise times the slope of each unit.
   */
  function HiddenGradient(w: Weights, d: Dims, h: Vector, g: Vector): (dz1: Vector)
    requires Shaped(w, d) && |h| == d.hidden && |g| == d.action
    ensures |dz1| == d.hidden
    ensures forall j :: 0 <= j < d.hidden ==> dz1[j] == MatVec(Transpose(w.w2, d.hidden), g)[j] * (1.0 - h[j] * h[j])
  {
    var gradH1 := MatVec(Transpose(w.w2, d.hidden), g);
    Hadamard(gradH1, Slope(h))
  }

  /**
    The backward pass given the hidden activations `h` of input `s`: each weight
    moves by `lr` times its entry of the outer-product gradient, each bias by
    `lr` times its gradient. Every gradient is computed from the weights as they
    were on entry.
   */
  function BackwardAt(w: Weights, d: Dims, s: Vector, h: Vector, g: Vector, lr: real): (r: Weights)
    requires Shaped(w, d) && |s| == d.state && |h| == d.hidden && |g| == d.action
    ensures Shaped(r, d)
  {
    var gradZ1 := HiddenGradient(w, d, h, g);
    Weights(
      seq(d.hidden, j requires 0 <= j < d.hidden =>
        seq(d.state, k requires 0 <= k < d.state => w.w1[j][k] + lr * (gradZ1[j] * s[k]))),
      seq(d.hidden, j requires 0 <= j < d.hidden => w.b1[j] + lr * gradZ1[j]),
      seq(d.action, i requires 0 <= i < d.action =>
        seq(d.hidden, j requires 0 <= j < d.hidden => w.w2[i][j] + lr * (g[i] * h[j]))),
      seq(d.action, i requires 0 <= i < d.action => w.b2[i] + lr * g[i]))
  }

  /** One hand-written backward pass for the output gradient `g`, applied with step `lr`. */
  function Backward(w: Weights, d: Dims, s: Vector, g: Vector, lr: real, tanh: real -> real): (r: Weights)
    requires Shaped(w, d) && |s| == d.state && |g| == d.action
    ensures Shaped(r, d)
  {
    BackwardAt(w, d, s, Hidden(w, d, s, tanh), g, lr)
  }

  /** Unfolds `BackwardAt` for the output layer, entry by entry. */
  lemma BackwardOutputLayer(w: Weights, d: Dims, s: Vector, h: Vector, g: Vector, lr: real)
    requires Shaped(w, d) && |s| == d.state && |h| == d.hidden && |g| == d.action
    ensures var r := BackwardAt(w, d, s, h, g, lr);
      && (forall i :: 0 <= i < d.action ==> r.b2[i] == w.b2[i] + lr * g[i])
      && (forall i, j :: 0 <= i < d.action && 0 <= j < d.hidden ==>
            r.w2[i][j] == w.w2[i][j] + lr * (g[i] * h[j]))
  {
  }

  /** Unfolds `BackwardAt` for the hidden layer, entry by entry, with the hidden gradient written out. */
  lemma BackwardHiddenLayer(w: Weights, d: Dims, s: Vector, h: Vector, g: Vector, lr: real)
    requires Shaped(w, d) && |s| == d.state && |h| == d.hidden && |g| == d.action
    ensures var r := BackwardAt(w, d, s, h, g, lr);
      && (forall j :: 0 <= j < d.hidden ==>
            r.b1[j] == w.b1[j] + lr * (MatVec(Transpose(w.w2, d.hidden), g)[j] * (1.0 - h[j] * h[j])))
      && (forall j, k :: 0 <= j < d.hidden && 0 <= k < d.state ==>
            r.w1[j][k] == w.w1[j][k] + lr * (MatVec(Transpose(w.w2, d.hidden), g)[j] * (1.0 - h[j] * h[j]) * s[k]))
  {
    HiddenBiasStep(w, d, s, h, g, lr);
    HiddenWeightStep(w, d, s, h, g, lr);
  }

  lemma HiddenBiasStep(w: Weights, d: Dims, s: Vector, h: Vector, g: Vector, lr: real)
    requires Shaped(w, d) && |s| == d.state && |h| == d.hidden && |g| == d.action
    ensures var r := BackwardAt(w, d, s, h, g, lr);
      forall j :: 0 <= j < d.hidden ==>
        r.b1[j] == w.b1[j] + lr * (MatVec(Transpose(w.w2, d.hidden), g)[j] * (1.0 - h[j] * h[j]))
  {
    var dz := HiddenGradient(w, d, h, g);
    var r := BackwardAt(w, d, s, h, g, lr);
    forall j | 0 <= j < d.hidden
      ensures r.b1[j] == w.b1[j] + lr * (MatVec(Transpose(w.w2, d.hidden), g)[j] * (1.0 - h[j] * h[j]))
    {
      SameProduct(lr, dz[j], MatVec(Transpose(w.w2, d.hidden), g)[j] * (1.0 - h[j] * h[j]));
    }
  }

  lemma HiddenWeightStep(w: Weights, d: Dims, s: Vector, h: Vector, g: Vector, lr: real)
    requires Shaped(w, d) && |s| == d.state && |h| == d.hidden && |g| == d.action
    ensures var r := BackwardAt(w, d, s, h, g, lr);
      forall j, k :: 0 <= j < d.hidden && 0 <= k < d.state ==>
        r.w1[j][k] == w.w1[j][k] + lr * (MatVec(Transpose(w.w2, d.hidden), g)[j] * (1.0 - h[j] * h[j]) * s[k])
  {
    var dz := HiddenGradient(w, d, h, g);
    var r := BackwardAt(w, d, s, h, g, lr);
    forall j, k | 0 <= j < d.hidden && 0 <= k < d.state
      ensures r.w1[j][k] == w.w1[j][k] + lr * (MatVec(Transpose(w.w2, d.hidden), g)[j] * (1.0 - h[j] * h[j]) * s[k])
    {
      var c := MatVec(Transpose(w.w2, d.hidden), g)[j] * (1.0 - h[j] * h[j]);
      SameProduct(s[k], dz[j], c);
      SameProduct(lr, dz[j] * s[k], c * s[k]);
    }
  }

  /**
    The backward pass is the matrix update of the hand-written code:
    `w2 + lr (g hᵀ)`, `b2 + lr g`, `w1 + lr (dz1 sᵀ)` and `b1 + lr dz1`, with
    `dz1` the hidden gradient taken from the weights on entry.
   */
  lemma BackwardMatrixForm(w: Weights, d: Dims, s: Vector, h: Vector, g: Vector, lr: real)
    requires Shaped(w, d) && |s| == d.state && |h| == d.hidden && |g| == d.action
    ensures var r := BackwardAt(w, d, s, h, g, lr);
      var dz1 := HiddenGradient(w, d, h, g);
      && r.w2 == MatAdd(w.w2, MatScale(lr, Outer(g, h)))
      && r.b2 == VecAdd(w.b2, VecScale(lr, g))
      && r.w1 == MatAdd(w.w1, MatScale(lr, Outer(dz1, s)))
      && r.b1 == VecAdd(w.b1, VecScale(lr, dz1))
  {
    OutputMatrixForm(w, d, s, h, g, lr);
    HiddenMatrixForm(w, d, s, h, g, lr);
  }

  lemma OutputMatrixForm(w: Weights, d: Dims, s: Vector, h: Vector, g: Vector, lr: real)
    requires Shaped(w, d) && |s| == d.state && |h| == d.hidden && |g| == d.action
    ensures var r := BackwardAt(w, d, s, h, g, lr);
      && r.w2 == MatAdd(w.w2, MatScale(lr, Outer(g, h)))
      && r.b2 == VecAdd(w.b2, VecScale(lr, g))
  {
    var r := BackwardAt(w, d, s, h, g, lr);
    BackwardOutputLayer(w, d, s, h, g, lr);
    AddScaledOuterIs(w.w2, lr, g, h, r.w2);
    AddScaledIs(w.b2, lr, g, r.b2);
  }

  lemma HiddenMatrixForm(w: Weights, d: Dims, s: Vector, h: Vector, g: Vector, lr: real)
    requires Shaped(w, d) && |s| == d.state && |h| == d.hidden && |g| == d.action
    ensures var r := BackwardAt(w, d, s, h, g, lr);
      var dz1 := HiddenGradient(w, d, h, g);
      && r.w1 == MatAdd(w.w1, MatScale(lr, Outer(dz1, s)))
      && r.b1 == VecAdd(w.b1, VecScale(lr, dz1))
  {
    var r := BackwardAt(w, d, s, h, g, lr);
    var dz1 := HiddenGradient(w, d, h, g);
    AddScaledOuterIs(w.w1, lr, dz1, s, r.w1);
    AddScaledIs(w.b1, lr, dz1, r.b1);
  }

  /**
    For an output gradient that is `td` at action `a` and zero elsewhere, only
    row `a` of `w2` and entry `a` of `b2` move, and the first layer moves along
    row `a` of the old `w2` scaled by the slope `1 − h²` of each hidden unit.
   */
  lemma BackwardOneHot(w: Weights, d: Dims, s: Vector, h: Vector, a: int, td: real, lr: real)
    requires Shaped(w, d) && |s| == d.state && |h| == d.hidden && 0 <= a < d.action
    ensures var r := BackwardAt(w, d, s, h, OneHot(d.action, a, td), lr);
      && (forall i :: 0 <= i < d.action && i != a ==> r.w2[i] == w.w2[i] && r.b2[i] == w.b2[i])
      && r.b2[a] == w.b2[a] + lr * td
      && (forall j :: 0 <= j < d.hidden ==> r.w2[a][j] == w.w2[a][j] + lr * (td * h[j]))
      && (forall j :: 0 <= j < d.hidden ==>
            r.b1[j] == w.b1[j] + lr * (w.w2[a][j] * td * (1.0 - h[j] * h[j])))
      && (forall j, k :: 0 <= j < d.hidden && 0 <= k < d.state ==>
            r.w1[j][k] == w.w1[j][k] + lr * (w.w2[a][j] * td * (1.0 - h[j] * h[j]) * s[k]))
  {
    OneHotOutputLayer(w, d, s, h, a, td, lr);
    OneHotHiddenBias(w, d, s, h, a, td, lr);
    OneHotHiddenWeights(w, d, s, h, a, td, lr);
  }

  lemma OneHotOutputLayer(w: Weights, d: Dims, s: Vector, h: Vector, a: int, td: real, lr: real)
    requires Shaped(w, d) && |s| == d.state && |h| == d.hidden && 0 <= a < d.action
    ensures var r := BackwardAt(w, d, s, h, OneHot(d.action, a, td), lr);
      && (forall i :: 0 <= i < d.action && i != a ==> r.w2[i] == w.w2[i] && r.b2[i] == w.b2[i])
      && r.b2[a] == w.b2[a] + lr * td
      && (forall j :: 0 <= j < d.hidden ==> r.w2[a][j] == w.w2[a][j] + lr * (td * h[j]))
  {
    var g := OneHot(d.action, a, td);
    var r := BackwardAt(w, d, s, h, g, lr);
    BackwardOutputLayer(w, d, s, h, g, lr);
    forall i | 0 <= i < d.action && i != a
      ensures r.w2[i] == w.w2[i]
    {
      assert forall j :: 0 <= j < d.hidden ==> r.w2[i][j] == w.w2[i][j];
    }
  }

  /** Entry `j` of `w2ᵀ g` for the one-hot `g` is the old `w2[a][j]` times `td`. */
  lemma OneHotBackprop(w: Weights, d: Dims, a: int, td: real, j: int)
    requires Shaped(w, d) && 0 <= a < d.action && 0 <= j < d.hidden
    ensures MatVec(Transpose(w.w2, d.hidden), OneHot(d.action, a, td))[j] == w.w2[a][j] * td
  {
    DotSparse(Transpose(w.w2, d.hidden)[j], OneHot(d.action, a, td), a, td);
  }

  lemma OneHotHiddenBias(w: Weights, d: Dims, s: Vector, h: Vector, a: int, td: real, lr: real)
    requires Shaped(w, d) && |s| == d.state && |h| == d.hidden && 0 <= a < d.action
    ensures var r := BackwardAt(w, d, s, h, OneHot(d.action, a, td), lr);
      forall j :: 0 <= j < d.hidden ==>
        r.b1[j] == w.b1[j] + lr * (w.w2[a][j] * td * (1.0 - h[j] * h[j]))
  {
    var g := OneHot(d.action, a, td);
    var gh := MatVec(Transpose(w.w2, d.hidden), g);
    var r := BackwardAt(w, d, s, h, g, lr);
    HiddenBiasStep(w, d, s, h, g, lr);
    forall j | 0 <= j < d.hidden
      ensures r.b1[j] == w.b1[j] + lr * (w.w2[a][j] * td * (1.0 - h[j] * h[j]))
    {
      OneHotBackprop(w, d, a, td, j);
      SameProduct(1.0 - h[j] * h[j], gh[j], w.w2[a][j] * td);
      SameProduct(lr, gh[j] * (1.0 - h[j] * h[j]), w.w2[a][j] * td * (1.0 - h[j] * h[j]));
    }
  }

  lemma OneHotHiddenWeights(w: Weights, d: Dims, s: Vector, h: Vector, a: int, td: real, lr: real)
    requires Shaped(w, d) && |s| == d.state && |h| == d.hidden && 0 <= a < d.action
    ensures var r := BackwardAt(w, d, s, h, OneHot(d.action, a, td), lr);
      forall j, k :: 0 <= j < d.hidden && 0 <= k < d.state ==>
        r.w1[j][k] == w.w1[j][k] + lr * (w.w2[a][j] * td * (1.0 - h[j] * h[j]) * s[k])
  {
    var g := OneHot(d.action, a, td);
    var gh := MatVec(Transpose(w.w2, d.hidden), g);
    var r := BackwardAt(w, d, s, h, g, lr);
    HiddenWeightStep(w, d, s, h, g, lr);
    forall j, k | 0 <= j < d.hidden && 0 <= k < d.state
      ensures r.w1[j][k] == w.w1[j][k] + lr * (w.w2[a][j] * td * (1.0 - h[j] * h[j]) * s[k])
    {
      var slope := 1.0 - h[j] * h[j];
      OneHotBackprop(w, d, a, td, j);
      SameProduct(slope, gh[j], w.w2[a][j] * td);
      SameProduct(s[k], gh[j] * slope, w.w2[a][j] * td * slope);
      SameProduct(lr, gh[j] * slope * s[k], w.w2[a][j] * td * slope * s[k]);
    }
  }

  /** A zero error leaves every weight and bias where it was. */
  lemma BackwardZeroError(w: Weights, d: Dims, s: Vector, h: Vector, a: int, lr: real)
    requires Shaped(w, d) && |s| == d.state && |h| == d.hidden && 0 <= a < d.action
    ensures BackwardAt(w, d, s, h, OneHot(d.action, a, 0.0), lr) == w
  {
    var r := BackwardAt(w, d, s, h, OneHot(d.action, a, 0.0), lr);
    BackwardOneHot(w, d, s, h, a, 0.0, lr);
    RowsEqual(r.w1, w.w1, d.hidden, d.state);
    RowsEqual(r.w2, w.w2, d.action, d.hidden);
    assert r.b1 == w.b1;
    assert r.b2 == w.b2;
  }

  /**
    The bootstrapped target for a reward and the next state's action values:
    the reward alone when the episode ended, otherwise plus the discounted value
    of the greedy next action.
   */
  function Target(reward: real, done: bool, gamma: real, next: Vector): (y: real)
    requires !done ==> |next| > 0
    ensures done ==> y == reward
    ensures !done ==> y == reward + gamma * next[ArgMax(next)]
  {
    var target := reward;
    if !done then
      MaxIsValueAtArgMax(next);
      SameProduct(gamma, Max(next), next[ArgMax(next)]);
      target + gamma * Max(next)
    else target
  }

  /**
    The target for a stored transition, scored with the current weights. The
    next state is passed through the network only when the episode goes on.
   */
  function TdTarget(w: Weights, d: Dims, t: Transition, gamma: real, tanh: real -> real): (y: real)
    requires Shaped(w, d) && Fits(t, d)
    ensures t.done ==> y == t.reward
  {
    var next := if t.done then [] else Forward(w, d, t.next, tanh);
    Target(t.reward, t.done, gamma, next)
  }

  /** The TD error: the target less the value the network gives the taken action. */
  function TdError(w: Weights, d: Dims, t: Transition, gamma: real, tanh: real -> real): (e: real)
    requires Shaped(w, d) && Fits(t, d)
    ensures t.done ==> e == t.reward - Forward(w, d, t.state, tanh)[t.action]
  {
    TdTarget(w, d, t, gamma, tanh) - Forward(w, d, t.state, tanh)[t.action]
  }

  /** Learning from one transition: a backward pass with the TD error at the taken action. */
  function Learn(w: Weights, d: Dims, t: Transition, lr: real, gamma: real, tanh: real -> real): (r: Weights)
    requires Shaped(w, d) && Fits(t, d)
    ensures Shaped(r, d)
  {
    var td := TdError(w, d, t, gamma, tanh);
    Backward(w, d, t.state, OneHot(d.action, t.action, td), lr, tanh)
  }

  /** Learning from a transition changes the output layer only at the taken action. */
  lemma LearnTouchesTakenAction(w: Weights, d: Dims, t: Transition, lr: real, gamma: real, tanh: real -> real)
    requires Shaped(w, d) && Fits(t, d)
    ensures var r := Learn(w, d, t, lr, gamma, tanh);
      forall i :: 0 <= i < d.action && i != t.action ==> r.w2[i] == w.w2[i] && r.b2[i] == w.b2[i]
  {
    BackwardOneHot(w, d, t.state, Hidden(w, d, t.state, tanh), t.action, TdError(w, d, t, gamma, tanh), lr);
  }

  /** A transition whose value is already predicted exactly teaches nothing. */
  lemma LearnAtFixedPoint(w: Weights, d: Dims, t: Transition, lr: real, gamma: real, tanh: real -> real)
    requires Shaped(w, d) && Fits(t, d)
    requires TdError(w, d, t, gamma, tanh) == 0.0
    ensures Learn(w, d, t, lr, gamma, tanh) == w
  {
    BackwardZeroError(w, d, t.state, Hidden(w, d, t.state, tanh), t.action, lr);
  }

  predicate AllFit(batch: seq<Transition>, d: Dims)
  {
    forall i :: 0 <= i < |batch| ==> Fits(batch[i], d)
  }

  /** Learns from the transitions of `batch` in order, each from the weights the previous one left. */
  function TrainBatch(w: Weights, d: Dims, batch: seq<Transition>, lr: real, gamma: real,
                      tanh: real -> real): (r: Weights)
    requires Shaped(w, d) && AllFit(batch, d)
    ensures Shaped(r, d)
    decreases |batch|
  {
    if |batch| == 0 then w
    else TrainBatch(Learn(w, d, batch[0], lr, gamma, tanh), d, batch[1..], lr, gamma, tanh)
  }

  /** The batch is a left fold: the last transition learns from what all earlier ones produced. */
  lemma {:induction false} TrainBatchSnoc(w: Weights, d: Dims, batch: seq<Transition>, t: Transition,
                                          lr: real, gamma: real, tanh: real -> real)
    requires Shaped(w, d) && AllFit(batch, d) && Fits(t, d)
    ensures AllFit(batch + [t], d)
    ensures TrainBatch(w, d, batch + [t], lr, gamma, tanh)
         == Learn(TrainBatch(w, d, batch, lr, gamma, tanh), d, t, lr, gamma, tanh)
    decreases |batch|
  {
    AllFitSnoc(batch, t, d);
    if |batch| == 0 {
      assert batch + [t] == [t];
    } else {
      var w' := Learn(w, d, batch[0], lr, gamma, tanh);
      var rest := batch[1..];
      AllFitTail(batch, d);
      assert (batch + [t])[0] == batch[0];
      assert (batch + [t])[1..] == rest + [t];
      calc {
        TrainBatch(w, d, batch + [t], lr, gamma, tanh);
        TrainBatch(w', d, rest + [t], lr, gamma, tanh);
        { TrainBatchSnoc(w', d, rest, t, lr, gamma, tanh); }
        Learn(TrainBatch(w', d, rest, lr, gamma, tanh), d, t, lr, gamma, tanh);
      }
    }
  }

  lemma AllFitSnoc(batch: seq<Transition>, t: Transition, d: Dims)
    requires AllFit(batch, d) && Fits(t, d)
    ensures AllFit(batch + [t], d)
  {
    forall i | 0 <= i < |batch| + 1
      ensures Fits((batch + [t])[i], d)
    {
      if i < |batch| {
        assert (batch + [t])[i] == batch[i];
      }
    }
  }

  lemma AllFitTail(batch: seq<Transition>, d: Dims)
    requires AllFit(batch, d) && |batch| > 0
    ensures AllFit(batch[1..], d)
  {
    forall i | 0 <= i < |batch| - 1
      ensures Fits(batch[1..][i], d)
    {
      assert batch[1..][i] == batch[i + 1];
    }
  }

  /** A transition set whose errors are all zero under the current weights leaves them unchanged. */
  lemma {:induction false} TrainBatchAtFixedPoint(w: Weights, d: Dims, batch: seq<Transition>,
                                                  lr: real, gamma: real, tanh: real -> real)
    requires Shaped(w, d) && AllFit(batch, d)
    requires forall i :: 0 <= i < |batch| ==> TdError(w, d, batch[i], gamma, tanh) == 0.0
    ensures TrainBatch(w, d, batch, lr, gamma, tanh) == w
    decreases |batch|
  {
    if |batch| > 0 {
      var rest := batch[1..];
      LearnAtFixedPoint(w, d, batch[0], lr, gamma, tanh);
      AllFitTail(batch, d);
      forall i | 0 <= i < |rest|
        ensures TdError(w, d, rest[i], gamma, tanh) == 0.0
      {
        assert rest[i] == batch[i + 1];
      }
      TrainBatchAtFixedPoint(w, d, rest, lr, gamma, tanh);
    }
  }

  /** `idx` is a draw of `k` distinct positions below `n`, as sampling without replacement gives. */
  predicate IsSample(idx: seq<nat>, n: nat, k: nat)
  {
    && |idx| == k
    && (forall i :: 0 <= i < k ==> idx[i] < n)
    && (forall i, j :: 0 <= i < j < k ==> idx[i] != idx[j])
  }

  function Picked(items: seq<Transition>, idx: seq<nat>): (batch: seq<Transition>)
    requires forall i :: 0 <= i < |idx| ==> idx[i] < |items|
    ensures |batch| == |idx|
    ensures forall i :: 0 <= i < |idx| ==> batch[i] == items[idx[i]]
  {
    seq(|idx|, i requires 0 <= i < |idx| => items[idx[i]])
  }

  /**
    One training step. With fewer than `batchSize` stored transitions nothing
    changes; otherwise the sampled transitions are learned from in the order
    drawn. The memory is only read.
   */
  function TrainStep(p: Planner, idx: seq<nat>, tanh: real -> real): (r: Planner)
    requires WellFormed(p)
    requires |p.memory.items| >= p.batchSize ==>
      && IsSample(idx, |p.memory.items|, p.batchSize)
      && forall i :: 0 <= i < |idx| ==> Fits(p.memory.items[idx[i]], p.dims)
    ensures WellFormed(r)
    ensures r.memory == p.memory && r.dims == p.dims
    ensures r.lr == p.lr && r.gamma == p.gamma && r.batchSize == p.batchSize
    ensures |p.memory.items| < p.batchSize ==> r == p
    ensures |p.memory.items| >= p.batchSize ==>
      r.weights == TrainBatch(p.weights, p.dims, Picked(p.memory.items, idx), p.lr, p.gamma, tanh)
  {
    if |p.memory.items| < p.batchSize then p
    else
      var batch := Picked(p.memory.items, idx);
      p.(weights := TrainBatch(p.weights, p.dims, batch, p.lr, p.gamma, tanh))
  }
}
