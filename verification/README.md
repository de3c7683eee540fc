# Kalman filter and DQN planner, modelled over the reals

This project models the two numeric components of the `autonomous_project`
package in Dafny. It proves what each operation computes.

- **`SensorFusion`** (`sensor_fusion.dfy`) models `ExtendedKalmanFilter`. This
  is a constant-velocity Kalman filter over the state `(x, y, vx, vy)`. It has a
  4×4 covariance `P`, process noise `Q` and measurement noise `R`.
  - `predict(dt)` applies the transition `F(dt)`: `x ← F x` and `P ← F P Fᵀ + Q`.
  - `update(z)` uses an identity observation matrix. It forms the innovation
    `z − x` and `S = P + R`, then the gain `K = P S⁻¹`, and moves to `x + K y`
    and `(I − K) P`.
- **`Planning`** (`planner.dfy`) models `DQNPlanner`:
  - a two-layer `tanh` network (`_forward`);
  - epsilon-greedy action choice with a first-index argmax (`act`);
  - the replay memory (`remember`);
  - the training step. This is a sequential fold over a sampled batch. Each
    element computes a TD target, builds a one-hot output gradient and applies
    the hand-written backward pass (`train_step`, `_backward`).
- **`Replay`** (`replay.dfy`) is the bounded first-in first-out memory that a
  `deque(maxlen=…)` provides.
- **`LinAlg`** (`linalg.dfy`) holds vectors as `seq<real>` and matrices as
  `seq<seq<real>>`, with dot products, products, transposes and an abstract
  inverse, plus the algebra the other modules need, such as the associativity
  of the matrix product and the uniqueness of inverses.

Modelling choices:
- All arithmetic is over `real`.
- `tanh` is a parameter `real -> real`, so no result depends on which function
  it is.
- Every random draw is an explicit input:
  - the uniform draw and the random action of `act`;
  - the sampled memory indices of `train_step`;
  - the Gaussian matrices that initialise the weights.
- Matrix inversion is a ghost function. It is defined exactly on the
  invertible matrices. So the gain and the measurement update are ghost
  functions whose precondition is that `S = P + R` is invertible.
  `np.linalg.inv` raises in the other case.
- The code has no conditioning threshold: it calls `np.linalg.inv` directly.
  The model follows the code, so invertibility is the only condition.

## Model

| member | source | states |
|---|---|---|
| SensorFusion.Init | autonomous_project/sensor_fusion.py:5-10 | a fresh filter has the zero 4-vector as state, `P = 0.1 I`, `Q = process_var I`, `R = meas_var I`; all three matrices are symmetric |
| SensorFusion.DefaultFilter | autonomous_project/sensor_fusion.py:5-10 | the filter built without arguments uses `process_var = 0.05` and `meas_var = 0.01`: zero state, `P = 0.1 I`, `Q = 0.05 I`, `R = 0.01 I` |
| SensorFusion.Predict | autonomous_project/sensor_fusion.py:12-18 | prediction keeps the filter's shapes and never changes `Q` or `R` |
| SensorFusion.PredictState | autonomous_project/sensor_fusion.py:13-17 | after `predict(dt)` the state is `(x + dt·vx, y + dt·vy, vx, vy)`: positions advance by `dt` times velocity, velocities stay |
| SensorFusion.PredictCovariance | autonomous_project/sensor_fusion.py:13-18 | entry `(i, j)` of the predicted covariance is `P[i][j]` plus `dt` times the matching velocity entries plus `dt²·P[i+2][j+2]` where both are positions, plus `Q[i][j]`; this is `F P Fᵀ + Q` written out |
| SensorFusion.PredictZero | autonomous_project/sensor_fusion.py:13-18 | `predict(0)` leaves the state unchanged and sets the covariance to `P + Q` |
| SensorFusion.PredictSymmetric | autonomous_project/sensor_fusion.py:18 | with symmetric `P` and `Q` the predicted covariance is symmetric |
| SensorFusion.PredictTwice | autonomous_project/sensor_fusion.py:13-17 | predicting by `dt1` and then `dt2` gives the same state as one prediction by `dt1 + dt2` |
| SensorFusion.Innovation | autonomous_project/sensor_fusion.py:21-22 | with the identity observation the innovation `z − H x` is `z − x` |
| SensorFusion.InnovationCovariance | autonomous_project/sensor_fusion.py:21-23 | with the identity observation `H P Hᵀ + R` is `P + R` |
| SensorFusion.Gain | autonomous_project/sensor_fusion.py:23-24 | the gain exists only when `S` is invertible, and it solves `K (P + R) = P` |
| SensorFusion.GainUnique | autonomous_project/sensor_fusion.py:24 | every 4×4 `K` with `K (P + R) = P` is the gain, so the gain is fully determined by `P` and `R` |
| SensorFusion.Correct | autonomous_project/sensor_fusion.py:25-26 | with gain `K` the state becomes `x + K (z − x)` and the covariance `(I − K H) P`, which equals `P − K P`; `Q` and `R` are unchanged |
| SensorFusion.Update | autonomous_project/sensor_fusion.py:20-26 | the update, defined only for an invertible `S`, moves the state by the gain times the innovation, sets the covariance to `P − K P`, and keeps `Q`, `R` and all shapes |
| SensorFusion.UpdateSymmetric | autonomous_project/sensor_fusion.py:23-26 | with symmetric `P` and `R` the updated covariance `P − P S⁻¹ P` is symmetric again |
| SensorFusion.UpdateAtEstimate | autonomous_project/sensor_fusion.py:21-25 | a measurement equal to the current state leaves the state unchanged |
| SensorFusion.CycleKeepsShapes | tests/test_dummy.py:4-9 | after a predict followed by an update the state is a 4-vector and the covariance a 4×4 matrix |
| Replay.Empty | autonomous_project/planner.py:17 | the fresh memory is empty with capacity `buffer_size` |
| Replay.Push | autonomous_project/planner.py:26-27 | appending puts the entry at the newest end; when full, the oldest entry is dropped; the length becomes `min(old + 1, capacity)` and the content is the newest `capacity` entries of `old + [t]` |
| Replay.PushAllKeepsNewest | autonomous_project/planner.py:26-27 | after any run of appends the memory holds the newest `capacity` entries ever appended, in order |
| Replay.OverflowEvictsFirst | autonomous_project/planner.py:17 | `N + 1` appends to an empty memory of capacity `N` keep exactly the last `N`; the first is gone unless it recurs |
| Planning.Init | autonomous_project/planner.py:7-18 | `w1` and `w2` are the Gaussian draws scaled by 0.1 with shapes hidden×state and action×hidden, both biases are zero, the memory is empty with capacity `buffer_size`, and `lr`, `gamma`, `batch_size` are stored |
| Planning.DefaultPlanner | autonomous_project/planner.py:7-18 | with the default arguments the planner has dimensions 4, 64 and 3, `lr = 0.001`, `gamma = 0.95`, `batch_size = 64` and an empty memory of capacity 10000 |
| Planning.Hidden | autonomous_project/planner.py:45-46 | hidden unit `j` is `tanh(w1[j]·s + b1[j])` |
| Planning.Forward | autonomous_project/planner.py:44-48 | the forward pass has one value per action, and value `i` is `w2[i]·tanh(w1 s + b1) + b2[i]` |
| Planning.ArgMax | autonomous_project/planner.py:24 | the index returned holds a maximal value and no earlier index holds as large a value, which is numpy's first-index tie rule |
| Planning.Max | autonomous_project/planner.py:36 | the maximum bounds every entry and is attained |
| Planning.MaxIsValueAtArgMax | autonomous_project/planner.py:36 | the maximum is the value at the first maximising index |
| Planning.FirstMaxUnique | autonomous_project/planner.py:24 | only one index can be the first maximum |
| Planning.Act | autonomous_project/planner.py:20-24 | the action is always in `[0, action_dim)`; a draw below `eps` yields the random action, any other yields the first maximiser of the forward pass |
| Planning.GreedyIsDeterministic | autonomous_project/planner.py:21-24 | with `eps ≤ 0` two calls with any draws choose the same action |
| Planning.FullExploration | autonomous_project/planner.py:21-22 | with `eps ≥ 1` every draw takes the random branch |
| Planning.Remember | autonomous_project/planner.py:26-27 | remembering changes only the memory's contents: the weights, dimensions, hyperparameters and capacity stay; the memory gains the transition at its newest end, drops its oldest entry when full, and its length becomes `min(old + 1, capacity)` |
| Planning.BackwardAt | autonomous_project/planner.py:53-62 | the backward pass, given the hidden activations, keeps every weight and bias shape; its own contract states only shapes, and what it computes is stated by the lemmas below |
| Planning.Backward | autonomous_project/planner.py:50-62 | `_backward` recomputes the hidden activations of `s` and applies the backward pass; its own contract states only shapes |
| Planning.BackwardMatrixForm | autonomous_project/planner.py:53-62 | the entrywise update equals the code's matrix update: `w2 + lr·outer(g, h)`, `b2 + lr·g`, `w1 + lr·outer(dz1, s)`, `b1 + lr·dz1`, with `dz1 = (w2ᵀ g)·(1 − h²)` taken from the weights on entry |
| Planning.BackwardOneHot | autonomous_project/planner.py:50-62 | with an output gradient that is `td` at action `a` and zero elsewhere, only row `a` of `w2` and entry `a` of `b2` change; `b1[j]` moves by `lr·w2[a][j]·td·(1 − h[j]²)` and `w1[j][k]` by that times `s[k]` |
| Planning.BackwardZeroError | autonomous_project/planner.py:50-62 | a zero TD error leaves all of `w1`, `b1`, `w2` and `b2` unchanged |
| Planning.Target | autonomous_project/planner.py:34-36 | the target is the reward when the episode ended, and otherwise the reward plus `gamma` times the value of the greedy next action |
| Planning.TdTarget | autonomous_project/planner.py:34-36 | for a terminal transition the target is its reward alone |
| Planning.TdError | autonomous_project/planner.py:34-38 | for a terminal transition the TD error is the reward less the network's value of the taken action |
| Planning.Learn | autonomous_project/planner.py:34-41 | one loop iteration keeps every weight and bias shape; its own contract states only shapes, and the two lemmas below state what it changes |
| Planning.LearnTouchesTakenAction | autonomous_project/planner.py:37-41 | learning from one transition leaves the output rows and biases of every other action unchanged |
| Planning.LearnAtFixedPoint | autonomous_project/planner.py:37-41 | a transition whose TD error is zero leaves the weights unchanged |
| Planning.TrainBatch | autonomous_project/planner.py:33-41 | the loop over the batch keeps every weight and bias shape; the fold it performs is stated by the two lemmas below |
| Planning.TrainBatchSnoc | autonomous_project/planner.py:33-41 | the batch is a left fold: the last transition learns from the weights that all earlier transitions produced |
| Planning.TrainBatchAtFixedPoint | autonomous_project/planner.py:33-41 | a batch whose TD errors are all zero under the current weights leaves them unchanged |
| Planning.Picked | autonomous_project/planner.py:32 | the batch is the memory entries at the sampled indices, in sampled order |
| Planning.TrainStep | autonomous_project/planner.py:29-41 | below `batch_size` stored transitions nothing changes; otherwise only the weights change, to the fold over the sampled batch; the memory and the hyperparameters stay |

## Left out

- IEEE floating point (rounding, overflow, NaN, infinities) is not modelled: all arithmetic is over `real`.
- `tanh` is a parameter, so no property of the real hyperbolic tangent is used.
- The random draws (`random.random`, `random.randrange`, `random.sample`, `np.random.randn`) are inputs. Their distributions are not modelled, and neither is the Gaussian weight initialisation.
- Planning.TrainStep: requires the sampled indices to be distinct and below the memory length. `random.sample` guarantees this.
- Planning.Act: `eps` is an explicit argument, so its default of 0.1 is not modelled.
- Planning.Act: requires `action_dim > 0`. With no actions, `random.randrange(0)` and `np.argmax` of an empty array raise.
- Shape errors are preconditions, not error results. These are a state of the wrong length, an action outside `[0, action_dim)`, and a next state of the wrong length in a transition that does not end the episode. The model therefore does not follow Python's negative-index wrap-around in `q[a]` and `grad_out[a] = td`. The next state of a terminal transition is never read, so its length is unconstrained.
- Negative dimensions, a negative `buffer_size` or a negative `batch_size` are excluded by typing sizes as `nat`. In Python a negative `batch_size` passes the length guard and then makes `random.sample` raise on every training step.
- The planner stores its three dimensions explicitly. Python keeps only `action_dim` and reads the other two from the weight shapes.
- SensorFusion.Update: positive semi-definiteness of the updated covariance is not proved. It needs an order on matrices that the model does not define. Symmetry is proved by SensorFusion.UpdateSymmetric.
- SensorFusion.Update: the measurement must be a 4-vector. numpy would broadcast other shapes in `z - H @ x` (a scalar or a one-element array acts as a constant 4-vector, a 4×1 array gives a 4×4 innovation); that broadcasting is not modelled.
- SensorFusion.Gain: matrix inversion is abstract, so the gain is a ghost value and no particular inversion algorithm is modelled.
- Planning.TdError: its contract states only the terminal case. The general case is the target of Planning.TdTarget less the network's value.
- Planning.TdTarget: its contract states only the terminal case. The bootstrapped case is stated on Planning.Target, which it applies to the forward pass of the next state.
- `autonomous_project/perception.py`, the scripts and checkpoint saving and loading are not part of this model. They are I/O, plotting or foreign library code.
