# Verification of the sp_vision cores

This project models, in Dafny, the dense algorithmic cores of a robot-vision
program and of the code vendored with it, and proves what they are for:

- **TinyMPC** (`Matrix`, `Lqr`, `Admm`, `AdmmOptimality`, `AdmmConvergence`, `AdmmAccuracy`,
  `AdmmExample`, `AdmmFreshStart`, `AdmmFreshLimits`, `TinyApi`, `CacheExactness`): the Riccati recursion that fills the cache, the
  backward and forward pass, the box projection and the ADMM loop. One backward and one
  forward pass give the unique optimum of the linear-quadratic problem; a fixed point of the
  loop minimises, over the trajectories that stay in the boxes, the cost that the linear terms
  of `update_linear_cost` define; every iteration brings the solver closer to every fixed
  point, so `solve` cannot stay unsolved for longer than a bound that the first iterate sets;
  and a solved answer, except one given at once from a workspace whose linear terms were not
  current (see below), is optimal up to a term that the two tolerances bound. That cost
  (`Track`) has the stage weights as they are after the first addition of rho (see below), and
  at the end of the horizon the weight `Pinf - rho I` with the linear term `-Pinf Xref`, so its
  last term is not centred at the last reference.
- **Kalman filter and target** (`Angle`, `Armor`, `Ekf`, `KalmanMean`, `Target`, `KnownShape`,
  `Plates`, `PlateJacobian`): the
  Joseph-form update in any dimension, the updated mean as a least-squares solution, the
  piecewise white noise, the wrapped state and residual, the plate matching and where the
  plates are.
- **WebSocket frames** (`WsMask`, `WsHeader`): masking word by word and in a stream, and the
  variable-length header (sections 5.2 and 5.3 of RFC 6455).
- **Checksums** (`BitStrings`, `PolynomialDivision`, `Checksum`, `Crc`): the two tables against
  division over GF(2), and what the checks detect.
- **Threads** (`OrderedQueue`, `ThreadPool`, `ThreadPoolWaits`, `Mailbox`): the reorder buffer, the
  worker pool with its sleeping and notifying, and the command mailbox, over every run or
  interleaving of their critical sections.
- **Packages** (`Packages`): the topological order of ROS packages and the reduction to a
  circular dependency.
- **YAML subset** (`YamlText`, `Yaml`, `YamlFlow`, `YamlRoundTrip`, `YamlGroups`,
  `YamlItems`, `YamlDecorated`): the parser,
  function by function, the round trip of flow values, block maps and block sequences, and
  what holds of every text.
- **Tracking and aiming** (`Tracker`, `TrackerRuns`, `TrackerOmni`, `TrackedPlates`, `Aimer`,
  `TrackedAim`, `Trajectory`): the tracker's state machine over whole runs, the choice of the plate, and the
  ballistic solver against the physics.

`Basics` holds the few definitions that several modules share.

Arithmetic is exact: reals for the source's floating point, bit vectors or bit strings for
its machine words, unbounded integers for counters. Time, trigonometry, square roots and
matrix inverses are inputs with their defining equations. Code that updates fields or
buffers is a class or a method with loops, tied by its postcondition to a function or a
relation on values; the lemmas are about those.

Points where the code is not what one would expect, modelled as written:

- `tiny_setup` adds rho to the weights and `tiny_precompute_and_set_cache` adds it again
  (3rdparty/tinympc/tiny_api.cpp:107-126, 254-255). `Qd` and `Rd` below are the weights after
  the first addition, which are also the ones that `update_linear_cost` uses.
- The cached `Quu_inv` belongs to the last `Pinf`, but the cached `Kinf` to the one before
  (3rdparty/tinympc/tiny_api.cpp:274-294), and the loop ends when the gain has settled, whatever
  the cost-to-go does. `ExactIffReachableSettled` says when that makes no difference: when the
  last step did not change the cost of any state that the closed loop can reach. Without an
  input the gain settles at once, and `NoInputExactIff` says for which plants that is enough;
  `SettledGainIsNotEnough` is one for which it is not.
- `tiny_setup` leaves the linear terms zero, and `solve` computes them only after its first
  passes (3rdparty/tinympc/tiny_api.cpp:68-87, 3rdparty/tinympc/admm.cpp:312-326). From the
  origin, without an affine term, the first iterate is therefore zero and is accepted, whatever
  the references are: `FreshAnswerIsZero`. `FreshAnswerIsFarOff` is an instance,
  `FreshIsNearlyOptimalIff` says exactly when that answer is as good as the tolerances promise,
  and `AcceptedIsNearlyOptimal` what linear terms that are not current can cost in general.
- The "not spinning" guard of the aimer reads state entry 8, the radius
  (tasks/auto_aim/aimer.cpp:163, tasks/auto_aim/target.cpp:34-39). The tracker returns no target
  with a radius of half a metre or more, so the branch for spinning targets is dead except for
  outposts: `SpinningBranchIsDead`, `SpinningBranchIsDeadInOmni`.
- `detect_count_` is not reset between "switching" and "detecting"
  (tasks/auto_aim/tracker.cpp:216-218), so after a switch a single frame leads to "tracking",
  whatever min_detect_count is: `OneFrameAfterSwitch`.
- The branch that the aimer's comment calls impossible is reachable with three plates, because
  57.3 is a little more than the degrees in a radian (tasks/auto_aim/aimer.cpp:167-173):
  `ThreePlatesCanMiss` is an input, `AimFailsIff` the exact condition for any number of plates.
- A command left in its slot while the link is down goes out together with one from a later
  pass of the main loop (src/sentry.cpp:417-454): `BatchMaySpanSkippedPasses` builds such runs for
  every number of skipped passes, and `BatchWithinOnePassIff` says that nothing else does: the
  passes are at most one apart exactly when none between them read that the link was down.
- The predicted covariance, unlike the predicted mean, depends on how an interval is split
  (tasks/auto_aim/target.cpp:104-122): `CovarianceSplitsIff` says that only a step of no length
  can be split off.
- `temp_lost_count_` is not reset on entry to "switching" (tasks/auto_aim/tracker.cpp:152, 219),
  so that state lasts 200 frames less whatever the counter stood at (`SwitchingLastsIff`), and
  the counter can stand at any number up to 200 (`SwitchingMayBeEnteredAt`).
- `Target::update` reads three plates even of a two-plate target
  (tasks/auto_aim/target.cpp:159, tasks/auto_aim/tracker.cpp:254); `Update` requires three.
- A bare dash line is never a sequence item, because lines are trimmed on the right first
  (3rdparty/yaml-cpp/yaml.hpp:189-191, 318): no block sequence has a null item (`SeqHasNoNull`,
  and `NoNullItem` for a whole document), and a bare dash is an error or the end of what is
  read (`BareDashFails`, `BareDashFailsInMap`, `BareDashEndsSequence`).
- Any colon behind a dash is taken for that of a key, even inside brackets
  (3rdparty/yaml-cpp/yaml.hpp:214-217): `SingleReadBackIff`. And a key behind a dash with nothing
  after its colon takes the entries that follow at its own indent as its value
  (3rdparty/yaml-cpp/yaml.hpp:222-226): `GroupReadBackIff` says exactly which maps behind a dash
  are read back.

## Model

| member | source | states |
|---|---|---|
| `Lqr.StageIdentity` | 3rdparty/tinympc/admm.cpp:13-20 | with an exact cache, a stage cost plus the cost-to-go is the new cost-to-go, plus a constant, plus the weighted square of the deviation from the feedback law |
| `Lqr.CostIsValuePlusGap` | 3rdparty/tinympc/admm.cpp:13-32 | over any horizon the cost of any trajectory is a function of its start plus its summed deviations |
| `Lqr.PassesAreOptimal` | 3rdparty/tinympc/admm.cpp:13-32 | for every horizon and all linear terms, no trajectory from the same start costs less than the output of the two passes, and only that output costs as little |
| `Admm.SlackAndDual` | 3rdparty/tinympc/admm.cpp:81-98 | the projected slack lies in the box and the updated dual in its normal cone there; without a box the dual is zero |
| `Admm.ResidualIff` | 3rdparty/tinympc/admm.cpp:257-260 | a residual is below a tolerance exactly when every entry is |
| `Admm.IterationLeaves` | 3rdparty/tinympc/admm.cpp:312-326 | every iteration keeps the start and leaves an exact rollout, current linear terms and, where the bounds are in order, feasible slacks with normal duals |
| `Admm.TinySolver.BackwardPassGrad` | 3rdparty/tinympc/admm.cpp:13-20 | fills d and p by the backward recursion in every column, and leaves the last column of p alone |
| `Admm.TinySolver.ForwardPass` | 3rdparty/tinympc/admm.cpp:25-32 | x and u satisfy the dynamics exactly from the unchanged start, u by the feedback law |
| `Admm.TinySolver.UpdateSlack` | 3rdparty/tinympc/admm.cpp:81-98 | the slacks are the sums of iterate and dual, clamped where a box is on |
| `Admm.TinySolver.UpdateDual` | 3rdparty/tinympc/admm.cpp:181-187 | the duals grow by the primal residual, and nothing else changes |
| `Admm.TinySolver.UpdateLinearCost` | 3rdparty/tinympc/admm.cpp:214-239 | q, r and the last column of p become the linear terms of the augmented Lagrangian |
| `Admm.TinySolver.TerminationCondition` | 3rdparty/tinympc/admm.cpp:253-271 | stops exactly at a tested iteration with all four residuals below tolerance; the residual fields are set only then |
| `Admm.TinySolver.Iterate` | 3rdparty/tinympc/admm.cpp:312-326 | one iteration, as the relation that the convergence proof uses |
| `Admm.TinySolver.Solve` | 3rdparty/tinympc/admm.cpp:274-389 | for every max_iter the outcome is accounted for iterate by iterate; with max_iter at least 1 the saved solution is box-feasible, and a solved one is within abs_pri_tol of an exact trajectory |
| `AdmmOptimality.CostDifference` | 3rdparty/tinympc/admm.cpp:214-239 | the penalised cost of another trajectory differs by the tracking cost, the squared distance and the charge of the duals |
| `AdmmOptimality.FirstOrder` | 3rdparty/tinympc/admm.cpp:312-326 | no trajectory gains more on the tracking cost than the duals charge for it |
| `AdmmOptimality.FixedPointIsOptimal` | 3rdparty/tinympc/admm.cpp:312-326 | a fixed point of the loop minimises the tracking cost over all trajectories that stay in the boxes |
| `AdmmOptimality.UnchangedIsFixedPoint` | 3rdparty/tinympc/admm.cpp:312-326 | an iteration that changes neither slacks nor duals has reached a fixed point |
| `AdmmConvergence.FixedPointStays` | 3rdparty/tinympc/admm.cpp:312-326 | and from a fixed point no iteration changes them |
| `AdmmConvergence.DistanceFalls` | 3rdparty/tinympc/admm.cpp:312-326 | every iteration reduces the squared distance of slacks and duals to every fixed point by at least the squares of what it changes |
| `AdmmConvergence.RejectedMoves` | 3rdparty/tinympc/admm.cpp:253-271 | an iterate that fails the residual test has moved by at least the smaller tolerance |
| `AdmmConvergence.UnsolvedIsBounded` | 3rdparty/tinympc/admm.cpp:312-388 | if a fixed point exists, an unsolved run made no more tests than the distance of its first iterate over the least move |
| `AdmmExample.ConvergentExists` | 3rdparty/tinympc/admm.cpp:312-388 | problems of every size, horizon and input weight meet all that these results ask for |
| `AdmmExample.ConvergentAtBound` | 3rdparty/tinympc/admm.cpp:312-388 | so does one whose fixed point lies at a bound, held there by a positive dual |
| `AdmmAccuracy.AcceptedIsNearlyOptimal` | 3rdparty/tinympc/admm.cpp:253-271 | from any workspace, no trajectory in the boxes costs less than the rollout of an accepted iterate by more than rho times the size of the duals times the primal tolerance, plus its distance times the dual one, plus the charge of linear terms that were not current |
| `AdmmAccuracy.SolvedIsNearlyOptimal` | 3rdparty/tinympc/admm.cpp:312-376 | without that last term, for every call of solve that reports "solved" after two iterations or was given a current workspace |
| `AdmmAccuracy.SolvedAtOnce` | 3rdparty/tinympc/admm.cpp:312-376 | with it, for every call that reports "solved" at once |
| `AdmmFreshStart.FreshIterateIsZero` | 3rdparty/tinympc/tiny_api.cpp:68-87 | from a zero workspace at an origin that is a place of rest in the boxes, the first iterate is zero and passes every test |
| `AdmmFreshStart.FreshAnswerIsZero` | 3rdparty/tinympc/admm.cpp:312-376 | so solve reports "solved" after one iteration and returns zero, whatever the references |
| `AdmmFreshStart.FreshAnswerIsFarOff` | 3rdparty/tinympc/admm.cpp:312-376 | a problem on which that answer breaks the bound by far |
| `AdmmFreshLimits.FreshIsNearlyOptimalIff` | 3rdparty/tinympc/admm.cpp:312-376 | that answer keeps the bound towards every trajectory in the boxes exactly when the references pull along none by more than abs_dua_tol per unit of size |
| `TinyApi.Bellman` | 3rdparty/tinympc/tiny_api.cpp:274-275 | a stage followed by P costs the Riccati step of P plus the weighted square of the distance from the feedback law |
| `TinyApi.RiccatiKeeps` | 3rdparty/tinympc/tiny_api.cpp:274-275 | a Riccati step of a covariance is a covariance, and not below Q1 |
| `TinyApi.RiccatiMonotone` | 3rdparty/tinympc/tiny_api.cpp:274-275 | a larger cost-to-go gives a larger one |
| `TinyApi.CostToGoRises` | 3rdparty/tinympc/tiny_api.cpp:267-286 | the iterates of the recursion only ever grow |
| `TinyApi.CostToGoStaysBelow` | 3rdparty/tinympc/tiny_api.cpp:267-286 | and never above the cost-to-go of an exact cache |
| `TinyApi.IterateIsLowerBound` | 3rdparty/tinympc/tiny_api.cpp:267-286 | no k controls cost less than the k-th iterate says |
| `TinyApi.IterateIsAttained` | 3rdparty/tinympc/tiny_api.cpp:267-286 | some k controls cost just that |
| `TinyApi.SameGainIff` | 3rdparty/tinympc/tiny_api.cpp:277 | two gains count as the same exactly when no entry differs by 0.00001 or more |
| `TinyApi.RiccatiLoop` | 3rdparty/tinympc/tiny_api.cpp:267-286 | from rho on the diagonal to the first step that leaves the gain as it was, or to the thousandth |
| `TinyApi.PrecomputeCache` | 3rdparty/tinympc/tiny_api.cpp:244-318 | the cache holds the last iterate and the matrices derived from it |
| `TinyApi.RegularIsSound` | 3rdparty/tinympc/tiny_api.cpp:253-255 | non-negative weights and a positive rho meet all that the results above ask for |
| `CacheExactness.ExactIffReachableSettled` | 3rdparty/tinympc/tiny_api.cpp:274-294 | the cache is exact exactly when the last step left the cost of every state that the closed loop can reach as it was |
| `CacheExactness.UnchangedIsExact` | 3rdparty/tinympc/tiny_api.cpp:274-294 | in particular when it left the cost-to-go as it was |
| `CacheExactness.ComputedIsExactIff` | 3rdparty/tinympc/tiny_api.cpp:267-294 | the same of every call with regular weights, in terms of its last two iterates |
| `CacheExactness.WellPosedIffExact` | 3rdparty/tinympc/tiny_api.cpp:253-318 | a solver set up with the computed cache and the weights it was made from meets the hypotheses of the optimality results exactly when the cache is exact |
| `CacheExactness.NoInputExactIff` | 3rdparty/tinympc/tiny_api.cpp:267-294 | on a plant without input the loop stops after one step, and the cache is exact exactly when the plant comes to rest in two steps, the second of them for free |
| `CacheExactness.SettledGainIsNotEnough` | 3rdparty/tinympc/tiny_api.cpp:277-283 | a plant on which the gain settles and the cache is not exact |
| `Angle.Wrap` | tools/math_tools.cpp:8-13 | the representative lies in (-pi, pi] |
| `Angle.WrapUnique` | tools/math_tools.cpp:8-13 | it is the only angle there that differs by whole turns |
| `Angle.WrapCongruent` | tools/math_tools.cpp:8-13 | two angles wrap to the same value exactly when they differ by whole turns |
| `Angle.LimitRad` | tools/math_tools.cpp:8-13 | the two loops terminate at that representative |
| `Ekf.JosephKeeps` | tools/extended_kalman_filter.cpp:50-54 | for any gain the updated covariance is symmetric and positive semidefinite |
| `Ekf.RunKeepsCovariance` | tools/extended_kalman_filter.cpp:28-54 | so it is along every run of predictions and updates, in any dimension |
| `Ekf.GainFromInverse` | tools/extended_kalman_filter.cpp:50 | the computed gain solves the normal equations when the inverse is one |
| `Ekf.GainIsOptimal` | tools/extended_kalman_filter.cpp:50-54 | no other gain gives a smaller posterior covariance in any direction |
| `Ekf.MeasurementHelps` | tools/extended_kalman_filter.cpp:50-54 | a measurement never increases the covariance in any direction |
| `KalmanMean.ResidualShrinks` | tools/extended_kalman_filter.cpp:50-59 | for a linear measurement and any gain, the residual after the update is I - H K times that before |
| `KalmanMean.MeanIsLeastSquares` | tools/extended_kalman_filter.cpp:50-56 | with the computed gain the updated mean is the one state that strains prior and measurement least, each in units of its covariance |
| `KalmanMean.InverseSolves` | tools/extended_kalman_filter.cpp:50 | the inverse that the source computes gives the solution that result is stated with |
| `Ekf.WindowIsLastHundred` | tools/extended_kalman_filter.cpp:74-78 | the sliding window holds exactly the last hundred outcomes |
| `Ekf.ExtendedKalmanFilter.Predict` | tools/extended_kalman_filter.cpp:28-35 | the new mean and covariance, the latter a covariance again |
| `Ekf.ExtendedKalmanFilter.Update` | tools/extended_kalman_filter.cpp:44-92 | Joseph-form covariance, corrected mean, test statistic, window, rate and counters |
| `Ekf.Accumulate` | tools/extended_kalman_filter.cpp:80 | the number of failures in the window |
| `Target.ApplyTransition` | tasks/auto_aim/target.cpp:79-91 | the transition matrix moves each position by dt times its velocity and nothing else |
| `Target.NoiseIsCovariance` | tasks/auto_aim/target.cpp:104-121 | the piecewise white noise is a covariance for every dt, positive or not |
| `Target.MeasurementNoiseIsCovariance` | tasks/auto_aim/target.cpp:194-199 | the measurement noise is one for every armour |
| `Target.MeasurementNoiseGrows` | tasks/auto_aim/target.cpp:194-199 | what the angle and the distance of an armour add to its noise, and to which entries |
| `Target.ResidualLeads` | tasks/auto_aim/target.cpp:209-216 | the residual leads from the prediction to the measurement, its angles the short way round and to within whole turns |
| `Target.ResidualIsZeroIff` | tasks/auto_aim/target.cpp:209-216 | it is zero exactly when the two agree to within whole turns |
| `Target.CorrectionIsAdded` | tasks/auto_aim/target.cpp:43-47 | the correction of the state is added, to within whole turns of its angle |
| `Target.TargetCovarianceAlwaysValid` | tasks/auto_aim/target.cpp:68-223 | along every run of predictions and updates of a target, with any gains, the covariance is symmetric and positive semidefinite |
| `Target.CovarianceSplitsIff` | tasks/auto_aim/target.cpp:104-122 | from any covariance, two steps give what one of their total length gives exactly when one of them has no length |
| `Target.CovarianceDependsOnPartition` | tasks/auto_aim/target.cpp:104-122 | for example two steps of one second and one of two differ |
| `Target.PredictionIsPathIndependent` | tasks/auto_aim/target.cpp:68-136 | through any partition of a time interval the mean comes out the same, spin clamp and convergence flag included |
| `Plates.PlateOnCircle` | tasks/auto_aim/target.cpp:267-278 | every plate is as far from the axis as its radius says |
| `Plates.OppositePlatesMirror` | tasks/auto_aim/target.cpp:267-278 | opposite plates of four lie evenly about the axis, at one height, facing opposite ways |
| `Plates.PlatesMoveAlong` | tasks/auto_aim/target.cpp:229-239 | a target that does not spin carries its plates along |
| `Plates.SoundRadii` | tasks/auto_aim/target.cpp:241-250 | a target has not diverged exactly when both radii of its plates lie between 0.05 and 0.5 |
| `PlateJacobian.JacobianIsExact` | tasks/auto_aim/target.cpp:280-303 | as long as the target does not turn, a plate moves exactly as the derivative says, however large the change |
| `PlateJacobian.JacobianTurns` | tasks/auto_aim/target.cpp:280-303 | as it turns by t, as the derivative says of sin t, and towards the axis by 1 - cos t of its radius |
| `KnownShape.PredictedStaysCertain` | tasks/auto_aim/target.cpp:79-122 | a radius or height without variance keeps none through every prediction |
| `KnownShape.UpdatedStaysCertain` | tools/extended_kalman_filter.cpp:50-56 | no measurement moves a state entry without variance, and it keeps none |
| `Target.MatchPlate` | tasks/auto_aim/target.cpp:158-169 | the first plate with the least angle error among the three nearest |
| `Target.Target.Convergened` | tasks/auto_aim/target.cpp:252-264 | converged from then on, once there are more than 3 updates, or 10 of an outpost, and no divergence |
| `Target.Target.PredictFor` | tasks/auto_aim/target.cpp:75-136 | the object follows the mean model, and its covariance the noise model with the variances of its kind |
| `Target.Target.PredictTo` | tasks/auto_aim/target.cpp:68-73 | the same up to a point in time, which becomes the target's time |
| `Target.Target.Update` | tasks/auto_aim/target.cpp:138-223 | matches a plate, keeps the jump and switch records, and updates the filter with the model of that plate, the angle staying wrapped |
| `WsMask.FourOrEight` | 3rdparty/websocketpp/websocketpp/frame.hpp:595-604 | the masking results are for words of four and of eight bytes, in either order |
| `WsMask.CircshiftRotates` | 3rdparty/websocketpp/websocketpp/frame.hpp:612-623 | the shift rotates the key bytes in memory, for either word size and byte order |
| `WsMask.PreparedHolds` | 3rdparty/websocketpp/websocketpp/frame.hpp:595-604 | a prepared key holds the four key bytes over and over in memory |
| `WsMask.NextKeyHolds` | 3rdparty/websocketpp/websocketpp/frame.hpp:768-841 | each streaming form returns the key for the byte after its chunk |
| `WsMask.StreamingEqualsByteLoop` | 3rdparty/websocketpp/websocketpp/frame.hpp:768-841 | however a payload is split and whichever form masks each piece, the result is that of one byte loop |
| `WsMask.MaskTwice` | 3rdparty/websocketpp/websocketpp/frame.hpp:644-655 | masking twice is the identity |
| `WsMask.ByteMask` | 3rdparty/websocketpp/websocketpp/frame.hpp:644-655 | the byte loop, also in place |
| `WsMask.WordMaskExact` | 3rdparty/websocketpp/websocketpp/frame.hpp:702-717 | for every length the same result as the byte loop, and nothing written beyond it |
| `WsMask.WordMaskCirc` | 3rdparty/websocketpp/websocketpp/frame.hpp:768-789 | the streaming form by words, with the key it returns |
| `WsMask.ByteMaskCirc` | 3rdparty/websocketpp/websocketpp/frame.hpp:830-841 | the streaming form by bytes, with the key it returns |
| `WsHeader.GetHeaderLen` | 3rdparty/websocketpp/websocketpp/frame.hpp:445-458 | the first two bytes alone give a length between 2 and 14 |
| `WsHeader.OffsetsAgree` | 3rdparty/websocketpp/websocketpp/frame.hpp:260-274 | reader and writer agree on where the key is |
| `WsHeader.FirstBytesOnTheWire` | 3rdparty/websocketpp/websocketpp/frame.hpp:194-228 | every flag, the opcode, the mask bit and the size or its code stand where section 5.2 of RFC 6455 puts them |
| `WsHeader.WireLayout` | 3rdparty/websocketpp/websocketpp/frame.hpp:246-274 | the length of the header, the size with its most significant byte first, and the key after it |
| `WsHeader.RestIsZero` | 3rdparty/websocketpp/websocketpp/frame.hpp:235-259 | the unused bytes of the extended header are zero |
| `WsHeader.HeaderRoundTrip` | 3rdparty/websocketpp/websocketpp/frame.hpp:194-275 | reading back a written header returns flags, opcode, mask bit, payload size and key |
| `WsHeader.WireRoundTrip` | 3rdparty/websocketpp/websocketpp/frame.hpp:489-502 | from the wire both header parts come back exactly and no byte of the payload is taken |
| `WsHeader.EncodingIsMinimal` | 3rdparty/websocketpp/websocketpp/frame.hpp:216-227 | no header that decodes to the same size is shorter |
| `WsHeader.BasicHeaderOf` | 3rdparty/websocketpp/websocketpp/frame.hpp:194-228 | the constructor's two bytes |
| `WsHeader.ExtendedHeaderOf` | 3rdparty/websocketpp/websocketpp/frame.hpp:240-244 | the constructor's twelve bytes without a key |
| `WsHeader.MaskedExtendedHeaderOf` | 3rdparty/websocketpp/websocketpp/frame.hpp:246-274 | the constructor's twelve bytes, size before key |
| `PolynomialDivision.BurstDetected` | tools/crc.cpp:70-83 | two messages that differ only inside one window no longer than the register leave different remainders |
| `Checksum.FoldIsDivision` | tools/crc.cpp:50-83 | a byte-wise loop computes the remainder of bit-at-a-time division |
| `Crc.CrcIsDivision` | tools/crc.cpp:3-83 | both table loops are that division, with 0x8408 from 0xffff and 0x8c from 0xff |
| `Crc.Check16IffZero` | tools/crc.cpp:85-89 | a frame passes exactly when the checksum of the whole frame is zero |
| `Crc.Check8IffZero` | tools/crc.cpp:65-68 | the same for the 8-bit check |
| `Crc.BurstFails16` | tools/crc.cpp:85-89 | no change within sixteen consecutive bits of a valid frame of any length passes |
| `Crc.BurstFails8` | tools/crc.cpp:65-68 | no change within eight consecutive bits passes the 8-bit check |
| `Crc.AdjacentBytesFail` | tools/crc.cpp:85-89 | no change of two adjacent bytes passes |
| `Crc.GetCrc8` | tools/crc.cpp:50-63 | the loop over a buffer |
| `Crc.CheckCrc8` | tools/crc.cpp:65-68 | the check over a buffer |
| `Crc.GetCrc16` | tools/crc.cpp:70-83 | the loop over a buffer |
| `Crc.CheckCrc16` | tools/crc.cpp:85-89 | the check over a buffer |
| `OrderedQueue.RunsStayInOrder` | tools/thread_pool.hpp:61-111 | along every run the delivered ids are 1, 2, ... in order and every buffered id is still to come |
| `OrderedQueue.OrderOfArrivalIsIrrelevant` | tools/thread_pool.hpp:61-111 | two runs with the same arrivals in any order deliver the same frames and keep the same buffer |
| `OrderedQueue.OrderedQueue.Enqueue` | tools/thread_pool.hpp:61-88 | the draining loop against the queue as a value |
| `OrderedQueue.OrderedQueue.Dequeue` | tools/thread_pool.hpp:90-99 | takes the front |
| `OrderedQueue.OrderedQueue.TryDequeue` | tools/thread_pool.hpp:102-111 | takes the front if there is one, and says so |
| `ThreadPool.EveryTraceConserves` | tools/thread_pool.hpp:126-174 | over every interleaving started, waiting and discarded tasks are exactly the accepted ones, in their order |
| `ThreadPool.StopIsForever` | tools/thread_pool.hpp:147-174 | after stop nothing is accepted or started any more |
| `ThreadPool.ShutdownTerminates` | tools/thread_pool.hpp:130-160 | over every interleaving after stop, refused enqueues included, the steps of workers are bounded, and all have exited exactly when the bound is used up |
| `ThreadPool.NoWorkerIsStuck` | tools/thread_pool.hpp:134-160 | whatever else happens after stop, the critical section that a worker waits for stays possible until it enters it |
| `ThreadPool.ShutdownCanFinish` | tools/thread_pool.hpp:147-160 | from every stopped pool there is a run in which all workers exit |
| `ThreadPoolWaits.Projects` | tools/thread_pool.hpp:126-174 | with sleeping and notifying modelled, every event is a step of the machine above or leaves it alone |
| `ThreadPoolWaits.NoTaskIsStranded` | tools/thread_pool.hpp:130-174 | over every interleaving, once the notifications are out every waiting task has an awake worker of its own, or nobody sleeps |
| `ThreadPoolWaits.NoWorkerSleepsThroughStop` | tools/thread_pool.hpp:147-160 | once notify_all is out nobody sleeps in a stopped pool, and nobody falls asleep in one |
| `ThreadPoolWaits.StoppedWorkersCanMove` | tools/thread_pool.hpp:147-160 | in a stopped pool a worker that has not exited can make a step, or notify_all is still to come |
| `ThreadPool.Shared.Enqueue` | tools/thread_pool.hpp:164-174 | the critical section is one step of the state machine; a stopped pool refuses |
| `ThreadPool.Shared.Take` | tools/thread_pool.hpp:130-142 | the worker's critical section is one step |
| `ThreadPool.Shared.Shutdown` | tools/thread_pool.hpp:147-153 | the destructor's critical section is one step |
| `Mailbox.EveryTraceKeeps` | src/sentry.cpp:137-206 | the invariant of the protocol over every interleaving |
| `Mailbox.SentIsSelectionOfQueued` | src/sentry.cpp:161-206 | per channel the sent commands are an order-preserving, duplicate-free selection of the queued ones, and the newest is never lost |
| `Mailbox.NoStaleCommand` | src/sentry.cpp:161-206 | a command sent later was decided in a later pass |
| `Mailbox.FireOnIsLicensed` | src/sentry.cpp:410-444 | every fire-on sent comes from a pass with shooting allowed and a fresh, valid permission of the referee |
| `Mailbox.FireIsOnIff` | src/sentry.cpp:410-444 | over every interleaving a fire command that is sent is on, with a burst of two, exactly when its pass had the shooter's wish, the permission to shoot and a valid, permitting view of the referee at most a second old; else it is off, with none |
| `Mailbox.DeltaIsOfItsPass` | src/sentry.cpp:418-437 | a gimbal command that is sent carries the angles of its pass, and none without control |
| `Mailbox.ChassisStandsStill` | src/sentry.cpp:446-453 | a chassis command that is sent never moves the robot |
| `Mailbox.BatchWithinOne` | src/sentry.cpp:165-173 | what one lock takes out of two slots comes from the same or from consecutive posting frames |
| `Mailbox.NoFrameBetween` | src/sentry.cpp:417-454 | every pass between the two read that the link was down |
| `Mailbox.BatchWithinOnePassIff` | src/sentry.cpp:165-173 | the two passes are at most one apart exactly when no pass between them read that the link was down |
| `Mailbox.BatchMaySpanSkippedPasses` | src/sentry.cpp:417-454 | for every n there is a run in which n such passes lie between them |
| `Mailbox.EnemyColor` | src/referee_runtime.hpp:44-50 | the colour is overridden exactly by a valid view at most a second old that names team 1 or 2, with red or blue |
| `Mailbox.DmWorker.QueueDelta` | src/sentry.cpp:190-194 | the critical section is one step of the protocol |
| `Mailbox.DmWorker.QueueFire` | src/sentry.cpp:196-200 | the same for the fire slot |
| `Mailbox.DmWorker.QueueChassis` | src/sentry.cpp:202-206 | the same for the chassis slot |
| `Mailbox.DmWorker.TakePending` | src/sentry.cpp:165-173 | empties all three slots in one step |
| `Packages.GreedyIsLeast` | ros2_ws/install/_local_setup_util_sh.py:133-148 | choosing the least ready name each time gives the least topological order of all |
| `Packages.LeftoverIsEntangled` | ros2_ws/install/_local_setup_util_sh.py:136-139 | what is left of a stuck graph is its greatest set in which every package depends on and is depended on by another |
| `Packages.CycleHasNoOrder` | ros2_ws/install/_local_setup_util_sh.py:121-148 | a graph with a cycle has no order |
| `Packages.Workspace.ReduceCycleSet` | ros2_ws/install/_local_setup_util_sh.py:151-173 | terminates on every graph and leaves exactly the greatest set whose every member is depended on from within |
| `Packages.Workspace.OrderPackages` | ros2_ws/install/_local_setup_util_sh.py:121-148 | the alphabetically least order with dependencies first, or an error exactly when there is a cycle, naming the entangled packages |
| `YamlText.SixSpaces` | 3rdparty/yaml-cpp/yaml.hpp:43-49 | the six characters that count as white space |
| `YamlText.TrimSplits` | 3rdparty/yaml-cpp/yaml.hpp:43-49 | trimming takes off white space at both ends, and all of it |
| `YamlText.TrimLoop` | 3rdparty/yaml-cpp/yaml.hpp:43-49 | the two loops |
| `YamlText.UnquoteUndoesQuote` | 3rdparty/yaml-cpp/yaml.hpp:51-70 | unquoting undoes quoting with escapes, for every string and either quote |
| `YamlText.UnquoteLoop` | 3rdparty/yaml-cpp/yaml.hpp:51-70 | the loop |
| `YamlText.SplitLoop` | 3rdparty/yaml-cpp/yaml.hpp:82-115 | the scan with quotes and two nesting depths, against its step function |
| `YamlText.StripCutsAtComment` | 3rdparty/yaml-cpp/yaml.hpp:168-187 | the stripped line ends at the first hash that no quote encloses, and nowhere else |
| `YamlText.StripComment` | 3rdparty/yaml-cpp/yaml.hpp:168-187 | the loop returns the part of the line before that hash, or the whole line |
| `Yaml.ParseValueM` | 3rdparty/yaml-cpp/yaml.hpp:150-161 | the recursive value parser |
| `Yaml.ParseFlowMap` | 3rdparty/yaml-cpp/yaml.hpp:119-135 | the loop over the entries of a flow map |
| `Yaml.ParseFlowSeq` | 3rdparty/yaml-cpp/yaml.hpp:137-148 | the loop over the items of a flow sequence |
| `Yaml.ParseBlockM` | 3rdparty/yaml-cpp/yaml.hpp:287-295 | block dispatch, terminating because the lines that remain decrease |
| `Yaml.ParseMapM` | 3rdparty/yaml-cpp/yaml.hpp:258-285 | the loop over block map entries |
| `Yaml.ParseSeqM` | 3rdparty/yaml-cpp/yaml.hpp:195-256 | the loop over block sequence items |
| `Yaml.ReadLines` | 3rdparty/yaml-cpp/yaml.hpp:303-331 | the lines of a text: cleaned, measured, blank ones dropped, tabs refused |
| `Yaml.ParseText` | 3rdparty/yaml-cpp/yaml.hpp:299-342 | the whole parser, errors included |
| `Yaml.LinesAreTight` | 3rdparty/yaml-cpp/yaml.hpp:316-328 | no line is empty or ends in white space |
| `Yaml.DashHasContent` | 3rdparty/yaml-cpp/yaml.hpp:189-206 | a dash that starts an item is followed by something |
| `YamlFlow.SplitUndoesJoin` | 3rdparty/yaml-cpp/yaml.hpp:82-115 | splitting at top level undoes joining with commas, whatever is nested in the parts |
| `YamlFlow.FlowRoundTrip` | 3rdparty/yaml-cpp/yaml.hpp:119-161 | every canonical flow value is read back |
| `YamlFlow.KindOfValue` | 3rdparty/yaml-cpp/yaml.hpp:117-161 | for every text: what is null, a map, a sequence or a scalar, and which scalars are the text itself |
| `YamlFlow.QuotedValue` | 3rdparty/yaml-cpp/yaml.hpp:150-161 | every text at all, quoted and escaped with either quote, is read as itself |
| `YamlFlow.QuotedKeyReadBackIff` | 3rdparty/yaml-cpp/yaml.hpp:267-281 | a quoted key is read as itself exactly when it has no colon |
| `YamlFlow.FlowSeqReadBackIff` | 3rdparty/yaml-cpp/yaml.hpp:137-148 | of flow sequences of canonical items, only that of a single empty item is not read back |
| `YamlFlow.FlowMeaningHoldsEveryEntry` | 3rdparty/yaml-cpp/yaml.hpp:119-135 | with distinct keys the meaning of a flow map holds every entry and nothing else |
| `YamlFlow.ItemsMeaningHoldsEveryItem` | 3rdparty/yaml-cpp/yaml.hpp:137-148 | that of a flow sequence holds the items in order |
| `YamlRoundTrip.BlockRoundTrip` | 3rdparty/yaml-cpp/yaml.hpp:258-285 | every canonical block map is read back at any depth, with whatever follows left over |
| `YamlRoundTrip.ElementRoundTrip` | 3rdparty/yaml-cpp/yaml.hpp:203-253 | every canonical item is read back: a value behind a dash, or a map whose first entry stands behind the dash and whose others follow two deeper |
| `YamlRoundTrip.SeqRoundTrip` | 3rdparty/yaml-cpp/yaml.hpp:195-256 | so is every canonical block sequence |
| `YamlRoundTrip.BodyRoundTrip` | 3rdparty/yaml-cpp/yaml.hpp:287-295 | and every block of either kind, nested at will |
| `YamlRoundTrip.SingleReadBackIff` | 3rdparty/yaml-cpp/yaml.hpp:203-253 | a value behind a dash is read back exactly when it has no colon |
| `YamlGroups.GroupReadBackIff` | 3rdparty/yaml-cpp/yaml.hpp:213-251 | a map behind a dash is read back exactly when it has one entry, or its first entry has a value on its line or a sequence below, or the others only repeat a key that is there |
| `YamlGroups.DistinctGroupReadBackIff` | 3rdparty/yaml-cpp/yaml.hpp:213-251 | with distinct keys, exactly in the first two cases |
| `YamlGroups.EmptyFirstTakesTheRest` | 3rdparty/yaml-cpp/yaml.hpp:220-247 | of an item whose first key has no value the parser returns the other entries as the value of that key |
| `YamlGroups.NestedFirstTakesTheRest` | 3rdparty/yaml-cpp/yaml.hpp:220-247 | of one whose first key has a map below it, as further entries of that map |
| `YamlGroups.NestedReadBackIff` | 3rdparty/yaml-cpp/yaml.hpp:276-282 | a key with a block below it is read back exactly when the block is not empty |
| `YamlGroups.QuotedLeaf` | 3rdparty/yaml-cpp/yaml.hpp:267-282 | the quoted value of a key is read back for every text |
| `YamlRoundTrip.ParseUndoesRender` | 3rdparty/yaml-cpp/yaml.hpp:299-342 | parsing a rendered document of maps, sequences, plain tokens and quoted text gives its meaning and leaves no line over |
| `YamlDecorated.DecorationIsIgnored` | 3rdparty/yaml-cpp/yaml.hpp:303-331 | so does parsing it with blanks, comments and carriage returns at the ends of lines and with lines of nothing else |
| `YamlDecorated.MarkIsIgnored` | 3rdparty/yaml-cpp/yaml.hpp:309-315 | and with a byte order mark in front |
| `YamlDecorated.TabIsRefused` | 3rdparty/yaml-cpp/yaml.hpp:320-324 | a tab in front of text, on whatever line, is an error |
| `YamlRoundTrip.MeaningHoldsEveryEntry` | 3rdparty/yaml-cpp/yaml.hpp:279-282 | with distinct keys that meaning holds every entry and nothing else |
| `YamlRoundTrip.ElementNodesHoldEveryElement` | 3rdparty/yaml-cpp/yaml.hpp:249-253 | and that of a sequence holds the items in order |
| `YamlItems.BlockTail` | 3rdparty/yaml-cpp/yaml.hpp:287-295 | for all lines: what the parser leaves is the end of what it was given |
| `YamlItems.KindOfBlock` | 3rdparty/yaml-cpp/yaml.hpp:287-295 | for all lines: which blocks are sequences and which are maps |
| `YamlItems.SeqHasNoNull` | 3rdparty/yaml-cpp/yaml.hpp:195-256 | no block sequence at any depth has a null item |
| `YamlItems.NoNullItem` | 3rdparty/yaml-cpp/yaml.hpp:195-256 | for every text: a document that is a block sequence has no null item |
| `YamlItems.BareDashLine` | 3rdparty/yaml-cpp/yaml.hpp:317-328 | a dash with blanks behind it becomes a bare dash |
| `YamlItems.BareDashFails` | 3rdparty/yaml-cpp/yaml.hpp:268-272 | where a block begins a bare dash is an error |
| `YamlItems.BareDashFailsInMap` | 3rdparty/yaml-cpp/yaml.hpp:268-272 | after entries of a map it is an error too |
| `YamlItems.BareDashEndsSequence` | 3rdparty/yaml-cpp/yaml.hpp:195-201 | after items it ends their sequence, and all that follows is left unread |
| `Tracker.ArrangedPrefers` | tasks/auto_aim/tracker.cpp:60-70 | the two stable sorts order the same armours by priority and then by distance |
| `TrackedPlates.NewTargetStandsOnTheArmour` | tasks/auto_aim/target.cpp:10-50 | plate 0 of a new target is the measured armour, then and after every prediction |
| `TrackedPlates.KindOfNewTarget` | tasks/auto_aim/tracker.cpp:240-273 | the kind of the armour gives the number of plates and the radius |
| `TrackedPlates.StartIsCovariance` | tasks/auto_aim/tracker.cpp:253-269 | a new target starts with a covariance, in which the second radius and height of an outpost or a base, and nothing else, are certain |
| `TrackedPlates.FoundIff` | tasks/auto_aim/tracker.cpp:240-302 | a frame is found exactly when it shows an armour of the enemy that is looked for |
| `TrackedPlates.AbsorbsItsOwn` | tasks/auto_aim/tracker.cpp:275-302 | a frame counts each armour of the target's name and type, keeps the estimate of the last and records every test in order |
| `TrackedPlates.MissedTargetCoasts` | tasks/auto_aim/tracker.cpp:275-288 | through any number of timely misses a target is where one prediction from the last sight puts it |
| `TrackedPlates.GapBeginsAgain` | tasks/auto_aim/tracker.cpp:44-49 | after a gap of more than 0.1 s both overloads begin again |
| `TrackedPlates.SwitchIsHandedOutIff` | tasks/auto_aim/tracker.cpp:110-158 | a switch is asked for exactly when the target has converged, nothing in sight is better and the first armour of the first report is |
| `Tracker.TrackingNeedsDetections` | tasks/auto_aim/tracker.cpp:189-206 | in every run "tracking" is entered from a temporary loss or after exactly max(2, min_detect_count) consecutive finds from "lost" |
| `TrackerOmni.OmniTrackingNeedsDetections` | tasks/auto_aim/tracker.cpp:106-206 | in every run of the second overload "tracking" is entered from a temporary loss, right after a switch, or after exactly max(2, min_detect_count) consecutive finds from "lost" |
| `TrackerOmni.OneFrameAfterSwitch` | tasks/auto_aim/tracker.cpp:164-222 | after a switch one timely frame decides between "tracking" and "lost", by whether it shows any armour |
| `Tracker.MissesLeadToLost` | tasks/auto_aim/tracker.cpp:208-237 | max(2, limit + 1) consecutive misses from "tracking" reach "lost", with the limit of outposts or of the rest |
| `Tracker.MissesTolerated` | tasks/auto_aim/tracker.cpp:208-237 | fewer do not, unless a frame gives the target up by itself |
| `Tracker.PriorityNeverWorsens` | tasks/auto_aim/tracker.cpp:136-170 | while "tracking" or "temp_lost" lasts, the target is only traded for a better one |
| `Tracker.NothingBetterInSight` | tasks/auto_aim/tracker.cpp:136-170 | after a frame begun in "tracking" and not lost, no visible armour has a better priority |
| `Tracker.SwitchingIsBounded` | tasks/auto_aim/tracker.cpp:215-222 | "switching" survives at most 200 frames without a match |
| `Tracker.SwitchingLastsIff` | tasks/auto_aim/tracker.cpp:215-222 | n timely frames without a match leave the state "switching" exactly when the counter plus n does not pass 200 |
| `TrackerRuns.SwitchingMayBeEnteredAt` | tasks/auto_aim/tracker.cpp:149-158 | for every configuration and every m up to 200 there is a run from a fresh tracker that enters "switching" with the counter at m |
| `Tracker.Tracker.RunStateMachine` | tasks/auto_aim/tracker.cpp:189-238 | the five-state machine |
| `Tracker.Tracker.StartTarget` | tasks/auto_aim/tracker.cpp:240-273 | the first armour becomes the target, with the parameters of its kind |
| `Tracker.Tracker.ContinueTarget` | tasks/auto_aim/tracker.cpp:275-302 | predicts, then absorbs every matching armour in order |
| `Tracker.Tracker.Track` | tasks/auto_aim/tracker.cpp:37-104 | a target is returned exactly when the state is not "lost", and it has neither diverged nor forty failures in its window |
| `Tracker.Tracker.TrackOmni` | tasks/auto_aim/tracker.cpp:106-187 | the same for the second overload, with the target it asks to switch to |
| `Aimer.SomeVisibleIff` | tasks/auto_aim/aimer.cpp:155-169 | some plate of a ring is visible exactly when the ring is aligned well enough |
| `Aimer.FourPlatesShowOneOrTwo` | tasks/auto_aim/aimer.cpp:155-169 | of four plates one or two are visible, at any angle and centre |
| `Aimer.FourPlatesAlwaysAimed` | tasks/auto_aim/aimer.cpp:163-190 | so the choice is valid and visible whatever the lock |
| `Aimer.AimFailsIff` | tasks/auto_aim/aimer.cpp:163-190 | for any number of plates the choice fails exactly when the ring is misaligned |
| `Aimer.ThreePlatesCanMiss` | tasks/auto_aim/aimer.cpp:170-174 | a three-plate target for which it fails |
| `Aimer.OnlyOneIsChosen` | tasks/auto_aim/aimer.cpp:187-189 | the only visible plate is chosen, and the lock given up |
| `Aimer.NearerIsChosen` | tasks/auto_aim/aimer.cpp:176-185 | without a lock on either, the nearer of the first two visible plates is chosen and locked |
| `Aimer.FourPlatesNearest` | tasks/auto_aim/aimer.cpp:163-190 | so the plate of a four-plate target chosen without a lock is the nearest of all |
| `Aimer.ComingIff` | tasks/auto_aim/aimer.cpp:202-206 | which plates of a spinning target are coming into view, for either direction |
| `Aimer.ComingUntilItLeaves` | tasks/auto_aim/aimer.cpp:202-206 | a plate that is coming into view stays so, as the target turns on, exactly until it passes one of the two limits |
| `Aimer.LockIsStable` | tasks/auto_aim/aimer.cpp:176-185 | while the chosen plate stays one of two visible ones, it stays chosen |
| `Aimer.SamePairSameChoice` | tasks/auto_aim/aimer.cpp:176-185 | in particular while the same two plates stay visible |
| `Aimer.Aimer.ChooseAimPoint` | tasks/auto_aim/aimer.cpp:144-209 | which plate is chosen in each of the four situations, and the lock that is left |
| `TrackedAim.SpinningBranchIsDead` | tasks/auto_aim/aimer.cpp:163 | in every run of the tracker, every returned target, however predicted, has a radius within 2, so it counts as calm or is an outpost |
| `TrackedAim.SpinningBranchIsDeadInOmni` | tasks/auto_aim/aimer.cpp:163 | the same of the second overload |
| `Trajectory.UnsolvableIffUnhittable` | tools/trajectory.cpp:9-19 | unsolvable exactly when no launch direction at all hits the point |
| `Trajectory.SolutionHits` | tools/trajectory.cpp:21-30 | the returned pitch hits it, at the returned time |
| `Trajectory.SolutionIsLowestAndSoonest` | tools/trajectory.cpp:21-30 | of all directions that hit, it is the lowest and the soonest |

## Left out

- Cameras, serial driver, ROS 2, WebSocket server, Foxglove and plotting: input and output over other libraries.
- Detection networks, contour detection, pose solving and reprojection: opaque library calls; what they find is an arbitrary input.
- Floating-point rounding and the narrowing of integers: arithmetic is exact.
- The existence of a fixed point of the ADMM loop, and the limit of the Riccati recursion: both are taken as given where they are named.
- Adaptive rho and the cone and linear-constraint slacks of TinyMPC: off by default.
- The spherical coordinates of a plate and their Jacobian: inputs of `Target.Target.Update`, one model for each plate.
- The named diagnostics of the filter other than the failure rate: written and never read by the filter.
- The flight-time iteration and the yaw offsets of the aimer: at most ten calls of the choice and of the ballistic solver, which are modelled.
- The referee query timer and the link's own protocol in the communication thread: they touch none of the three slots.
- Setters of single header bits: one bit operation each.
- Quoted keys, and quotes inside text in the same quotes, in rendered documents: `QuotedKeyReadBackIff`, `QuotedValue` and `QuotedLeaf` are about them.
- Target.Target.Update: requires at least three plates, because the source reads three whatever their number.
- Admm.TinySolver.Solve: requires a non-zero check_termination, by which the source divides.
- AdmmAccuracy.SolvedIsNearlyOptimal: requires two iterations or a current workspace, because the property fails otherwise; `SolvedAtOnce` and `FreshIsNearlyOptimalIff` are about that case.
- Crc.CheckCrc16: requires the two trailer bytes, which the source reads without a check.
- Crc.CheckCrc8: requires the trailer byte, which the source reads without a check.
- OrderedQueue.OrderedQueue.Dequeue: begins after the wait, with a queue that is not empty.
- ThreadPool.Shared.Take: begins after the wait, when its condition holds.
- The second copy of the package ordering for PowerShell: the same code.
