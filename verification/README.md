# OMR verification

A Dafny model, with proofs, of the parts of the OMR mobile manipulator whose correctness rests on state,
order or algebra. Check it with `dafny verify dfyconfig.toml`.

| part | modules |
|---|---|
| LiDAR-inertial odometry: pairing scans with inertial samples, start-up averaging, time splitting and undistortion, the error-state Kalman filter, the sliding local map | `Reals`, `Sensors`, `LidarImuSync`, `ImuStatistics`, `ImuProcess`, `MotionCompensation`, `LioPipeline`, `Matrices`, `Information`, `Kalman`, `MotionModel`, `Esekf`, `BestEstimate`, `UpdateWrites`, `LocalMap` |
| Point cloud preprocessing: the plane test, the surface scan, thinning, times rebuilt from yaw | `PlaneJudge`, `GapEvenness`, `SurfaceScan`, `Thinning`, `YawTime` |
| The gripper's Modbus RTU codec | `Wrappers`, `CrcRegister`, `ModbusCrc`, `ByteCut`, `ModbusFrames`, `Gripper` |
| Rotations, hand-eye calibration and the door frames | `Rotations`, `RollPitchYaw`, `RigidMotions`, `HandEye`, `DoorMath` |
| The door trajectory action | `DoorWaypoints`, `DoorTrajectory` |

How the model is laid out:

- What the program changes in place is a class whose methods change fields, or a method over an array. Each such
  method is tied by its `ensures` to a function of the old state, and the properties of whole runs are lemmas about
  that function.
- Doubles are reals. An angle is the pair of its cosine and sine; `atan2` and `asin` are relations to such pairs.
- Matrices of the filter have any size; only the motion model and the whole-run theorem fix it to 24.
- Measurements, the world's answers to a tick, SO(3) exponentials, the conversion from degrees and the times of
  callbacks are parameters, so the theorems hold for all of them.

Results that say the program does not do what one would expect:

- A backwards scan stamp clears the scans but not their stamps, and from then on the queues never line up again
  (`LidarImuSync.BuffersAlignedIff`, `LidarImuSync.DriftIsForGood`).
- The first point of a cloud is compensated once for every pose before it (`ImuProcess.FirstPointAgreesIff`).
- The filter can move its state and leave its covariance as it was, exactly when its last pass finds no points and an
  earlier one does (`UpdateWrites.StateCanMoveAloneIff`).
- The default cube of 200 and range of 300 cannot keep the map's margin (`LocalMap.MarginKeptIff`).
- In gimbal lock the angles give back the matrix only at the poles, and at one of them only without roll
  (`RollPitchYaw.RotationRoundTripIff`).
- Without a trigger the C++ gripper move clears the trigger register and the Python one does not
  (`Gripper.TempMoveAgreesIff`).
- The comments of the door model disagree with its code: the closed form of the translation
  (`DoorMath.CommentIsWrongSomewhere`), the signs of the third axis (`DoorMath.CommentedZAxisIsRightIff`), and the
  height h, which is that of the centre of the upright segment and not of its bottom end
  (`DoorMath.UpperEndIsOnDoor`). The model follows the code.
- The door panel in the planning scene never follows the door, and a finished run leaves it there
  (`DoorTrajectory.SceneOfRun`, `DoorTrajectory.SuccessLeavesDoor`).

## Model

| member | source | states |
|---|---|---|
| `Information.GramUpdate` | src/omr_lio/include/omr_lio/esekfom.hpp:252-255 | adding any nonnegative weighted sum of row products to an invertible covariance gives an invertible covariance whose inverse is no larger in any direction; proved one row at a time through the rank-one inverse |
| `Information.WeightedGramAct` | src/omr_lio/include/omr_lio/esekfom.hpp:252-255 | the row-by-row sum acts as the transpose times weights times the matrix |
| `Kalman.SparseGainIsFull` | src/omr_lio/include/omr_lio/esekfom.hpp:251-260 | the gain built from the first columns only, in its zero-padded blocks, gives the same K H as the full-width product |
| `Kalman.FrontIsGram` | src/omr_lio/include/omr_lio/esekfom.hpp:252-255 | HᵀH/R in the corner of a zero matrix is a nonnegative sum over the measurement rows |
| `Kalman.InformationInvertible` | src/omr_lio/include/omr_lio/esekfom.hpp:255 | for R > 0 and an invertible covariance P of any size, HᵀH/R + P⁻¹ can always be inverted |
| `Kalman.UpdateKeepsCovariance` | src/omr_lio/include/omr_lio/esekfom.hpp:249-284 | the matrix written back as (I − KH)P is the inverse of HᵀH/R + P⁻¹, again symmetric, positive semidefinite and invertible, and no larger than P |
| `Kalman.PredictKeepsCovariance` | src/omr_lio/include/omr_lio/esekfom.hpp:69-81 | for matrices of any size, any Jacobians and any step, prediction keeps P symmetric and positive semidefinite when Q is |
| `Kalman.PredictKeepsInvertible` | src/omr_lio/include/omr_lio/esekfom.hpp:69-81 | with an invertible transition and a nonnegative diagonal noise the predicted P is also invertible |
| `Kalman.PropagateForm` | src/omr_lio/include/omr_lio/esekfom.hpp:69-81 | between any two directions x and y the propagated covariance is P between x + dt Fxᵀx and y + dt Fxᵀy plus Q between dt Fwᵀx and dt Fwᵀy, which fixes every entry |
| `Kalman.PropagateQuad` | src/omr_lio/include/omr_lio/esekfom.hpp:76-80 | the variance in any direction x after prediction is that of P in x + dt Fxᵀx plus that of Q in dt Fwᵀx |
| `Kalman.GradedInvertible` | src/omr_lio/include/omr_lio/use-ikfom.hpp:67-79 | I + A is invertible for every A whose entries only lead down a chain of four levels |
| `Kalman.NoiseIsGram` | src/omr_lio/include/omr_lio/esekfom.hpp:79-80 | the noise term (dt Fw) Q (dt Fw)ᵀ of a diagonal Q is a nonnegative sum of row products |
| `Matrices.CongruenceCovariance` | src/omr_lio/include/omr_lio/esekfom.hpp:79 | F P Fᵀ is a covariance whenever P is |
| `Matrices.InverseCovariance` | src/omr_lio/include/omr_lio/esekfom.hpp:255 | the inverse of a covariance is a covariance |
| `Esekf.TransitionInvertible` | src/omr_lio/include/omr_lio/use-ikfom.hpp:67-79 | I + dt df/dx is invertible for every attitude, acceleration and step |
| `MotionModel.ErrorJacobian` | src/omr_lio/include/omr_lio/use-ikfom.hpp:48-79 | for every error of the state, df/dx times the error is exactly the change of get_f under the errors in velocity, biases and gravity, plus the turn of the acceleration by the attitude error |
| `MotionModel.NoiseJacobian` | src/omr_lio/include/omr_lio/use-ikfom.hpp:82-90 | for every noise, df/dw times the noise is exactly the change of get_f when the measurement is cleared of it, plus the walk of the two biases |
| `Esekf.DiagSound` | src/omr_lio/include/omr_lio/IMU_Processing.hpp:165-171 | the positive diagonal assigned at start-up is an invertible covariance |
| `Esekf.StartVariances` | src/omr_lio/include/omr_lio/IMU_Processing.hpp:165-171 | how the start covariance acts on every vector: 1 for position, rotation and velocity, 0.00001 for the offsets and gravity, 0.0001 and 0.001 for the biases, nothing coupled |
| `Esekf.UpdateIsSafe` | src/omr_lio/include/omr_lio/esekfom.hpp:220-288 | whatever the measurements and iteration limit, the update writes P at most once and leaves an invertible covariance no larger than before; unwritten P is unchanged |
| `Esekf.FoundPass` | src/omr_lio/include/omr_lio/esekfom.hpp:236-286 | what a pass with points leads to: the corrected state, and the written covariance or the next pass with its count and search flag |
| `Esekf.FreshSearchIff` | src/omr_lio/include/omr_lio/esekfom.hpp:264-280 | a fresh neighbour search follows a pass if and only if no entry of its correction exceeds 0.001, or it is the one before the last and no pass has converged |
| `Esekf.LastPassSearchesAfresh` | src/omr_lio/include/omr_lio/esekfom.hpp:264-286 | when some entry of every correction so far exceeded 0.001, the last pass measures on a fresh search, and state and covariance are those of that measurement |
| `Esekf.LastPassWrites` | src/omr_lio/include/omr_lio/esekfom.hpp:236-286 | if the last pass finds points, P is written exactly once, within the iteration limit |
| `Esekf.EmptyPassesChangeNothing` | src/omr_lio/include/omr_lio/esekfom.hpp:236-244 | passes without points change neither state nor covariance |
| `Esekf.StateMovesCovarianceStays` | src/omr_lio/include/omr_lio/esekfom.hpp:236-286 | for any filter with points in the first pass and in none after it, the state becomes the first correction applied and P is not written |
| `UpdateWrites.WriteIsGuaranteedIff` | src/omr_lio/include/omr_lio/esekfom.hpp:236-286 | for every pattern of passes with points: every filter from every sound start writes its covariance exactly once if and only if the last pass finds points |
| `UpdateWrites.StateCanMoveAloneIff` | src/omr_lio/include/omr_lio/esekfom.hpp:236-286 | some filter moves its state and leaves its covariance unwritten if and only if the last pass finds no points and an earlier one does |
| `UpdateWrites.StateMovesAloneExample` | src/omr_lio/include/omr_lio/esekfom.hpp:236-286 | a filter of one number, at most four iterations, points in the first pass only: the state goes from 0 to 1 and the variance stays 1 |
| `Esekf.LinearCorrection` | src/omr_lio/include/omr_lio/esekfom.hpp:247-264 | for a linear residual on the vector state a pass lands on x₀ + K h₀ whatever iterate it starts from |
| `Esekf.LinearUpdateConverges` | src/omr_lio/include/omr_lio/esekfom.hpp:234-287 | for a linear residual the update ends at x₀ + K h₀, writes P exactly once as (I − KH)P, and runs one, two or three passes, with the exact condition for each |
| `Esekf.LandedPass` | src/omr_lio/include/omr_lio/esekfom.hpp:236-286 | a pass started at the landing point stays there and counts as converged |
| `BestEstimate.CorrectionIsBest` | src/omr_lio/include/omr_lio/esekfom.hpp:247-262 | whatever the iterate, the correction of a pass is the one and only minimiser of |h − H dx|²/R plus the P⁻¹-distance of the result from the predicted state |
| `BestEstimate.CostAwayFromCorrection` | src/omr_lio/include/omr_lio/esekfom.hpp:251-262 | any other correction costs exactly the HᵀH/R + P⁻¹ form of the difference more |
| `BestEstimate.CorrectionBalances` | src/omr_lio/include/omr_lio/esekfom.hpp:251-262 | at the correction P⁻¹ (dx + x ⊟ x₀) equals Hᵀ(h − H dx)/R |
| `BestEstimate.GainSolves` | src/omr_lio/include/omr_lio/esekfom.hpp:255-257 | the gain built from the corner block solves the normal equations: (HᵀH/R + P⁻¹) K z is Hᵀz/R padded with zeros |
| `BestEstimate.InformationQuad` | src/omr_lio/include/omr_lio/esekfom.hpp:252-255 | the inverted matrix weighs x as |H x|²/R plus the P⁻¹ form of x, only the first columns being measured |
| `Esekf.PredictStepVariance` | src/omr_lio/include/omr_lio/esekfom.hpp:69-81 | in the 24-dimensional filter a prediction carries every direction back through the motion model of the state before it, and adds the noise seen through the second Jacobian |
| `Esekf.RunKeepsSound` | src/omr_lio/include/omr_lio/esekfom.hpp:69-288 | over every run of predictions, updates and start-up resets of the 24-dimensional filter, P stays symmetric, positive semidefinite and invertible |
| `Esekf.Filterer.constructor` | src/omr_lio/include/omr_lio/esekfom.hpp:290-292 | the filter starts with the identity, which is an invertible covariance |
| `Esekf.Filterer.Predict` | src/omr_lio/include/omr_lio/esekfom.hpp:69-81 | the object moves its state by dt f and its covariance becomes the propagated one, whose every entry Kalman.PropagateForm gives |
| `Esekf.Filterer.Update` | src/omr_lio/include/omr_lio/esekfom.hpp:220-288 | the loop over the object’s fields ends in the state and covariance of the recursive form, no larger than before |
| `LidarImuSync.LioNode.LidarCallback` | src/omr_lio/src/lio_node.cpp:448-464 | queues a scan and its stamp; a stamp that goes back first clears the scans but not their stamps |
| `LidarImuSync.LioNode.ImuCallback` | src/omr_lio/src/lio_node.cpp:481-499 | queues a sample; a stamp that goes back first clears the queue |
| `LidarImuSync.LioNode.PushScan` | src/omr_lio/src/lio_node.cpp:611-632 | fixes the end of the front scan by its last point or by the mean scan time, and updates count and mean |
| `LidarImuSync.LioNode.CollectImu` | src/omr_lio/src/lio_node.cpp:638-646 | the collecting loop splits the buffer as the recursive form does |
| `LidarImuSync.LioNode.SyncPackages` | src/omr_lio/src/lio_node.cpp:606-652 | one call waits or emits, with the whole new state |
| `LidarImuSync.DrainSplits` | src/omr_lio/src/lio_node.cpp:638-646 | from an ordered buffer the loop takes everything before the scan’s end and at most one sample on it, and leaves nothing earlier than the end |
| `LidarImuSync.SampleOnEnd` | src/omr_lio/src/lio_node.cpp:638-646 | a loop that starts before the end leaves a sample on the end behind only after taking one |
| `LidarImuSync.SyncEmitsIff` | src/omr_lio/src/lio_node.cpp:606-636 | on any state one call hands out a group if and only if a scan and a sample wait and the newest sample has reached the scan’s end, which is fixed first if it is not yet |
| `LidarImuSync.ForwardRunEmitsIff` | src/omr_lio/src/lio_node.cpp:606-652 | in every interleaving without stamp regressions a call hands out the next scan received if and only if it and a sample not yet handed out have been received and the newest sample is no earlier than the scan’s end; in every other case nothing |
| `LidarImuSync.EndIsLastPoint` | src/omr_lio/src/lio_node.cpp:615-632 | a scan ends at its start plus a thousandth of its last point’s offset if it has at least six points and that is at least half the mean, and otherwise at its start plus the mean |
| `LidarImuSync.MeanIsOfLastPoints` | src/omr_lio/src/lio_node.cpp:615-632 | the mean is taken of exactly those offsets, in seconds |
| `LidarImuSync.StampsAreNewest` | src/omr_lio/src/lio_node.cpp:448-499 | in every run, going back or not, the stamp an arrival is compared with is that of the arrival before it |
| `LidarImuSync.BufferIsAlwaysOrdered` | src/omr_lio/src/lio_node.cpp:481-499 | in every run, going back or not, the waiting samples are in order and none is newer than the newest received |
| `LidarImuSync.BuffersDriftByCleared` | src/omr_lio/src/lio_node.cpp:448-464 | in every run, stamps going back or not, the stamp queue is longer than the scan queue by exactly the scans thrown away |
| `LidarImuSync.BuffersAlignedIff` | src/omr_lio/src/lio_node.cpp:448-464 | after every run the two queues have the same length if and only if no scan stamp went back while scans were waiting |
| `LidarImuSync.DriftIsForGood` | src/omr_lio/src/lio_node.cpp:448-652 | the difference of the lengths never shrinks again, whatever follows |
| `LidarImuSync.DriftExample` | src/omr_lio/src/lio_node.cpp:453-462 | two scans stamped 1.0 and 0.5: the second waits under the stamp of the first |
| `LidarImuSync.ForwardRunDelivers` | src/omr_lio/src/lio_node.cpp:448-652 | in every interleaving without stamp regressions, the groups emitted followed by the buffer are exactly the samples received, likewise the scans; each group is no later than its end and the rest no earlier |
| `LidarImuSync.ForwardRunKeepsMean` | src/omr_lio/src/lio_node.cpp:611-636 | however often a call waits, the mean scan time is the exact mean of the counted scans, each counted once, and each group ends where that mean says |
| `LidarImuSync.TakeScanMean` | src/omr_lio/src/lio_node.cpp:611-632 | fixing the end of one more scan updates count, mean and end as the reference says |
| `LidarImuSync.EmitDelivers` | src/omr_lio/src/lio_node.cpp:638-651 | emitting one group moves its scan and samples from the queues to the output and loses none |
| `ImuStatistics.MeanIsExact` | src/omr_lio/include/omr_lio/IMU_Processing.hpp:138-154 | the running mean of one axis is the exact mean of its samples |
| `ImuStatistics.SpreadGrows` | src/omr_lio/include/omr_lio/IMU_Processing.hpp:138-154 | one more sample x raises the sum of squares about the mean by n/(n−1) (x − new mean)² |
| `ImuStatistics.CovarianceBounds` | src/omr_lio/include/omr_lio/IMU_Processing.hpp:148-151 | the recorded acceleration covariance is between 1/2 and 1 times the population variance, the gyro covariance between 1/4 and 1 times |
| `ImuStatistics.CovarianceIsExact` | src/omr_lio/include/omr_lio/IMU_Processing.hpp:148-151 | n times the recorded covariance is exactly the sum of the squared distances to the running means, each reduced by (k − 1)/k for the gyro |
| `ImuProcess.StartUpStatistics` | src/omr_lio/include/omr_lio/IMU_Processing.hpp:126-154 | exact means, exact covariances and their bounds on every axis of the vectors, over any number of samples |
| `ImuProcess.ImuProcessor.constructor` | src/omr_lio/include/omr_lio/IMU_Processing.hpp:77-90 | the object starts uninitialised, with no sample averaged and an arbitrary last scan end |
| `ImuProcess.ImuProcessor.ImuInit` | src/omr_lio/include/omr_lio/IMU_Processing.hpp:120-173 | over any number of calls the statistics held are those of all samples since the first frame |
| `ImuProcess.ImuProcessor.Propagate` | src/omr_lio/include/omr_lio/IMU_Processing.hpp:179-271 | the forward loop produces exactly the specified steps and pose offsets and moves the clock to this scan’s end |
| `ImuProcess.ImuProcessor.ProcessGroup` | src/omr_lio/include/omr_lio/IMU_Processing.hpp:319-357 | a scan without samples is ignored, a start-up scan is averaged, a later one is split into steps |
| `ImuProcess.PredictStepsTotal` | src/omr_lio/include/omr_lio/IMU_Processing.hpp:204-267 | with ordered samples no later than the scan’s end every step is nonnegative, so the absolute value changes no sign, and their sum is known |
| `ImuProcess.ScanTimeConserved` | src/omr_lio/include/omr_lio/IMU_Processing.hpp:204-271 | when the carried sample is no later than the last scan’s end and no new one is earlier, the steps sum to exactly this end minus the last |
| `ImuProcess.PosesAreSamples` | src/omr_lio/include/omr_lio/IMU_Processing.hpp:210-264 | one pose for every sample from the previous scan’s end on, at the sample’s own time |
| `ImuProcess.PosesFollowSteps` | src/omr_lio/include/omr_lio/IMU_Processing.hpp:210-264 | the filter reaches the time of each pose with the step recorded beside it: start plus the sum of the steps so far |
| `ImuProcess.WalkBack` | src/omr_lio/include/omr_lio/IMU_Processing.hpp:273-316 | the backwards two-pointer walk compensates every point of index at least 1 exactly as a per-point search for the latest head before it would, leaving the others untouched; the first point once per head before it |
| `ImuProcess.WalkHead` | src/omr_lio/include/omr_lio/IMU_Processing.hpp:291-315 | one head’s stretch of the walk keeps the state of the walk |
| `ImuProcess.FirstPointAgreesIff` | src/omr_lio/include/omr_lio/IMU_Processing.hpp:291-315 | the first point agrees with the search, for every compensation, if and only if at most one head lies before it |
| `ImuProcess.FirstPointExample` | src/omr_lio/include/omr_lio/IMU_Processing.hpp:291-315 | poses every ten milliseconds and a first point at fifteen: it is moved twice |
| `MotionCompensation.CompensateKeepsWorld` | src/omr_lio/include/omr_lio/IMU_Processing.hpp:282-308 | the compensated point, seen from the pose at the scan’s end, is where the measured point was at its own time |
| `MotionCompensation.CompensateIsUnique` | src/omr_lio/include/omr_lio/IMU_Processing.hpp:282-308 | no other point has that property |
| `MotionCompensation.UndistortedKeepsWorld` | src/omr_lio/include/omr_lio/IMU_Processing.hpp:276-314 | every point the per-point search compensates keeps the world position it had under the latest pose before its time |
| `MotionCompensation.AtPosition` | src/omr_lio/include/omr_lio/IMU_Processing.hpp:301-302 | between two poses the place moves by dt times the mean of first and last velocity under constant acceleration |
| `MotionCompensation.AtAttitude` | src/omr_lio/include/omr_lio/IMU_Processing.hpp:296-298 | and the attitude is the head’s after a turn by the rate times dt |
| `MotionCompensation.AtStart` | src/omr_lio/include/omr_lio/IMU_Processing.hpp:294-302 | after no time the pose is the head’s |
| `MotionCompensation.StoredPlace` | src/omr_lio/include/omr_lio/IMU_Processing.hpp:282-314 | where every compensated point lies in the world, written out: turned by the rate times its time since the latest pose, and moved from that pose with constant acceleration |
| `MotionCompensation.StoredPlaceCoasting` | src/omr_lio/include/omr_lio/IMU_Processing.hpp:282-314 | without turn or acceleration it lies where the head saw it, moved by velocity times time |
| `MotionCompensation.UndistortPcl` | src/omr_lio/include/omr_lio/IMU_Processing.hpp:179-316 | forward pass and backwards walk together: every stored point of index at least 1 keeps its world position, or is untouched if no pose lies before it, and the steps and the clock are those of the forward pass |
| `LioPipeline.RunConservesTime` | src/omr_lio/src/lio_node.cpp:503-527 | over every run without stamp regressions, pairing and filter together: from the second undistorted scan on the steps are nonnegative and sum to this scan’s end minus the previous one’s |
| `LioPipeline.TimeTelescopes` | src/omr_lio/src/lio_node.cpp:503-527 | the filter’s whole time between two undistorted scans is the difference of their ends |
| `LioPipeline.ClockSeesAllButFirst` | src/omr_lio/src/lio_node.cpp:507-527 | in every run the clock has processed every group handed out but the first, once and in order |
| `LioPipeline.StartUpEndsIff` | src/omr_lio/include/omr_lio/IMU_Processing.hpp:331-352 | in every run the start-up phase is over if and only if the groups after the first have brought ten samples or more |
| `LioPipeline.Loop.Spin` | src/omr_lio/src/lio_node.cpp:507-527 | one turn of the main loop: synchronise, drop the first scan, otherwise process |
| `LocalMap.Mapper.SegmentFov` | src/omr_lio/src/lio_node.cpp:680-729 | one call centres the cube first, and afterwards slides it and records the deleted boxes |
| `LocalMap.AnyCrossed` | src/omr_lio/src/lio_node.cpp:694-703 | whether any face is within 1.5 detection ranges |
| `LocalMap.SlideCube` | src/omr_lio/src/lio_node.cpp:705-723 | the loop over the axes gives the slid cube and the slabs to delete |
| `LocalMap.MarginRestored` | src/omr_lio/src/lio_node.cpp:694-723 | one call brings the LiDAR back to at least 1.5 detection ranges inside every face and keeps the side |
| `LocalMap.AxisMoves` | src/omr_lio/src/lio_node.cpp:694-722 | one call moves both ends of an axis by the larger of 0.45 (side − 3 ranges) and half a range, away from the face within 1.5 ranges, and not at all if there is none |
| `LocalMap.MoveExample` | src/omr_lio/src/lio_node.cpp:707-713 | side 1000, range 100, LiDAR 150 from a face: the cube moves by 315 |
| `LocalMap.FirstCallCentres` | src/omr_lio/src/lio_node.cpp:685-692 | the first call puts the LiDAR in the middle of a cube of the configured side and deletes nothing |
| `LocalMap.DeletedIsFar` | src/omr_lio/src/lio_node.cpp:709-728 | no point of a deleted box is nearer than 1.5 detection ranges, by largest axis |
| `LocalMap.OldCubeIsCovered` | src/omr_lio/src/lio_node.cpp:709-723 | the new cube and the deleted boxes together cover the old cube |
| `LocalMap.DeletedOutsideNewCube` | src/omr_lio/src/lio_node.cpp:709-723 | deleted boxes do not reach inside the new cube |
| `LocalMap.RunKeepsMargin` | src/omr_lio/src/lio_node.cpp:680-729 | with a cube of at least 3.5 ranges and moves of at most half a range per axis, after every call of every run the margin holds and the cube keeps its side |
| `LocalMap.RunDeletesOnlyFar` | src/omr_lio/src/lio_node.cpp:680-729 | no call of such a run deletes a point nearer than the margin |
| `LocalMap.SmallCubeLosesMargin` | src/omr_lio/src/lio_node.cpp:249-250 | a cube shorter than 3.5 ranges, as the defaults are, loses the margin within two calls |
| `LocalMap.MarginKeptIff` | src/omr_lio/src/lio_node.cpp:680-729 | the margin is kept on every gentle path if and only if the side is at least 3.5 detection ranges |
| `PlaneJudge.ExchangeSort` | src/omr_lio/src/preprocess.cpp:728-737 | the hand-written exchange sort leaves a descending permutation |
| `PlaneJudge.BringLargest` | src/omr_lio/src/preprocess.cpp:730-736 | one turn of the outer loop places the largest of the rest and keeps the multiset |
| `PlaneJudge.Swap` | src/omr_lio/src/preprocess.cpp:732-734 | exchanges two entries and nothing else |
| `PlaneJudge.SortUnique` | src/omr_lio/src/preprocess.cpp:728-737 | the gaps have only one descending order |
| `PlaneJudge.EvenIgnoresOrder` | src/omr_lio/src/preprocess.cpp:739-758 | the verdict on the gaps does not depend on their order |
| `PlaneJudge.EvenIff` | src/omr_lio/src/preprocess.cpp:739-758 | any descending permutation gives that verdict |
| `GapEvenness.EvenMeans` | src/omr_lio/src/preprocess.cpp:739-758 | for every sensor but the Avia, on the gaps as they come: leaving out one smallest, all are at least 1e-16 and each gap is below limit_maxmin times each of the others |
| `GapEvenness.EvenMeansAvia` | src/omr_lio/src/preprocess.cpp:739-752 | for the Avia: the same with the middle gap against limit_midmin, and every gap below limit_maxmid times the middle one |
| `GapEvenness.MiddleOfSorted` | src/omr_lio/src/preprocess.cpp:744-746 | the entry read as the middle has at most half of the gaps above it and more than half at or above it |
| `PlaneJudge.NearIsAFifteenth` | src/omr_lio/src/preprocess.cpp:705-726 | the ratio 225 is met if and only if the point is within a fifteenth of the chord’s length from its line |
| `PlaneJudge.FindGroup` | src/omr_lio/src/preprocess.cpp:671-703 | the group grows by the fixed part and then while points stay in reach, never past the line, and stops at a blind point |
| `PlaneJudge.IsStraight` | src/omr_lio/src/preprocess.cpp:705-726 | the loop over the widest cross product decides whether every inner point is near the chord, zero width included |
| `PlaneJudge.IsEven` | src/omr_lio/src/preprocess.cpp:728-758 | the ratios of the sorted gaps decide as specified, for both sensor types |
| `PlaneJudge.Judge` | src/omr_lio/src/preprocess.cpp:669-763 | the verdict, the end of the group and the direction, with the meaning of each |
| `PlaneJudge.PlaneMeans` | src/omr_lio/src/preprocess.cpp:669-763 | an accepted group point by point: none blind, its far part within reach, the point that ended it out of reach, the direction from its first point to that one or to the last of the line |
| `SurfaceScan.ReachIsDistance` | src/omr_lio/src/preprocess.cpp:671-702 | within reach means closer to the first point than disA times its range plus disB |
| `SurfaceScan.FindHead` | src/omr_lio/src/preprocess.cpp:413-417 | the first point outside the blind range |
| `SurfaceScan.JudgedAdvances` | src/omr_lio/src/preprocess.cpp:431-465 | the index the loop rewrites strictly advances, by at least the group size unless a blind point was met, and the group never ends past the line |
| `SurfaceScan.NextVisit` | src/omr_lio/src/preprocess.cpp:431-465 | the next point judged is the first outside the blind range from the end of a plane, or from the point after whatever ended another group |
| `SurfaceScan.Paint` | src/omr_lio/src/preprocess.cpp:440-447 | the inclusive label loop: ends possible, inside real, all else unchanged |
| `SurfaceScan.LabelSegment` | src/omr_lio/src/preprocess.cpp:440-457 | one segment’s labels, its start set apart when it continues the segment before |
| `SurfaceScan.Scan` | src/omr_lio/src/preprocess.cpp:415-516 | the pass terminates; its groups are in order with only blind points between; the labels are those of the accepted segments |
| `SurfaceScan.LabelMeaning` | src/omr_lio/src/preprocess.cpp:440-457 | an edge label means a sharp joint of two accepted segments; a real plane label means inside one or at a joint that is not sharp |
| `SurfaceScan.LabelAtJoint` | src/omr_lio/src/preprocess.cpp:440-457 | a joint is labelled an edge if and only if the cosine between the two directions is strictly between −0.707 and 0.707, a plane point otherwise, and possible after a segment of no length; later segments notwithstanding |
| `SurfaceScan.SharpIff` | src/omr_lio/src/preprocess.cpp:451-452 | the test on squares is that test on the cosine of the normalised directions |
| `SurfaceScan.RightAngleAndStraight` | src/omr_lio/src/preprocess.cpp:449-456 | a right angle makes an edge, a segment straight on or straight back a plane point |
| `SurfaceScan.LabelAtLooseEnd` | src/omr_lio/src/preprocess.cpp:440-447 | ends of segments that meet no other are possible planes |
| `SurfaceScan.LabelElsewhere` | src/omr_lio/src/preprocess.cpp:440-447 | points on no segment keep their label |
| `SurfaceScan.InsideIsPlane` | src/omr_lio/src/preprocess.cpp:440-457 | every point strictly inside a segment is a plane point, later segments notwithstanding |
| `SurfaceScan.InsideIsStraight` | src/omr_lio/src/preprocess.cpp:431-461 | points inside an accepted segment lie near its chord |
| `Thinning.PlanePointsAreCovered` | src/omr_lio/src/preprocess.cpp:617-657 | the plane points are exactly those in some chunk |
| `Thinning.ChunksAreWellCut` | src/omr_lio/src/preprocess.cpp:617-657 | chunks share no point, hold one to n plane points, and a shorter one ends its run |
| `Thinning.RunsAreCutFromTheirStart` | src/omr_lio/src/preprocess.cpp:617-657 | cutting starts afresh at the start of every maximal run |
| `Thinning.ChunkAt` | src/omr_lio/src/preprocess.cpp:617-657 | chunk t of a run covers n points from offset t n, cut at the end of the run |
| `Thinning.KeptCount` | src/omr_lio/src/preprocess.cpp:617-657 | each output stands for at most n plane points and fewer than n, at the end of the line, for none |
| `Thinning.ThinnedAt` | src/omr_lio/src/preprocess.cpp:617-657 | output point t is that of chunk t: the last point of a full chunk, the exact mean in every field of a shorter one; only a shorter chunk at the end of the line leaves none |
| `Thinning.EdgeAt` | src/omr_lio/src/preprocess.cpp:635-639 | the corner cloud is the edge points, in order and nothing else |
| `Thinning.Mean` | src/omr_lio/src/preprocess.cpp:640-652 | the mean of a shorter chunk, field by field |
| `Thinning.Thin` | src/omr_lio/src/preprocess.cpp:617-657 | the loop with its one index outputs the last point of each full chunk, the exact mean of a shorter one unless the line ends with it, and the edge points in order |
| `YawTime.Rebuild` | src/omr_lio/src/preprocess.cpp:265-331 | the loop with its per-ring arrays dates every return but a ring’s first and sorts them by ring, dropping rings outside the range |
| `YawTime.LineAt` | src/omr_lio/src/preprocess.cpp:306-331 | every return of a ring but the first is kept, in order, in its place and with its brightness, its own time stored in curvature |
| `YawTime.RingHolds` | src/omr_lio/src/preprocess.cpp:265-331 | every return is in its ring, behind those of the ring before it |
| `YawTime.RingHoldsOnly` | src/omr_lio/src/preprocess.cpp:265-331 | and a ring holds nothing else |
| `YawTime.TimesAreExactIff` | src/omr_lio/src/preprocess.cpp:306-328 | for a ring that turns one way, the rebuilt times equal swept angle over angular speed throughout if and only if it turns by less than two turns and by less than one between returns |
| `YawTime.TimesNeverGoBack` | src/omr_lio/src/preprocess.cpp:306-328 | and then they never go back |
| `YawTime.OneReturn` | src/omr_lio/src/preprocess.cpp:319-325 | after an exactly dated return the next is exact under the same condition, for every bearing |
| `ModbusCrc.CalculateCrc` | knowledge-base/gripper/assets/sdk/extracted/changingtek_p_rtu_Servo_cpp_version/Changingtek_p_rtu_Servo.cpp:167-181 | the nested loops compute the register over the whole input |
| `ModbusCrc.LeadingZeroCounts` | knowledge-base/gripper/assets/sdk/extracted/changingtek_p_rtu_Servo_cpp_version/Changingtek_p_rtu_Servo.cpp:167-181 | the CRC of nothing is 0xFFFF, and a zero byte in front changes the CRC of every message |
| `ModbusCrc.StandardExample` | knowledge-base/gripper/assets/sdk/extracted/changingtek_p_rtu_Servo_cpp_version/Changingtek_p_rtu_Servo.cpp:167-181 | the worked example of the standard: 02 07 has CRC 0x1241 and is sent as 02 07 41 12 |
| `ModbusCrc.RegisterInjective` | knowledge-base/gripper/assets/sdk/extracted/changingtek_p_rtu_Servo_cpp_version/Changingtek_p_rtu_Servo.cpp:167-181 | registers that differ before a message differ after it |
| `ModbusCrc.RegisterLinear` | knowledge-base/gripper/assets/sdk/extracted/changingtek_p_rtu_Servo_cpp_version/Changingtek_p_rtu_Servo.cpp:167-181 | the register is linear in start value and input together, so the CRC is affine over equal lengths |
| `ModbusCrc.FeedInjective` | knowledge-base/gripper/assets/sdk/extracted/changingtek_p_rtu_Servo_cpp_version/Changingtek_p_rtu_Servo.cpp:170-178 | the byte step is injective |
| `ModbusCrc.OwnBytesEmpty` | knowledge-base/gripper/assets/sdk/extracted/changingtek_p_rtu_Servo_cpp_version/Changingtek_p_rtu_Servo.cpp:265-269 | two bytes bring a register to zero if and only if they are its own |
| `ModbusCrc.AcceptsIffEmpty` | knowledge-base/gripper/assets/sdk/extracted/changingtek_p_rtu_Servo_cpp_version/Changingtek_p_rtu_Servo.cpp:263-273 | a buffer is accepted if and only if the register over all of it, CRC included, is zero |
| `ModbusCrc.SealedAccepted` | knowledge-base/gripper/assets/sdk/extracted/changingtek_p_rtu_Servo_cpp_version/Changingtek_p_rtu_Servo.cpp:296-298 | every frame with its CRC appended is accepted and has CRC zero |
| `ModbusCrc.AlteredAcceptedIff` | knowledge-base/gripper/assets/sdk/extracted/changingtek_p_rtu_Servo_cpp_version/Changingtek_p_rtu_Servo.cpp:263-271 | whether an altered valid frame is accepted depends on the error pattern alone |
| `ModbusCrc.RegisterIsStream` | knowledge-base/gripper/assets/sdk/extracted/changingtek_p_rtu_Servo_cpp_version/Changingtek_p_rtu_Servo.cpp:167-181 | the byte register is the bit register over the bits in transmission order |
| `CrcRegister.EmptiedByOwnBits` | knowledge-base/gripper/assets/sdk/extracted/changingtek_p_rtu_Servo_cpp_version/Changingtek_p_rtu_Servo.cpp:171-178 | up to sixteen bits empty the register if and only if it held those bits |
| `ModbusCrc.BurstsAreCaught` | knowledge-base/gripper/assets/sdk/extracted/changingtek_p_rtu_Servo_cpp_version/Changingtek_p_rtu_Servo.cpp:263-271 | every valid frame of any length altered within sixteen consecutive transmitted bits is rejected |
| `ModbusCrc.NeighbouringBytesAreCaught` | knowledge-base/gripper/assets/sdk/extracted/changingtek_p_rtu_Servo_cpp_version/Changingtek_p_rtu_Servo.cpp:263-271 | so is every nonzero error confined to two neighbouring bytes, CRC bytes included |
| `ModbusCrc.OddErrorsAreCaught` | knowledge-base/gripper/assets/sdk/extracted/changingtek_p_rtu_Servo_cpp_version/Changingtek_p_rtu_Servo.cpp:263-271 | so is every error of an odd number of bits |
| `ModbusFrames.BuildWriteRegister` | knowledge-base/gripper/assets/sdk/extracted/changingtek_p_rtu_Servo_cpp_version/Changingtek_p_rtu_Servo.cpp:288-298 | builds the single write frame |
| `ModbusFrames.BuildWriteRegisters` | knowledge-base/gripper/assets/sdk/extracted/changingtek_p_rtu_Servo_cpp_version/Changingtek_p_rtu_Servo.cpp:310-327 | builds the block write frame |
| `ModbusFrames.BuildReadRegisters` | knowledge-base/gripper/assets/sdk/extracted/changingtek_p_rtu_Servo_cpp_version/Changingtek_p_rtu_Servo.cpp:345-355 | builds the read frame |
| `ModbusFrames.SealFrame` | knowledge-base/gripper/assets/sdk/extracted/changingtek_p_rtu_Servo_cpp_version/Changingtek_p_rtu_Servo.cpp:296-298 | appends the CRC, low byte first |
| `ModbusFrames.WriteManyLayout` | knowledge-base/gripper/assets/sdk/extracted/changingtek_p_rtu_Servo_cpp_version/Changingtek_p_rtu_Servo.cpp:310-327 | where each field of a block write of any length lies |
| `ModbusFrames.WriteOneBytes` | knowledge-base/gripper/assets/sdk/extracted/changingtek_p_rtu_Servo_cpp_version/Changingtek_p_rtu_Servo.cpp:288-298 | every byte of a single write: device, code 06, address and value, high byte first |
| `ModbusFrames.ReadBytes` | knowledge-base/gripper/assets/sdk/extracted/changingtek_p_rtu_Servo_cpp_version/Changingtek_p_rtu_Servo.cpp:345-355 | every byte of a read request: device, code 03, address, and the count cut to sixteen bits |
| `ModbusFrames.WriteManyBytes` | knowledge-base/gripper/assets/sdk/extracted/changingtek_p_rtu_Servo_cpp_version/Changingtek_p_rtu_Servo.cpp:310-327 | every byte of a block write: device, code 10 (hex), address, count, byte count, then each value, high byte first |
| `ModbusFrames.WriteOneRoundTrip` | knowledge-base/gripper/assets/sdk/extracted/changingtek_p_rtu_Servo_cpp_version/Changingtek_p_rtu_Servo.cpp:284-298 | a device reads back the single write as meant |
| `ModbusFrames.WriteManyRoundTripIff` | knowledge-base/gripper/assets/sdk/extracted/changingtek_p_rtu_Servo_cpp_version/Changingtek_p_rtu_Servo.cpp:306-327 | a block write is understood if and only if it holds 1 to 123 values |
| `ModbusFrames.ReadRoundTripIff` | knowledge-base/gripper/assets/sdk/extracted/changingtek_p_rtu_Servo_cpp_version/Changingtek_p_rtu_Servo.cpp:341-355 | for every count, negative ones included, a read request is understood if and only if the count cut to sixteen bits is 1 to 125 |
| `ModbusFrames.ReceiveResponse` | knowledge-base/gripper/assets/sdk/extracted/changingtek_p_rtu_Servo_cpp_version/Changingtek_p_rtu_Servo.cpp:263-273 | short and corrupt buffers are errors, others pass |
| `ModbusFrames.ReadRegisters` | knowledge-base/gripper/assets/sdk/extracted/changingtek_p_rtu_Servo_cpp_version/Changingtek_p_rtu_Servo.cpp:359-376 | the parse loop gives the registers or the right error |
| `ModbusFrames.ParseMeans` | knowledge-base/gripper/assets/sdk/extracted/changingtek_p_rtu_Servo_cpp_version/Changingtek_p_rtu_Servo.cpp:359-376 | a response is taken if and only if its CRC is right, it is long enough and its code is 03, and register k is bytes 3 + 2k and 4 + 2k, high byte first |
| `ModbusFrames.ReadResponseRoundTrip` | knowledge-base/gripper/assets/sdk/extracted/changingtek_p_rtu_Servo_cpp_version/Changingtek_p_rtu_Servo.cpp:341-377 | a device’s response gives back its registers, fewer if fewer are asked for, none for −1 and −2, an error for more or for less than that |
| `ModbusFrames.AlteredResponseRejected` | knowledge-base/gripper/assets/sdk/extracted/changingtek_p_rtu_Servo_cpp_version/Changingtek_p_rtu_Servo.cpp:263-271 | a response altered by a short burst or an odd number of bits never yields values |
| `Gripper.PositionRoundTripIff` | knowledge-base/gripper/assets/sdk/extracted/changingtek_p_rtu_Servo_cpp_version/Changingtek_p_rtu_Servo.cpp:383-388 | a position split into two registers is read back as itself if and only if it has 32 bits |
| `Gripper.RegistersRoundTrip` | knowledge-base/gripper/assets/sdk/extracted/changingtek_p_rtu_Servo_cpp_version/Changingtek_p_rtu_Servo.cpp:448-464 | any two register values are the halves of the position read from them |
| `Gripper.HalvesMakePosition` | knowledge-base/gripper/assets/sdk/extracted/changingtek_p_rtu_Servo_cpp_version/Changingtek_p_rtu_Servo.cpp:383-388 | the two registers are the upper and lower sixteen bits of the position |
| `Gripper.TempMoveRegisters` | knowledge-base/gripper/assets/sdk/changingtek_p_rtu_Servo.py:155-175 | either form writes registers 0x0102 to 0x0108 in order, the position’s bits in the first two, then the parameters as given, then the trigger |
| `Gripper.TempMoveValues` | knowledge-base/gripper/assets/sdk/extracted/changingtek_p_rtu_Servo_cpp_version/Changingtek_p_rtu_Servo.cpp:421-437 | the block pushed value by value, every value a register |
| `Gripper.TempMoveTracesIff` | knowledge-base/gripper/assets/sdk/changingtek_p_rtu_Servo.py:155-175 | the C++ block and the Python sequence write the same values in the same order if and only if the move is triggered and every parameter fits a register |
| `Gripper.TempMoveAgreesIff` | knowledge-base/gripper/assets/sdk/changingtek_p_rtu_Servo.py:155-175 | they leave the same registers if and only if the move is triggered or the trigger register was clear |
| `Gripper.TempMoveExample` | knowledge-base/gripper/assets/sdk/changingtek_p_rtu_Servo.py:155-175 | with the trigger register at 1, an untriggered Python move leaves 1 and the C++ one leaves 0 |
| `Gripper.TriggerComesLast` | knowledge-base/gripper/assets/sdk/extracted/changingtek_p_rtu_Servo_cpp_version/Changingtek_p_rtu_Servo.cpp:410-437 | the trigger is written last, after every parameter |
| `Rotations.CofactorsOfRotation` | src/omr_controller/src/calib/transform.cpp:44-65 | a rotation is its own matrix of cofactors, which fixes the entries the decomposition does not read |
| `RollPitchYaw.EntriesAreProduct` | src/omr_controller/src/calib/transform.cpp:19-42 | the nine entries are the product of the turns about z, y and x |
| `RollPitchYaw.SingleTurns` | src/omr_controller/src/calib/transform.cpp:19-42 | yaw alone turns x towards y, pitch alone z towards x, roll alone y towards z |
| `RollPitchYaw.EveryRpyIsARotation` | src/omr_controller/src/calib/pose_proc.cpp:17-62 | every roll, pitch and yaw give an orthonormal matrix of determinant 1 |
| `RollPitchYaw.RegularRoundTrip` | src/omr_controller/src/calib/transform.cpp:20-65 | away from gimbal lock every rotation is rebuilt from its angles |
| `RollPitchYaw.LockedRoundTrip` | src/omr_controller/src/calib/transform.cpp:51-55 | in the gimbal branch it is rebuilt if and only if R(2,0) is 1, or is −1 with R(0,1) zero |
| `RollPitchYaw.RotationRoundTripIff` | src/omr_controller/src/calib/transform.cpp:20-65 | for every rotation matrix, matrix to angles to matrix is the identity if and only if one of those conditions holds |
| `RollPitchYaw.GimbalExample` | src/omr_controller/src/calib/transform.cpp:51-55 | a rotation with R(2,0) = −1 and R(0,1) = 1, its angles, and the other rotation they give |
| `RollPitchYaw.AnglesRoundTripIff` | src/omr_controller/src/calib/transform.cpp:20-65 | for all angles, angles to matrix to angles is the identity if and only if the pitch is strictly between its poles and outside the margin, or at a pole without yaw (and, at the upper one, without sine of roll) |
| `RollPitchYaw.DecompositionExists` | src/omr_controller/src/calib/transform.cpp:56-62 | every rotation away from gimbal lock has a decomposition, given the one square root it needs |
| `RollPitchYaw.UprightDecompositionExists` | src/omr_controller/src/calib/transform.cpp:51-55 | so has every rotation with R(2,0) equal to 1 or −1 |
| `RollPitchYaw.OneDecomposition` | src/omr_controller/src/calib/transform.cpp:44-65 | away from gimbal lock the decomposition is unique |
| `HandEye.PoseGoesWithItsPoint` | src/omr_controller/src/calib/transform.cpp:133-191 | the pose transform puts a pose where the point transform puts its position, in both modes |
| `HandEye.PointIsSeenBack` | src/omr_controller/src/calib/transform.cpp:133-149 | seen from the arm, or from the base with the camera off the arm, a transformed point is where the calibrated matrix puts what the camera saw |
| `HandEye.PoseInBaseIsExactIff` | src/omr_controller/src/calib/transform.cpp:151-191 | the pose returned is the true motion if and only if its rotation survives the angles |
| `HandEye.Process` | src/omr_controller/src/calib/pose_proc.cpp:91-132 | fewer than two poses are an error; otherwise the two lists are exactly the relative motions in order |
| `HandEye.RelativeMotionMeans` | src/omr_controller/src/calib/pose_proc.cpp:102-129 | with the camera on the arm the next pose after the relative motion is this pose; with it off the arm the relative motion carries this pose to the next |
| `HandEye.MotionsTelescope` | src/omr_controller/src/calib/pose_proc.cpp:102-129 | for any list of poses the product of the motions is the relative motion from first to last, in both modes |
| `HandEye.EquationIff` | src/omr_controller/src/calib/pose_proc.cpp:102-129 | one equation A X = X B holds if and only if the target did not move between the two views |
| `HandEye.EquationsHoldIff` | src/omr_controller/src/calib/pose_proc.cpp:102-129 | a mounting solves all equations if and only if it puts the target of every view at one pose, in both modes |
| `RigidMotions.InverseUndoes` | src/omr_controller/src/calib/pose_proc.cpp:109-122 | the block inverse is a two-sided inverse of a rigid motion |
| `RigidMotions.InverseIsUnique` | src/omr_controller/src/calib/pose_proc.cpp:109-122 | and the only one |
| `DoorMath.FrameIsRotation` | src/omr_controller/include/omr_controller/door_math.hpp:42-64 | for all angles the target frame is orthonormal with determinant 1 |
| `DoorMath.TransformIsInverse` | src/omr_controller/include/omr_controller/door_math.hpp:78-110 | the transform is the inverse of the motion to the frame at its centre |
| `DoorMath.SegmentGoesToAxis` | src/omr_controller/include/omr_controller/door_math.hpp:78-110 | the transform takes the centre to the origin and a point d along the segment to (d, 0, 0) |
| `DoorMath.UpperEndIsOnDoor` | src/omr_controller/include/omr_controller/door_math.hpp:8-34 | whatever phi and omega, the upper end of the segment is the point of the door at radius r and height h + L |
| `DoorMath.TranslationIs` | src/omr_controller/include/omr_controller/door_math.hpp:100-107 | the translation in closed form, independent of theta |
| `DoorMath.UntiltedCommentIsRightIff` | src/omr_controller/include/omr_controller/door_math.hpp:72-75 | at phi = omega = 0 the closed form in the source’s comment is right if and only if h is zero |
| `DoorMath.CommentIsWrongSomewhere` | src/omr_controller/include/omr_controller/door_math.hpp:72-75 | for all angles there are sizes for which that closed form is wrong |
| `DoorMath.CommentedZAxisIsRightIff` | src/omr_controller/include/omr_controller/door_math.hpp:38-62 | the third axis in the source’s comment is the code’s if and only if the sine of phi or of omega is zero |
| `DoorWaypoints.StepsIff` | src/omr_controller/src/state_machine/door_trajectory_action.cpp:323-324 | the door angles visited are exactly the multiples of the step within reach |
| `DoorWaypoints.WaypointAt` | src/omr_controller/src/state_machine/door_trajectory_action.cpp:323-335 | the waypoint of step a, phi b and omega c stands at index (a nφ + b) nω + c of a list of steps × nφ × nω poses |
| `DoorWaypoints.GoalSendsSegment` | src/omr_controller/src/state_machine/door_trajectory_action.cpp:701-708 | a pose carries the segment held at its own theta, phi and omega to the x axis of the hinge |
| `DoorWaypoints.WaypointSendsSegment` | src/omr_controller/src/state_machine/door_trajectory_action.cpp:323-335 | the waypoint of step a, phi b and omega c does so for the angle a times the step, the b-th phi and the c-th omega |
| `DoorWaypoints.EmptyIff` | src/omr_controller/src/state_machine/door_trajectory_action.cpp:323-348 | there is no waypoint if and only if the range is negative or a list is empty |
| `DoorWaypoints.Prepare` | src/omr_controller/src/state_machine/door_trajectory_action.cpp:319-335 | the three nested loops build that list and terminate for a positive step |
| `DoorTrajectory.PlansInOrder` | src/omr_controller/src/state_machine/door_trajectory_action.cpp:257-410 | at every point of every run the planner was asked for a prefix of the plan, each pose once and in order, and only the last can have failed |
| `DoorTrajectory.SuccessIsComplete` | src/omr_controller/src/state_machine/door_trajectory_action.cpp:355-400 | success is reported only after the approach and all waypoints were reached |
| `DoorTrajectory.IdleWaitsIff` | src/omr_controller/src/state_machine/door_trajectory_action.cpp:260-267 | a run is still idle if and only if no tick has found the delay over |
| `DoorTrajectory.HomeFailsIff` | src/omr_controller/src/state_machine/door_trajectory_action.cpp:269-291 | once the delay is over, a run ends in failure with no pose planned if and only if the arm is not at home and the move there fails |
| `DoorTrajectory.ApproachSendsSegment` | src/omr_controller/src/state_machine/door_trajectory_action.cpp:272-280 | the approach pose is that of the closed, untilted door |
| `DoorTrajectory.RunIsConsistent` | src/omr_controller/src/state_machine/door_trajectory_action.cpp:233-410 | the invariant behind both, kept from any start by every tick |
| `DoorTrajectory.AlwaysAWaypointToPlan` | src/omr_controller/src/state_machine/door_trajectory_action.cpp:355-361 | the branch for no waypoint left is never taken |
| `DoorTrajectory.EndIsFinal` | src/omr_controller/src/state_machine/door_trajectory_action.cpp:402-406 | a run that has ended stays as it is |
| `DoorTrajectory.RunEnds` | src/omr_controller/src/state_machine/door_trajectory_action.cpp:269-410 | however the world answers, a run has ended 3N + 4 ticks after the idle delay, and before that only by failing |
| `DoorTrajectory.GoodRunTakes` | src/omr_controller/src/state_machine/door_trajectory_action.cpp:269-410 | if nothing fails and N > 0, success comes with tick 3N + 4 and not before |
| `DoorTrajectory.SceneOfRun` | src/omr_controller/src/state_machine/door_trajectory_action.cpp:665-694 | the scene holds a closed door from the first planner call of the run on and before that what the run found; the panel never follows the door |
| `DoorTrajectory.HaltCleansIff` | src/omr_controller/src/state_machine/door_trajectory_action.cpp:416-427 | halting leaves no door in the scene if and only if the run had called the planner or found no door |
| `DoorTrajectory.HaltExample` | src/omr_controller/src/state_machine/door_trajectory_action.cpp:416-427 | a run that finds a door and is halted at once leaves it there |
| `DoorTrajectory.SuccessLeavesDoor` | src/omr_controller/src/state_machine/door_trajectory_action.cpp:233-241 | a run that succeeds leaves the door in the scene and the next start does not remove it |
| `DoorTrajectory.DoorTrajectoryAction.OnStart` | src/omr_controller/src/state_machine/door_trajectory_action.cpp:123-251 | without a ROS node nothing changes; otherwise the parameters are read, the run’s fields are reset and the scene is not touched |
| `DoorTrajectory.DoorTrajectoryAction.OnRunning` | src/omr_controller/src/state_machine/door_trajectory_action.cpp:257-410 | one tick on the object’s fields, with the status reported |
| `DoorTrajectory.DoorTrajectoryAction.RunApproach` | src/omr_controller/src/state_machine/door_trajectory_action.cpp:294-308 | shows the closed door, asks for the approach pose once and moves on or fails |
| `DoorTrajectory.DoorTrajectoryAction.RunWaypoint` | src/omr_controller/src/state_machine/door_trajectory_action.cpp:355-376 | asks for the current waypoint once and moves on or fails |
| `DoorTrajectory.DoorTrajectoryAction.UpdateDoorPose` | src/omr_controller/src/state_machine/door_trajectory_action.cpp:687-694 | moves the panel if there is a scene |
| `DoorTrajectory.DoorTrajectoryAction.PlanAndExecuteToPose` | src/omr_controller/src/state_machine/door_trajectory_action.cpp:508-557 | one planner call, recorded with its answer |
| `DoorTrajectory.DoorTrajectoryAction.OnHalted` | src/omr_controller/src/state_machine/door_trajectory_action.cpp:416-427 | removes the door if this run added it and returns to idle |
| `DoorTrajectory.DoorTrajectoryAction.SetupDoorCollisionObjects` | src/omr_controller/src/state_machine/door_trajectory_action.cpp:665-685 | adds the objects once |

## Left out

- Floating point: rounding, signed zeros, NaN and the 57.2957 that stands for 180/π; the model is over reals.
- Time stamps are reals: truncation to nanoseconds and to unsigned seconds, and the clock-offset branch of `imu_callback` whose stamp is overwritten at once, are not modelled. Stamps are taken after the configured offset is subtracted.
- `LidarImuSync.ForwardRunDelivers`: stated for stamps that do not go back, because a backwards stamp discards queued data by design; `LidarImuSync.BuffersAlignedIff` covers all runs.
- `LioPipeline.RunConservesTime`: starts at the second undistorted scan, because `last_lidar_end_time_` has no initial value.
- The self-synchronisation offset of the main loop, publishing, diagnostics and parameters.
- The SO(3) exponential and logarithm: the generalised addition of the state is a parameter, and `Esekf.LinearUpdateConverges` is about a vector state.
- `h_share_model`, `map_incremental` and the ikd-tree: plane fitting and nearest-neighbour search of libraries that are not part of this model. Measurements are arbitrary.
- `ImuProcess.WalkBack`: sorting the cloud by time is a library call and is a precondition; the poses need not be sorted.
- `ImuProcess.ImuProcessor.ImuInit`: the statistics only; the gravity, gyro bias and extrinsics it then puts into the filter's state need the norm of the mean and are left to the caller, and the covariance it assigns is `Esekf.InitP`.
- `ImuProcess.ImuProcessor.Propagate`: the step lengths and the pose offsets; the filter calls are `Esekf.Filterer.Predict`, and the states recorded with the poses are a parameter of `MotionCompensation.UndistortPcl`.
- `ImuProcess.ImuProcessor.ProcessGroup`: the clock and the statistics; the cloud is moved by `MotionCompensation.UndistortPcl`.
- `MotionCompensation.UndistortPcl`: the states the filter passes through are given, and the cloud comes sorted by time.
- `LioPipeline.Loop.Spin`: one turn of the loop up to the inertial part; the map and the update follow it and are modelled apart.
- `SurfaceScan.Paint`: when a segment ends past the last point the program's inclusive loop writes one label beyond the array; the model drops that one write.
- `DoorTrajectory.DoorTrajectoryAction.PlanAndExecuteToPose`: every way a planning, execution or completion step can fail is one answer of the world.
- `SurfaceScan.Scan`: needs a point outside the blind range, because the program reads past the end of the line without one; labels past the end, which the inclusive loop would write, are dropped.
- The group distance's `disB` is never set in the program and is a parameter; the distance to the next point of the last point of a line is never computed and is arbitrary.
- `PlaneJudge.Judge`: the direction is the chord itself, not normalised; the sharpness test is stated on squares, which decides the same.
- The passes of `give_feature` between the surface scan and thinning: edge jumps, wires and small planes. Thinning takes any labels.
- `Thinning.Thin`: needs a filter of at least one, as configured.
- `YawTime.Rebuild`: models the path with features enabled; the other path has the same loop body, checks no ring number, and keeps every n-th point outside the blind range. `atan2` is an input: each return carries its bearing.
- The overflow of `count * 2` in the response length for counts near the limits of 32 bits.
- Serial ports, locks, timeouts and the 256-byte read limit of the gripper; the echo of a write is received but not compared, as in the program. The Python side's frames are built by a library that is not part of this model.
- `RollPitchYaw.OneDecomposition`: in gimbal lock uniqueness is not stated.
- Loading the calibration file, and the calibration solvers of OpenCV.
- Planning and moving are one answer each, the joint-state polling included; the first answers of `isAtHome` and of the home move are two booleans.
- `DoorWaypoints.Prepare`: needs a positive step; the program does not end for any other when the range is not negative. The list of door angles beside the waypoints is filled by the program and never read.
- Reading ports, parsing lists of numbers, conversion of matrices to poses with quaternions, and the shapes of the collision objects.
- Navigation, vision, motor drivers, behaviour tree wiring, launch files and user interfaces of the repository.
