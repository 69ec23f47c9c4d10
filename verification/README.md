# Radar navigation harness: verified model

This project models the algorithmic core of the radar position and navigation harness and proves
what its filters, its serial protocol and its concurrent services are built for. Arithmetic on
doubles is arithmetic on exact reals. `dafny verify dfyconfig.toml` checks everything.

| part | files |
|---|---|
| a value that may be missing | Wrappers |
| matrices over the reals, positive definiteness, inverses | LinearAlgebra, PositiveDefinite |
| Kalman algebra: two forms of the update, its optimality, fusion of two sensors | KalmanForms |
| the adaptive fuzzy GPS/IMU filter | MotionModel, AdaptiveNoise, FusionModel (what a step means), FusionFilter (the object) |
| the Python filter that replays recorded data | RobustFilter |
| Legendre derivatives of the World Magnetic Model | Polynomials, Legendre, LegendreTable, Schmidt |
| the CRC engine, what it detects, its Python copy | BitAlgebra, CrcModel, Crc, CrcDetection, PythonCrc |
| frames between microcontroller and host, and the Python frame splitter | FrameProtocol, FrameLink, FrameSplitter |
| the SH-2 service and its tasks | Sh2Service |
| the asynchronous database writer | DatabaseWriter |
| pairing of GPS fixes and inertial samples; the way from the wire to the filter | SensorPairing, HostPipeline, NavigationPipeline |
| quaternions, headings | Rotation |

Conventions. A machine word or a polynomial over GF(2) is the set of positions of its one bits. A
square root is a non-negative parameter that squares to its radicand; a sine and a cosine are a pair
with c^2 + s^2 = 1, and the cosine of the membership function is any function into [-1, 1]. A
concurrent component is a state with one step function; a schedule is any sequence of steps, and a
step that is not possible does nothing, so a statement about all schedules is one about every
interleaving. The classes that update fields in place are proved against functions of the state
before the call.

Results that a reader may not expect:

- The firmware numbers a rotation rate 3 and a status 4, the host the other way round. Both frames are
  consumed whole and delivered as nothing (FrameProtocol.StreamDecoded). As the pairing waits for a
  first rotation rate, the filter is never run on such a stream at all
  (HostPipeline.FirmwareNeverDispatches).
- A step without GPS returns the covariance of its prediction; only the stored covariance is the
  updated one (FusionFilter.Fusion.StepImuOnly follows the code).
- The host's callback admits a length byte of 73, one more than its buffer of 75 bytes has room for.  It
  overruns exactly at a header with that length and all its payload behind it
  (FrameProtocol.OverrunExactly, OverrunExample); no stream of firmware frames, cut off anywhere, contains one
  (FrameProtocol.CutStreamDecoded).
- A session of the SH-2 service stays attended exactly as long as no freshly made service fails
  within the ten milliseconds before the recovery that made it is over
  (Sh2Service.SessionSurvives, Sh2Service.EarlyFailureIsLost).
- The database's counters of written records count insertions that were rolled back
  (DatabaseWriter.WrittenCounters, DatabaseWriter.RolledBackIsCounted), and the producers of inertial records do nothing
  (DatabaseWriter.InertialNeverStored). The reported depth of the queue is not lowered when the writer takes it
  (DatabaseWriter.DepthIsStale).
- The comment on `IsStartEncoder` names the start byte 0xFF; the code uses 0xA5, and so does the model. The
  Python splitter does wait for 0xFF, which is not the byte the firmware's frames start with.

## Model

| member | source | states |
|---|---|---|
| PositiveDefinite.InverseProperties | src/IMUGPSFusionKF.cpp:224-241 | the inverse of a symmetric positive definite matrix exists, is two-sided, and is itself symmetric positive definite |
| PositiveDefinite.Solve | src/IMUGPSFusionKF.cpp:224-227 | elimination by Schur complements solves every system with a positive definite matrix |
| PositiveDefinite.SchurDefinite | src/IMUGPSFusionKF.cpp:224-227 | the Schur complement of a positive definite matrix is positive definite, so elimination never meets a zero pivot |
| PositiveDefinite.InverseUnique | src/IMUGPSFusionKF.cpp:179-192 | any one-sided inverse of a positive definite matrix is the inverse |
| PositiveDefinite.Polarization | src/IMUGPSFusionKF.cpp:214-215 | symmetric matrices with the same quadratic form are equal |
| KalmanForms.GainForms | src/IMUGPSFusionKF.cpp:173-197 | (P^-1 + H'R^-1H)^-1 H'R^-1 equals P H'(H P H' + R)^-1 for all definite P, R and any H |
| KalmanForms.CovarianceForms | src/IMUGPSFusionKF.cpp:240-241 | (P^-1 + H'R^-1H)^-1 equals (I - K H) P with the classical gain |
| KalmanForms.PushThrough | src/IMUGPSFusionKF.cpp:173-197 | the identity that moves the information matrix past the innovation covariance |
| KalmanForms.LeastSquares | src/IMUGPSFusionKF.cpp:239-241 | the weighted squares any guess leaves are the innovation statistic plus the square of its distance from the updated state, weighted by the updated covariance |
| KalmanForms.UpdateIsOptimal | src/IMUGPSFusionKF.cpp:118-123 | the innovation statistic that the fuzzy weights are computed from is the least cost of any guess, never negative, and the updated state is the only guess that reaches it |
| KalmanForms.NormalEquations | src/IMUGPSFusionKF.cpp:173-197 | the step of the update solves the normal equations of the information matrix |
| KalmanForms.ResidualShrinks | microcontroller/visualize.py:94-95 | for semidefinite P an update never leaves the measured quantity farther from the measurement than it was, the innovation statistic lying between the two |
| KalmanForms.JointIsSequential | src/IMUGPSFusionKF.cpp:293-305 | the joint GPS+IMU hypothesis is the GPS update followed by the IMU update, in state and covariance |
| KalmanForms.FusionOrderIrrelevant | src/IMUGPSFusionKF.cpp:293-305 | the two updates may be applied in either order |
| MotionModel.TransitionsCompose | src/IMUGPSFusionKF.cpp:93-101 | F(a) F(b) = F(a + b) for all real a, b |
| MotionModel.TransitionMoves | src/IMUGPSFusionKF.cpp:93-101 | of each axis the velocity moves by the acceleration, the position by the mean of the old and the new velocity, and the acceleration stays |
| MotionModel.NoiseSemiDefinite | src/IMUGPSFusionKF.cpp:339-370 | Q(dt) is symmetric positive semidefinite for every dt, with and without GPS |
| MotionModel.NoiseAccumulates | src/IMUGPSFusionKF.cpp:339-370 | Q(a + b) = F(b) Q(a) F(b)' + Q(b) for positive a, b |
| MotionModel.NoiseRate | src/IMUGPSFusionKF.cpp:339-370 | per second the acceleration gains the jerk density in variance, and with a fix all of Q is twice as large |
| MotionModel.NoiseDefinite3 | src/IMUGPSFusionKF.cpp:358-367 | for positive dt the three-by-three noise block is even positive definite |
| AdaptiveNoise.WindowContents | src/IMUGPSFusionKF.cpp:372-410 | after t pushes a window holds the last min(t, N) residuals in order, and is used exactly at push N + L + 1 and then every max(1, L) pushes |
| AdaptiveNoise.CountStep | src/IMUGPSFusionKF.cpp:386-409 | the counter of pushes since the last use, in closed form |
| AdaptiveNoise.FlooredDefinite | src/IMUGPSFusionKF.cpp:391-402 | a mean of residual outer products plus H P H' is positive definite once its diagonal is overwritten and floored |
| AdaptiveNoise.RawAlong | src/IMUGPSFusionKF.cpp:386-390 | along any direction the raw estimate is the mean square of the residuals and the variance of the state as observed |
| AdaptiveNoise.EstimateIsRaw | src/IMUGPSFusionKF.cpp:391-402 | an estimate differs from the raw one only on the diagonal, and where something is observed only below the floor |
| FusionModel.Membership | src/IMUGPSFusionKF.cpp:137-171 | membership lies in [0, 1], is 1 at or below the lower bound and 0 at or above the upper one, whatever the cosine |
| FusionModel.MembershipBetween | src/IMUGPSFusionKF.cpp:137-171 | a share of the way between the bounds twice the membership less one is the cosine of that share of half a turn, and that of GPS is at least 0.01 |
| FusionModel.MembershipFalls | src/IMUGPSFusionKF.cpp:137-171 | with a cosine falling over half a turn membership never grows with the statistic, and that of the IMU falls strictly between the bounds |
| FusionModel.ProductWeights | src/IMUGPSFusionKF.cpp:103-135 | the four hypothesis weights are non-negative and sum to one; those with a valid GPS add up to its membership, those with a valid IMU to its own, and that of both is the product |
| FusionModel.PredictionDefinite | src/IMUGPSFusionKF.cpp:214-215 | F P F' + Q is positive definite for every dt |
| FusionModel.PredictedMoves | src/IMUGPSFusionKF.cpp:207-212 | the predicted state is that of a constant acceleration |
| FusionModel.PredictionsCompose | src/IMUGPSFusionKF.cpp:207-212 | predicting the state over a and then over b is predicting it over a + b |
| FusionModel.PredictedSpread | src/IMUGPSFusionKF.cpp:214-215 | the predicted variance of any combination of the entries is its variance after the motion and the process noise |
| FusionModel.MixedDefinite | src/IMUGPSFusionKF.cpp:307-316 | a convex mixture of definite covariances with rank-one spread terms is definite |
| FusionModel.MixtureMoments | src/IMUGPSFusionKF.cpp:307-316 | along every direction the fused state and covariance are the moments of the mixture, in which the prediction alone enters without its distance from the mean |
| FusionModel.ImuStepIsMixture | src/IMUGPSFusionKF.cpp:244-250 | the step without GPS is the mixture in which the fix has no weight |
| FusionModel.StepImuSelects | src/IMUGPSFusionKF.cpp:200-258 | a step without GPS leaves exactly the update by an IMU at or below its lower bound, and the prediction when the IMU is at or above its upper one |
| FusionModel.StepGpsSelects | src/IMUGPSFusionKF.cpp:260-328 | when each sensor is at or below its lower bound or at or above its upper one, the step leaves exactly the update by those below: by both in turn, by GPS alone, by the IMU alone, or the prediction |
| FusionModel.StepLeavesResiduals | src/IMUGPSFusionKF.cpp:318-322 | the windows take up the residuals that the state after the step leaves, and the noises are re-estimated with its covariance |
| FusionModel.NoiseOverRun | src/IMUGPSFusionKF.cpp:372-450 | over any number of pushes the noise changes exactly at the times of WindowContents, and then to the estimate from the last N residuals, the new one among them |
| FusionModel.GpsNoiseDefinite | src/IMUGPSFusionKF.cpp:372-410 | R_GPS stays positive definite through a push, recomputed or not |
| FusionModel.ImuNoiseDefinite | src/IMUGPSFusionKF.cpp:413-450 | R_IMU stays positive definite through a push, recomputed or not |
| FusionModel.StepImuSound | src/IMUGPSFusionKF.cpp:200-258 | a step without GPS keeps the invariant of the filter |
| FusionModel.StepGpsSound | src/IMUGPSFusionKF.cpp:260-328 | a step with GPS keeps the invariant of the filter |
| FusionModel.ControllerStartSound | src/RadarPositionNavigationController.cpp:71-151 | the controller's initial matrices satisfy the invariant |
| FusionModel.RunsStayDefinite | src/IMUGPSFusionKF.cpp:200-328 | from the controller's start, P, R_GPS and R_IMU are symmetric positive definite after any sequence of steps |
| FusionFilter.HypothesisForms | src/IMUGPSFusionKF.cpp:239-241 | state and covariance of one hypothesis, as computed from inverses, are the classical update |
| FusionFilter.JointForms | src/IMUGPSFusionKF.cpp:290-305 | state and covariance of the joint hypothesis, as computed, are the two classical updates in turn |
| FusionFilter.Betas | src/IMUGPSFusionKF.cpp:117-135 | the weights computed with max are the products of the memberships and their complements; those with a valid GPS add up to its membership, those with a valid IMU to its own |
| FusionFilter.Fusion.constructor | src/IMUGPSFusionKF.cpp:3-53 | the object starts in a sound state, with Q rebuilt for a hundredth of a second |
| FusionFilter.Fusion.UpdateQ | src/IMUGPSFusionKF.cpp:339-370 | Q becomes the noise of the motion model, the rest of the state stays |
| FusionFilter.Fusion.PushInnovationGps | src/IMUGPSFusionKF.cpp:372-410 | window, counter and R_GPS become those of the reference step |
| FusionFilter.Fusion.PushInnovationImu | src/IMUGPSFusionKF.cpp:413-450 | window, counter and R_IMU become those of the reference step |
| FusionFilter.Fusion.StepImuOnly | src/IMUGPSFusionKF.cpp:200-258 | the information-form step clears the velocities of the caller's vector, leaves exactly the state of the classical reference step and returns the predicted covariance |
| FusionFilter.Fusion.StepWithGps | src/IMUGPSFusionKF.cpp:260-328 | the information-form step clears the velocities of the caller's IMU vector, and leaves and returns exactly the state of the classical reference step |
| FusionFilter.SumInnovations | src/IMUGPSFusionKF.cpp:387-390 | the accumulating loop is the sum of the outer products |
| RobustFilter.JosephIsShort | microcontroller/visualize.py:94-98 | with the optimal gain the Joseph form equals (I - K H) P |
| RobustFilter.JosephSemiDefinite | microcontroller/visualize.py:97 | the Joseph form is positive semidefinite for any gain |
| RobustFilter.JosephUpdate | microcontroller/visualize.py:94-98 | the update is symmetric positive semidefinite and is the classical one for semidefinite P |
| RobustFilter.Reduction | microcontroller/visualize.py:94-98 | P - P' is positive semidefinite |
| RobustFilter.RobustUpdate | microcontroller/visualize.py:78-100 | the state and the covariance are the classical update with the gated noise, the statistic returned is that of the innovation under the noise given, and the covariance never exceeds P |
| RobustFilter.InflationLaws | microcontroller/visualize.py:85-87 | an innovation within the gate inflates nothing, and beyond it the factor times the gate is the statistic, up to a hundredfold |
| RobustFilter.GatedNoiseIs | microcontroller/visualize.py:85-93 | the noise used is the given one inflated by the statistic of the innovation |
| RobustFilter.GatedNoiseGrows | microcontroller/visualize.py:85-93 | a larger innovation is never given a smaller noise |
| RobustFilter.ProcessNoiseSemiDefinite | microcontroller/visualize.py:232-242 | the nine-by-nine process noise is positive semidefinite |
| RobustFilter.NoiseRelations | microcontroller/visualize.py:235-242 | velocity gains twelve times the given variance per squared second, position moves with it as over half the step, the bias gains its own variance and has no part in the rest |
| RobustFilter.SampleNoiseAt | microcontroller/visualize.py:200-242 | within the limits the noise of the velocity is that of the acceleration level and the noise of the bias its own |
| RobustFilter.PredictedAlong | microcontroller/visualize.py:244-245 | the predicted variance of any combination of the entries is that after the motion and the noise of the sample |
| RobustFilter.PredictionIsLinear | microcontroller/visualize.py:220-230 | the predicted states of two tracks differ by F applied to their difference, so F is the matrix of the prediction |
| RobustFilter.PredictionMoves | microcontroller/visualize.py:225-230 | velocity moves by the measured acceleration less its bias, position by the mean of the old and the new velocity, the bias stays |
| RobustFilter.BiasIsSubtracted | microcontroller/visualize.py:225-230 | a constant added to the measured acceleration and to its bias moves nothing |
| RobustFilter.Predict | microcontroller/visualize.py:244-248 | the prediction is F P F' + Q and its symmetrisation changes nothing |
| RobustFilter.AdaptiveUpdate | microcontroller/visualize.py:266-273 | one measurement against the blended noise; the noise moves towards the clipped innovation and stays a positive diagonal |
| RobustFilter.ZeroVelocity | microcontroller/visualize.py:275-302 | at rest the velocity update and then, from its result, the bias update |
| RobustFilter.SamplePulls | microcontroller/visualize.py:256-303 | a sample at rest pulls the predicted velocity to zero and from there the bias to the measured acceleration, one in motion pulls the velocity across the axes of travel to zero, any other leaves the prediction; the noises of what is not measured stay |
| RobustFilter.AdaptedNoiseAt | microcontroller/visualize.py:99-100 | each entry of an adaptive noise moves by 0.03 of the way to the squared innovation less the variance left after the update, clipped |
| RobustFilter.AdaptedWithin | microcontroller/visualize.py:271-273 | an adaptive noise within the limits of its clipping stays there |
| RobustFilter.BlendedNoiseAt | microcontroller/visualize.py:267-297 | the noise used lies 0.15, or 0.10, of the way from the adaptive to the fresh one |
| RobustFilter.Advance | microcontroller/visualize.py:175-308 | one sample: the prediction, at most one kind of update that does not exceed it, the other noises unchanged |
| RobustFilter.RunFilter | microcontroller/visualize.py:147-308 | every covariance of the loop is semidefinite, no update exceeds its prediction, and the adaptive noises stay positive diagonals within the limits of their clipping |
| Polynomials.DerivIsSlope | src/MagneticDeclination.cpp:217-254 | the formal derivative used here is the derivative of the polynomial function |
| Polynomials.DerivAtTimesX | src/MagneticDeclination.cpp:217-254 | Leibniz's rule for the n-th derivative of x p |
| Polynomials.DerivNCoef | src/MagneticDeclination.cpp:247 | the n-th derivative multiplies each coefficient by a falling factorial |
| Legendre.BasePowerClosed | src/MagneticDeclination.cpp:244-245 | the coefficients of (x^2 - 1)^l are alternating binomials, the odd ones zero |
| Legendre.FallingIsChoose | src/MagneticDeclination.cpp:211-215 | a falling factorial is the number of combinations times a factorial |
| Legendre.TermIsMonomial | src/MagneticDeclination.cpp:240-248 | each term of the double-binomial sum, times l!, is the monomial of the (l+m)-th derivative |
| Legendre.ChainRule | src/MagneticDeclination.cpp:217-254 | the derivative of (x^2 - 1)^(n+1) is 2 (n + 1) x (x^2 - 1)^n |
| Legendre.RowsAndColumns | src/MagneticDeclination.cpp:183-189 | (1 - x^2) T[n][m+1] = (n+m+1) x T[n][m] - (n-m+1) T[n+1][m] for all n, m and x |
| Legendre.AboveDiagonal | src/MagneticDeclination.cpp:237 | entries with m > l are zero |
| Legendre.OneAtOne | src/MagneticDeclination.cpp:216-260 | every Legendre polynomial is one at one |
| LegendreTable.FallingFactorial | src/MagneticDeclination.cpp:201-209 | the loop computes the falling factorial |
| LegendreTable.Binomial | src/MagneticDeclination.cpp:211-215 | the quotient is exactly the entry of Pascal's triangle, zero outside the range |
| LegendreTable.CombinatorialSum | src/MagneticDeclination.cpp:234-249 | the sum over k, times l!, is the value of the (l+m)-th derivative; every exponent is a natural number |
| LegendreTable.FillRow | src/MagneticDeclination.cpp:231-252 | one row is filled in place, the rows before it stay |
| LegendreTable.Declination.CalculateDerivatives | src/MagneticDeclination.cpp:217-254 | entry (l, m) of the flattened table is the (l+m)-th derivative of (x^2-1)^l over 2^l l!, for all l, m and x |
| Schmidt.FactorsOfNeighbours | src/MagneticDeclination.cpp:166-186 | sqrt((n+1)^2 - m^2) times the Schmidt factor of degree n+1 is (n-m+1) times that of degree n |
| Schmidt.PHatIsSchmidt | src/MagneticDeclination.cpp:159-181 | pHat, with its two cancelling signs, is the Schmidt semi-normalised function of the latitude |
| Schmidt.DPHatIsDerivative | src/MagneticDeclination.cpp:183-189 | dPHatdPhiPrime is the derivative of pHat by the latitude for every degree, order and latitude short of the poles |
| Schmidt.SquaresAddUp | src/MagneticDeclination.cpp:159-181 | the squares of the functions of degree one, and of degree two, add up to one at every latitude |
| BitAlgebra.RemainderUnique | src/crc/crc.c:39-74 | division by a polynomial over GF(2) has one remainder |
| CrcModel.RegisterIsRemainder | src/crc/crc.c:33-65 | the register after a message of n bytes stays in W bits and is the remainder of init x^(8n) + message x^W modulo the generator |
| CrcModel.CcittIsRemainder | microcontroller/serialTest.py:37-49 | the checksum of a message is its remainder, with sixteen ones in front, by x^16 + x^12 + x^5 + 1 |
| CrcModel.MessageBitsAt | src/crc/crc.c:47-57 | the bits of a message in order, from the top of each byte, or from the bottom for a reflected input |
| CrcModel.OutputAt | src/crc/crc.c:67-74 | the checksum is the register, back to front for a reflected output, with the final exclusive or |
| CrcModel.TopByte | src/crc/crc.c:47-56 | a byte entered at the top and advanced eight times equals eight bits fed one by one |
| CrcModel.RunsDiffer | src/crc/crc.c:39-65 | the CRC is affine: two runs differ by the run over the difference |
| Crc.TableLookup | src/crc/crc.c:76-94 | one table lookup replaces eight bit steps |
| Crc.ReflectedLookup | src/crc/crc.c:76-94 | in the reflected configuration the reversed register is looked up by its low byte and shifted right |
| Crc.UnmaskedStep | src/crc/crc.c:87-93 | masking once at the end agrees with masking every bit |
| Crc.ReflectBits | src/crc/crc.c:8-23 | the bit loop reverses the low bits and keeps the others |
| Crc.Engine.WidthMask | src/crc/crc.c:26-31 | the mask has exactly the low W bits |
| Crc.Engine.NextByte | src/crc/crc.c:39-57 | the bit loop takes the register to its successor and keeps it in W bits |
| Crc.Engine.Block | src/crc/crc.c:59-65 | the byte loop extends the message the register has seen |
| Crc.Engine.Result | src/crc/crc.c:67-74 | the final reflection and exclusive or |
| Crc.Engine.Table | src/crc/crc.c:76-94 | the unmasked loop computes the table entry |
| PythonCrc.Crc16CcittFalse | microcontroller/serialTest.py:37-49 | the Python loop computes the engine's checksum for every message |
| CrcDetection.ValidateMessage | src/IMUSerialPortReader.hpp:179-185 | the comparison accepts exactly the messages followed by their checksum |
| CrcDetection.ValidEndsAtZero | src/IMUSerialPortReader.hpp:179-185 | a frame is valid if and only if the register over all of it, checksum included, ends at zero |
| CrcDetection.BurstDetected | src/IMUSerialPortReader.hpp:179-185 | two valid frames of one length that differ only within sixteen consecutive bits are equal |
| CrcDetection.OddDamageDetected | src/IMUSerialPortReader.hpp:179-185 | two valid frames of one length differ in an even number of bits, at any length |
| FrameProtocol.FrameEndsAtZero | microcontroller/main/serial.c:258-267 | the checksum over a frame including its two checksum bytes is zero |
| FrameProtocol.FrameLayout | microcontroller/main/serial.c:251-335 | the start byte 0xA5, the numbers of type and length, and the place of every field on the wire |
| FrameProtocol.FrameDecoded | src/IMUSerialPortReader.cpp:45-147 | a frame at the head of the stream is consumed whole; accelerations and rotation vectors are delivered unchanged, rates and statuses are not |
| FrameProtocol.StreamDecoded | src/IMUSerialPortReader.cpp:45-147 | any firmware messages after any bytes free of 0xA5: exactly the accelerations and rotation vectors are delivered, in order |
| FrameProtocol.CutStreamDecoded | src/IMUSerialPortReader.cpp:45-147 | the same for a transmission cut off anywhere: exactly the understood messages whose frames are whole are delivered, and no call overruns its buffer |
| FrameProtocol.OverrunExactly | src/IMUSerialPortReader.cpp:47-66 | for every stream a call writes behind its 75 bytes if and only if it starts at a start byte with a known type, the length 73 and 73 bytes behind it |
| FrameProtocol.OverrunExample | src/IMUSerialPortReader.cpp:47-66 | the shortest stream that does |
| FrameProtocol.OverrunNeedsHeader | src/IMUSerialPortReader.cpp:47-66 | a whole stream overruns only if it holds such a header somewhere |
| FrameProtocol.DamagedFrameDropped | src/IMUSerialPortReader.cpp:68-73 | a frame damaged within sixteen consecutive bits behind its header is consumed whole and delivers nothing |
| FrameProtocol.StatusesProgress | src/IMUSerialPortReader.cpp:106-123 | over any stream whatsoever each status delivered differs from the one before and is later, and the last one is remembered |
| FrameProtocol.StatusDelivered | src/IMUSerialPortReader.cpp:106-123 | a whole status in the host's numbering is delivered exactly if it differs from the one remembered and is later |
| FrameProtocol.TimestampIs | src/IMUSerialPortReader.cpp:113 | timestamps are read lowest byte first |
| FrameLink.Uart.WriteAll | microcontroller/main/serial.c:178-193 | for any partial writes: on success everything is on the line, on failure a prefix |
| FrameLink.SendStruct | microcontroller/main/serial.c:251-309 | the buffer filled step by step is the frame of the message; a missing message is an error and sends nothing |
| FrameLink.SendFieldwiseAcceleration | microcontroller/main/serial.c:195-219 | copying the fields one by one builds the same frame; a missing message is an error and sends nothing |
| FrameLink.SendFieldwiseRotation | microcontroller/main/serial.c:221-249 | copying the fields one by one builds the same frame; a missing message is an error and sends nothing |
| FrameLink.SendStatus | microcontroller/main/serial.c:311-335 | the status byte and the timestamp make the status frame; a missing status is an error and sends nothing |
| FrameLink.AppendChecksum | microcontroller/main/serial.c:261-264 | the two checksum bytes, high first, follow what is in the buffer |
| FrameLink.SendAll | microcontroller/main/serial.c:178-335 | messages sent in turn put their frames on the line in order, up to a failure a prefix |
| FrameLink.SerialPortReader.ReadExact | src/IMUSerialPortReader.cpp:49-69 | a read takes exactly what it asks for, or fails at the end of the stream, or writes behind its buffer if what it takes does not fit |
| FrameLink.SerialPortReader.Callback | src/IMUSerialPortReader.cpp:45-147 | one call with its buffer of 75 bytes consumes, delivers and remembers what the stream decoder says in every branch, and overruns exactly when that does |
| FrameLink.SerialPortReader.Handle | src/IMUSerialPortReader.cpp:75-142 | the switch by type and length, with the condition on a new status |
| FrameLink.SerialPortReader.Run | src/IMUSerialPortReader.cpp:45-147 | repeated calls deliver what one pass over the whole stream does, up to an overrun |
| FrameLink.Exchange | src/IMUSerialPortReader.cpp:45-147 | from the firmware's sends over the line to the host's callbacks: wherever sending stops, exactly the understood messages whose frames are whole on the line are delivered |
| FrameSplitter.SplitIsParse | microcontroller/serialTest.py:85-117 | skipped bytes, frames and leftover together are the input in order, and the leftover is an incomplete frame |
| FrameSplitter.FrameIsOneToken | microcontroller/serialTest.py:85-117 | the start byte 0xFF, a type, a length, as many bytes and two more are one frame, whatever follows |
| FrameSplitter.ParseUnique | microcontroller/serialTest.py:85-117 | there is no other way to cut a stream into skipped bytes, frames and an incomplete rest |
| FrameSplitter.SplitAppend | microcontroller/serialTest.py:85-117 | splitting a longer stream continues from the leftover of the shorter one |
| FrameSplitter.ChunkingIrrelevant | microcontroller/serialTest.py:143-150 | however the stream is cut into reads, frames and leftover are those of one pass |
| FrameSplitter.Splitter.Find | microcontroller/serialTest.py:87 | the index of the first start byte, or -1 |
| FrameSplitter.Splitter.EmitCompleteFrames | microcontroller/serialTest.py:85-117 | the loop that deletes from the buffer emits the frames of the parse with the right verdict on each checksum, leaves the rest, and ends |
| FrameSplitter.Splitter.ReportCrc | microcontroller/serialTest.py:64-82 | the comparison of the received with the calculated checksum accepts exactly the valid frames |
| FrameSplitter.Splitter.Receive | microcontroller/serialTest.py:149-150 | one read extends the buffer and emits what is complete |
| FrameSplitter.Splitter.ReceiveAll | microcontroller/serialTest.py:143-150 | all reads together emit the frames of the concatenated stream |
| Sh2Service.OneDriver | microcontroller/main/sh2service.c:655-745 | in every state of every schedule at most one of starter, service and recovery drives the device, there is at most one task of each kind, and whoever drives has a queue |
| Sh2Service.StoppedIsStopped | microcontroller/main/sh2service.c:1052-1075 | when stop returns no service, recovery or callback task is live, no flag is set and the queue is gone |
| Sh2Service.StopCanGoOn | microcontroller/main/sh2service.c:1068-1070 | while stop waits for the tasks, the service or the recovery can take a step, or stop need not wait any longer |
| Sh2Service.StopAdvances | microcontroller/main/sh2service.c:1068-1070 | each such step leaves the tasks less to do or restarts the system, no other step leaves them more, and only the service withdraws the request, as it leaves |
| Sh2Service.StopWaitBounded | microcontroller/main/sh2service.c:1068-1070 | under any schedule stop waits for no more than six steps of the tasks |
| Sh2Service.StopCallbackEnds | microcontroller/main/sh2service.c:512-531 | the callback task then leaves without taking another event |
| Sh2Service.AttemptsBounded | microcontroller/main/sh2service.c:702-745 | a recovery makes at most a hundred attempts under any schedule |
| Sh2Service.RecoveryAdvances | microcontroller/main/sh2service.c:702-745 | every step of a recovery brings it nearer its end, and it ends with a new service, a restart or a stop |
| Sh2Service.OnlyAfterAnswer | microcontroller/main/sh2service.c:655-745 | in every state of every schedule with a live service, or a recovery that has come to make one, the device answered when it was last opened, and every live task was created by its last request |
| Sh2Service.OpensCounted | microcontroller/main/sh2service.c:702-745 | in the course of one recovery each failed attempt is counted, and the first answer ends its attempts for good |
| Sh2Service.GivesUpAfterAll | microcontroller/main/sh2service.c:702-745 | a recovery that restarts the system without an answer has seen exactly a hundred attempts fail |
| Sh2Service.RestartsExactly | microcontroller/main/sh2service.c:676-745 | the system is restarted by a failing service without a recovery task, by a recovery without its service task, and after the last attempt of one that is not to stop; by nothing else |
| Sh2Service.SessionSurvives | microcontroller/main/sh2service.c:676-745 | a session neither stopped nor restarted is attended if and only if in its schedule no service failed while the recovery that made it was still waiting |
| Sh2Service.LostIsEarlyFailure | microcontroller/main/sh2service.c:676-680 | the state marks a lost session exactly when the schedule holds such a failure since the session began |
| Sh2Service.EarlyFailureIsLost | microcontroller/main/sh2service.c:676-680 | a schedule in which such a failure leaves the session without service and recovery |
| Sh2Service.EventsInOrder | microcontroller/main/sh2service.c:342-353 | no task replaces, skips or refills the bounded queue while it is in use; that events leave in order is then nearly by construction, the queue being a sequence |
| Sh2Service.AcceptedExactly | microcontroller/main/sh2service.c:342-353 | an event is accepted exactly if somebody drives the device and fewer than 64 accepted ones are still to be taken |
| Sh2Service.ServiceKeeps | microcontroller/main/sh2service.c:890-985 | every step of the service task keeps the invariant of flags and tasks |
| Sh2Service.RecoveryKeeps | microcontroller/main/sh2service.c:702-745 | every step of the recovery task keeps it |
| Sh2Service.ControllerKeeps | microcontroller/main/sh2service.c:988-1075 | every step of start and stop keeps it, failures included |
| Sh2Service.QueueKeeps | microcontroller/main/sh2service.c:421-472 | every step of the callback task and every sensor event keeps it |
| DatabaseWriter.Conserved | src/DatabaseManager.cpp:89-120 | in every interleaving the records queued are the finished batches, the current batch and the queue, in order |
| DatabaseWriter.DatabaseIsCommitted | src/DatabaseManager.cpp:199-291 | the database holds exactly the committed batches in order, and every other one is counted as failed |
| DatabaseWriter.DatabaseIsSchedule | src/DatabaseManager.cpp:199-291 | over any schedule the rows are, in order, the batches at hand at the steps that commit, and the failures counted are the steps that fail; what was queued is what was written, is being written, or waits |
| DatabaseWriter.NothingIsLost | src/DatabaseManager.cpp:89-120 | without a failing transaction everything queued is in the database, in the batch or in the queue, and no failure is counted |
| DatabaseWriter.DepthIsStale | src/DatabaseManager.cpp:45-103 | the reported depth is that of the queue exactly while no swap has emptied it since a record was last queued |
| DatabaseWriter.BatchEmptyAtSwap | src/DatabaseManager.cpp:103-114 | at each swap the batch is empty, so the queue is empty after it |
| DatabaseWriter.DrainedOnStop | src/DatabaseManager.cpp:27-39 | when Stop returns, all that was queued in the schedule before its call has been through a transaction, in order |
| DatabaseWriter.WrittenCounters | src/DatabaseManager.cpp:205-290 | the counters of written records agree with the database exactly when nothing inserted was rolled back |
| DatabaseWriter.RolledBackIsCounted | src/DatabaseManager.cpp:205-290 | a schedule of five steps after which one fix counts as written and the database is empty |
| DatabaseWriter.InertialNeverStored | src/DatabaseManager.cpp:55-73 | only fixes and filter outputs are ever queued or stored |
| DatabaseWriter.ApplyKeeps | src/DatabaseManager.cpp:18-120 | every step of every thread keeps order, phases and counters |
| DatabaseWriter.DatabaseManager.EnqueueGps | src/DatabaseManager.cpp:45-53 | the producer's critical section is the step of the state machine |
| DatabaseWriter.DatabaseManager.EnqueueEkf | src/DatabaseManager.cpp:75-83 | the producer's critical section is the step of the state machine |
| DatabaseWriter.DatabaseManager.SwapBatch | src/DatabaseManager.cpp:94-103 | the writer's critical section is the step of the state machine |
| DatabaseWriter.DatabaseManager.InsertRecords | src/DatabaseManager.cpp:203-281 | the insertion loop counts what it inserted up to a failure |
| DatabaseWriter.DatabaseManager.WriteBatch | src/DatabaseManager.cpp:199-291 | a transaction, in the loop or after it: if it commits the batch is added to the rows and nothing else is, otherwise no row changes and one failure is counted |
| DatabaseWriter.DatabaseManager.SwapLast | src/DatabaseManager.cpp:111-115 | the critical section after the loop is the step of the state machine |
| DatabaseWriter.DatabaseManager.WriterLoop | src/DatabaseManager.cpp:89-120 | the loop and the flush, with any steps of the other threads between the writer's own, make a schedule of the state machine, and come to their end once a stop is requested |
| SensorPairing.FixesIncrease | src/IMUManager.cpp:44-60 | the fixes that reach the filter have strictly increasing timestamps, so none reaches it twice |
| SensorPairing.DispatchesArePaired | src/IMUManager.cpp:62-119 | each dispatch uses the newest acceleration and rotation vector, both stored since the dispatch before it, and a step in (0, 0.5] |
| SensorPairing.NextDispatchCarriesFix | src/IMUManager.cpp:107-116 | over any run: the first dispatch after an accepted fix carries it unless a newer one is accepted before, and every further dispatch until then carries none |
| SensorPairing.EveryDispatchFollowsFix | src/IMUManager.cpp:81-119 | every dispatch recorded is made by one event of the run, and an accepted fix precedes it |
| SensorPairing.HeldUntilReplaced | src/IMUManager.cpp:44-60 | until the next one is accepted a fix is held, and marked as sent exactly from the first dispatch on |
| SensorPairing.AcceptedExactly | src/IMUManager.cpp:44-60 | over any run a fix is accepted, and held after its event, exactly if it is valid, at most five seconds old and newer than every such fix before it |
| SensorPairing.FusedFixIsUsable | src/IMUManager.cpp:44-60 | every fix that reaches the filter came with an event before the dispatch, valid and at most five seconds old |
| SensorPairing.DispatchesExactly | src/IMUManager.cpp:62-119 | an event dispatches exactly if it is a sensor event, a rotation rate has ever come, an acceleration and a rotation vector have come since the last dispatch, and there is a fix to measure with |
| SensorPairing.StepsAddUp | src/IMUManager.cpp:127-143 | over dispatches later than each other by at most half a second the steps of the filter add up to the hardware time that has passed |
| SensorPairing.RateComesFirst | src/IMUManager.cpp:74-79 | without a rotation rate nothing is ever dispatched |
| SensorPairing.Clamped | src/RadarPositionNavigationController.cpp:164-166 | the controller's step width lies in (0, 0.5] |
| SensorPairing.Elapsed | src/IMUManager.cpp:127-143 | the time step is positive even when the unsigned difference wraps |
| SensorPairing.ImuManager.UpdateLatestGps | src/IMUManager.cpp:44-60 | one call is the step of the model, whose acceptance over a run is AcceptedExactly |
| SensorPairing.ImuManager.SensorCallback | src/IMUManager.cpp:62-72 | one callback is the step of the model, and throws exactly when it was ready and dispatched nothing |
| SensorPairing.ImuManager.StoreImuValue | src/IMUManager.cpp:172-191 | stores what is present and sets its flag |
| SensorPairing.ImuManager.DispatchToEkf | src/IMUManager.cpp:81-119 | dispatches and clears two of the three flags, or throws and changes nothing |
| SensorPairing.ImuManager.PrepareEkfTiming | src/IMUManager.cpp:127-143 | the wrapping difference to the older of the two timestamps |
| HostPipeline.FirmwareNeverDispatches | src/IMUManager.cpp:74-79 | whatever the firmware sends and wherever it stops, the host never gets the rotation rate its filter waits for |
| NavigationPipeline.FilterNeverBreaks | src/RadarPositionNavigationController.cpp:153-240 | for any run of events every filter call has the documented shape and the covariances stay positive definite |
| NavigationPipeline.FixAtStartIsExpected | src/IMUManager.cpp:193-196 | a fix at the position the controller has started the filter from has a zero innovation |
| NavigationPipeline.SameMotionIsExpected | src/IMUManager.cpp:198-249 | a motion with the acceleration the filter holds has a zero innovation, whatever its velocity |
| NavigationPipeline.MeasurableIsRotatable | src/utils.hpp:326-343 | the pairing dispatches only with a latitude on the globe and a quaternion that the rotation to true north accepts |
| Rotation.RotateIsMatrix | microcontroller/visualize.py:58-60 | for a unit quaternion q_rotate is multiplication by its matrix |
| Rotation.RotateIsToMatrix | microcontroller/visualize.py:32-38 | q_rotate by the normalised quaternion is multiplication by q_to_R, and a unit quaternion is its own normalisation |
| Rotation.MatricesAgree | src/utils.hpp:344-354 | the C++ matrix and the Python matrix are the same |
| Rotation.RotateComposes | microcontroller/visualize.py:22-30 | rotating by q_mul(a, b) is rotating by b and then by a, for any quaternions |
| Rotation.DeclinationsCompose | src/utils.hpp:359-365 | two turns by declinations are one by their sum, and none is no turn |
| Rotation.QuarterTurn | microcontroller/visualize.py:58-60 | a quarter turn about the vertical turns east to north and north to west |
| Rotation.MulNorm | microcontroller/visualize.py:22-30 | the norm of a product is the product of the norms |
| Rotation.NormalisedIsUnit | microcontroller/visualize.py:11-15 | normalising yields a unit quaternion, also for a vanishing one |
| Rotation.TrueEnuIsRotation | src/utils.hpp:326-368 | the rotation to true east, north and up is the rotation by the unit quaternion and a turn by the declination, and keeps the length of every vector; it is rejected exactly for a norm below 1e-12 |
| Rotation.HeadingIsForwardAxis | src/utils.hpp:307-310 | the two arguments of atan2 are the east and north part of the rotated +Y axis |
| Rotation.DeclinationAdds | src/utils.hpp:359-365 | turning by the declination adds it to the heading |
| Rotation.MagneticToTrueHeading | src/utils.hpp:249-265 | the loops return the same direction in [0, 360), and inputs out of range are rejected |
| Rotation.BisectLeft | microcontroller/visualize.py:64 | the insertion point in a sorted list |
| Rotation.NearestRotation | microcontroller/visualize.py:63-75 | the sample nearest in time over the whole list if one is within the limit, else none |

## Left out

- Floating-point rounding, NaN and infinities: the branch of the membership function for a statistic that is not finite, the `isfinite` tests and the pseudo-inverse fallback of `robust_update` have no counterpart; the constants near 1e-30 and 1e30 are exact.
- Transcendental functions: the cosine of the membership function matters only by its range; sine, cosine and square roots are parameters with their defining equation. At the poles, where the code divides by a vanishing cosine, nothing is stated.
- RobustFilter.Advance: the step widths, noise levels and the decision whether the platform is at rest are inputs of the sample, because only their limits matter to the covariances; the windows they are computed from are not modelled.
- FusionFilter.Fusion.constructor: the process noise passed in is overwritten by the constructor, as in the code, so it does not appear in the state.
- `Clean`, `PushInnovationQ` and the commented-out variants of the filter are not called by the navigation code.
- The controller's reconfiguration after an exception of the filter: in exact arithmetic no step throws.
- Chi-squared quantiles: the bounds of the membership function are arbitrary.
- LegendreTable.Declination.CalculateDerivatives: allocation failure and `free` have no counterpart; the table is a new array.
- `CalculateDeclination` as a whole, its geodetic conversion and the coefficient file.
- FrameLink.SerialPortReader.Callback: what the host does after a call has overrun its buffer is not stated.
- FrameLink.SendAll: it stops at the first send that fails, while the firmware goes on with the next message; what the host makes of frames behind a cut one is not stated.
- The firmware's receiver `process_rx_buffer` and its command frames.
- FrameSplitter.Splitter.EmitCompleteFrames: the grouping of printed hex digits is output only.
- Sh2Service: one external task calls start and stop, one call at a time; calls from the callback itself are left out. Steps end at delays, yields and queue calls, and a request for recovery and the clearing of the flags before it are one step. Sensor values, the count of dropped events, the timer check of start, watchdog and status messages are left out.
- Sh2Service.SessionSurvives: that no service fails within ten milliseconds of its creation is a fact about timing and is not claimed.
- DatabaseWriter: one thread calls Start and Stop; a record, its depth and its counter change in one step although the code increments the counter outside the lock.
- SensorPairing: each callback is one step; the flag that a fix was sent is written outside the lock in the code, so at a finer grain a fix could be lost. The filter's callbacks are taken to return, not to throw.
- SensorPairing.ImuManager.DispatchToEkf: the values of the measurement vectors and the kinetic state are not computed; whether they can be computed is.
- NMEA parsing, configuration files, radar batching, plotting and the recording scripts.
