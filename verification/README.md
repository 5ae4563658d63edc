# Arctos motion core in Dafny

A model of the motion core of the Arctos robot-arm GUI: the servo
controller, the trajectory planner, the kinematic model wrapper, the
program (path) planner, the homing routines, the Cartesian speed
controller, the keyboard and joint helpers, the settings store and the
settings-page handlers that write what the core reads, and the retired
stand-alone CAN homing script. Every operation is a pure function over
immutable data; where the source talks to hardware, the model returns the
servo calls (or CAN frames) it would make, in order.

One Dafny module per source file:

| module | file |
|---|---|
| `ArctosController` | `src/core/ArctosController.py` |
| `TrajectoryPlanner` | `src/core/TrajectoryPlanner.py` |
| `ArctosPinocchio` | `src/core/ArctosPinocchio.py` |
| `PathPlanner` | `src/core/PathPlanner.py` |
| `Homing` | `src/core/homing.py` |
| `SpeedController` | `src/core/speed_controller.py` |
| `Utils` | `src/utils/utils.py` |
| `SettingsManager` | `src/utils/settings_manager.py` |
| `HandlerFactories` | `src/pages/settings/handler_factories.py` |
| `HomingTab` | `src/pages/settings/tabs/homing_tab.py` |
| `DialogHelpers` | `src/pages/settings/dialog_helpers.py` |
| `HomeRobot` | `Backup/Unused/home_robot.py` |

Shared support modules model the Python the code relies on: `Wrappers`
(`Option`, `Result`), `PyOps` (`int()` truncation, `math.ceil`, clamping,
negative list indexing, the exception kinds), `Text` (`strip`, `split`,
`int()` and `float()` on strings), `Values` (the dynamically typed values
a YAML settings file holds), `Sorting` (Python's `sorted` on numbers and
strings) and `Servo` (the servo driver calls as records).

Modelling choices:

- Floating-point numbers are `real`s (exact arithmetic); `math.pi` is the
  decimal literal of the double it denotes.
- The cosine easing of the trajectory, the `** 0.8` speed curve, forward
  kinematics, the inverse-kinematics solver and the speed controller's
  Jacobian pseudo-inverse are parameters; the first two come with the
  properties the model needs of them (the easing fixes 0 and 1 and maps
  `[0, 1]` into itself; the curve maps `[0, 1]` into itself).
- Encoder readings, RPM readings, file contents, directory listings and
  whether a CAN port was found are parameters.
- Exceptions the source raises or catches are `Result` values naming the
  Python exception (`ValueError`, `TypeError`, `IndexError`, ...).
- The settings keys are kept exactly as written. The homing routine and the
  reset dialog use `joint_acceleration` while the joints tab and the
  calibration jog use `joint_accelerations`, so the two sides never see
  each other's values (`Homing.SavedAccelerationsIgnored`,
  `DialogHelpers.ResetKeepsJogAccelerations`).

## Model

| member | source | states |
|---|---|---|
| ArctosController.SignedRatios | src/core/ArctosController.py:78-79 | each gear ratio carries its joint's direction sign: unchanged without an entry, negated for -1 |
| ArctosController.DirectionTable | src/core/ArctosController.py:69-79 | with no ratios nothing is looked up; otherwise a table without `.get` raises AttributeError and a non-numeric entry TypeError; a usable table is a dictionary whose `get(i, 1)` is a number for every index, and the model's table agrees with it entry by entry |
| ArctosController.SignValues | src/core/ArctosController.py:78-79 | the comprehension succeeds exactly when the ratios are a list of numbers and, unless there are none, the directions a dictionary with a number for every index; ratio i is then stored ratio i times `directions.get(i, 1)`; a non-dictionary table raises AttributeError, anything else TypeError |
| ArctosController.SignedEntries | src/core/ArctosController.py:78-79 | numeric ratios with a usable direction table are signable, and each signed ratio is the stored ratio times the stored direction |
| ArctosController.DefaultRatiosValue | src/core/ArctosController.py:67 | the built-in ratio list read back as numbers is the controller's default ratios |
| ArctosController.InitGearRatios | src/core/ArctosController.py:66-79 | with the stored (or built-in) ratios and the stored (or all-positive) directions, construction succeeds exactly when the comprehension can run; ratio i is base ratio i times `directions.get(i, 1)`; the failure is AttributeError for a table without `.get` and TypeError otherwise |
| ArctosController.InitGearRatiosDefaults | src/core/ArctosController.py:66-79 | without settings, or with settings lacking ratios and directions, or holding the default ratios with all-positive directions, the controller uses the built-in ratios unchanged |
| ArctosController.UnitSignValues | src/core/ArctosController.py:71-79 | all-positive directions keep any list of numbers as it is |
| ArctosController.InitAgreesWithSetGearRatios | src/core/ArctosController.py:383-389 | construction and `set_gear_ratios` sign alike: the controller starts with exactly the ratios `set_gear_ratios` derives from the stored ratios and table |
| ArctosController.UnitDirectionTable | src/core/ArctosController.py:71-79 | the all-positive direction table succeeds and leaves every ratio with the sign +1 |
| ArctosController.SetGearRatios | src/core/ArctosController.py:383-389 | new ratios are signed exactly as at construction; without a table they are taken as given |
| ArctosController.AngleToEncoder | src/core/ArctosController.py:103-119 | the encoder count lies within one count of the exact value and never exceeds it in magnitude (truncation toward zero) |
| ArctosController.EncoderToAngle | src/core/ArctosController.py:121-134 | the angle returned is the one whose exact encoder count is the given count |
| ArctosController.EncoderRoundTrip | src/core/ArctosController.py:103-134 | counts to radians and back to counts is the identity |
| ArctosController.AngleRoundTrip | src/core/ArctosController.py:103-134 | radians to counts and back loses less than the angle of one count |
| ArctosController.CoupledTargets | src/core/ArctosController.py:228-236 | in coupled mode axes 4 and 5 receive the sum and difference of the wrist angles; otherwise the angles are unchanged |
| ArctosController.MoveToAngles | src/core/ArctosController.py:182-262 | wrong angle count is ValueError; a scalar speed or acceleration is TypeError; otherwise each axis with ratio, speed, acceleration and servo gets one absolute move with clamped speed and acceleration and the encoder count of its (coupled) target |
| ArctosController.AxisCommand | src/core/ArctosController.py:246-255 | an axis worker commands its own servo exactly when every list it indexes has an entry, with speed in [0, 3000] and acceleration in [0, 255] |
| ArctosController.MoveToAnglesBroadcast | src/core/ArctosController.py:182-221 | with a scalar applied to every joint, six angles always succeed and, with six ratios and servos, every axis is commanded |
| ArctosController.Broadcast | src/core/ArctosController.py:200-207 | a scalar stands for the same value on all six joints; a list is used as given |
| ArctosController.DefaultSpeedsNeverMove | src/core/ArctosController.py:186-221 | a call with the default speed and acceleration fails with TypeError, while the broadcasting version commands all six axes at acceleration 150 |
| ArctosController.ReadEncoderWithFallback | src/core/ArctosController.py:267-277 | a failed or empty encoder read counts as 0 |
| ArctosController.FirstBadRatio | src/core/ArctosController.py:291-296 | the first servo index past the ratio list or with a zero ratio; every servo before it has a non-zero ratio |
| ArctosController.GetJointAngles | src/core/ArctosController.py:279-298 | one angle per servo whose encoder count is the (fallback) reading; the servos are converted in order, so any zero ratio among the servos' indices raises ZeroDivisionError, and otherwise a missing ratio raises IndexError |
| ArctosController.EmergencyStop | src/core/ArctosController.py:392-407 | every servo receives the stop command once, in order |
| ArctosController.SafeEmergencyStop | src/core/ArctosController.py:409-448 | above 1000 RPM each servo with a known speed decelerates to zero in its own direction and unknown ones are skipped; otherwise every servo gets the plain stop |
| ArctosController.SafeStopNeverAccelerates | src/core/ArctosController.py:433-448 | every command of the safe stop is a deceleration to zero or a stop, addressed to its own servo |
| TrajectoryPlanner.ValidateJointAngles | src/core/TrajectoryPlanner.py:41-54 | a target is valid exactly when it has the current configuration's length and passes the joint-limit check |
| TrajectoryPlanner.MaxOf | src/core/TrajectoryPlanner.py:58 | the result bounds every element and is one of them |
| TrajectoryPlanner.SpeedFactors | src/core/TrajectoryPlanner.py:56-60 | every joint's speed factor lies in [0.5, 1] |
| TrajectoryPlanner.SpeedFactor | src/core/TrajectoryPlanner.py:58-60 | one factor lies in [0.5, 1] and is 1 for the largest travel |
| TrajectoryPlanner.FastestJointAtFullSpeed | src/core/TrajectoryPlanner.py:56-60 | the joint that travels furthest moves at full speed |
| TrajectoryPlanner.Capped | src/core/TrajectoryPlanner.py:69-77 | `min(cap, int(x))` never exceeds the cap, equals the truncation when that fits, and is non-negative for non-negative input |
| TrajectoryPlanner.CalculateSpeeds | src/core/TrajectoryPlanner.py:62-78 | one speed per joint, never above 3000, from the number, the per-joint list or the default 500, boosted 1.5 and scaled by the factor |
| TrajectoryPlanner.CalculateAccelerations | src/core/TrajectoryPlanner.py:80-96 | one acceleration per joint, never above 255; a single number is boosted and capped before scaling |
| TrajectoryPlanner.CommandsInServoRange | src/core/TrajectoryPlanner.py:62-96 | with non-negative bases every speed is in [0, 3000] and every acceleration in [0, 255] |
| TrajectoryPlanner.MaxJointDelta | src/core/TrajectoryPlanner.py:102-103 | the largest per-joint travel bounds every joint's travel and is attained by one |
| TrajectoryPlanner.StepCount | src/core/TrajectoryPlanner.py:107-114 | a move has between 10 and 75 waypoints, one per degree of the largest travel |
| TrajectoryPlanner.Waypoint | src/core/TrajectoryPlanner.py:116-122 | the first waypoint is exactly the start and the last exactly the target |
| TrajectoryPlanner.WaypointBetween | src/core/TrajectoryPlanner.py:116-122 | every waypoint lies componentwise between start and target |
| TrajectoryPlanner.GenerateSmoothTrajectory | src/core/TrajectoryPlanner.py:98-124 | a tiny move is just start and target; otherwise the step count's eased waypoints; always from exactly start to exactly target |
| TrajectoryPlanner.TrajectoryStaysBetween | src/core/TrajectoryPlanner.py:98-124 | no waypoint overshoots start or target on any joint |
| TrajectoryPlanner.EncoderValues | src/core/TrajectoryPlanner.py:147-151 | a waypoint's first six angles become the controller's encoder counts |
| TrajectoryPlanner.MoveJointsFrom | src/core/TrajectoryPlanner.py:168-184 | exactly the joints with a servo that travel more than 1e-4 rad are sent an absolute move with their speed, acceleration and count, in joint order |
| TrajectoryPlanner.OnlyMovingJointsCommanded | src/core/TrajectoryPlanner.py:176-184 | no still joint and no joint without a servo is commanded |
| TrajectoryPlanner.FirstInvalid | src/core/TrajectoryPlanner.py:141-144 | finds the first waypoint outside the limits; all earlier ones pass |
| TrajectoryPlanner.ExecuteJointMovement | src/core/TrajectoryPlanner.py:126-166 | succeeds exactly when every waypoint passes the limit check; sends the commands of every waypoint before the first failing one and nothing after |
| TrajectoryPlanner.SentThroughStep | src/core/TrajectoryPlanner.py:139-160 | the commands of one more waypoint are appended after those already sent |
| TrajectoryPlanner.JointTravel | src/core/TrajectoryPlanner.py:226 | each joint's travel is the non-negative difference between target and current angle |
| TrajectoryPlanner.SentCount | src/core/TrajectoryPlanner.py:192-260 | the waypoints sent are those before the first one outside the limits, all of them when none is |
| TrajectoryPlanner.MoveLinearJointsSmooth | src/core/TrajectoryPlanner.py:192-260 | a rejected target sends nothing; the result is true exactly when the target is accepted and every waypoint is within limits; an accepted target sends the commands of the waypoints up to the first one outside the limits, with the speeds and accelerations derived from each joint's travel, followed by one wait for the motors |
| ArctosPinocchio.FirstViolation | src/core/ArctosPinocchio.py:100-111 | finds the first of the six joints outside its limits, or none when all are within |
| ArctosPinocchio.CheckJointLimits | src/core/ArctosPinocchio.py:89-113 | true exactly when each of the first six joints lies in its closed limit interval |
| ArctosPinocchio.LimitsIgnoreTail | src/core/ArctosPinocchio.py:100 | joints after the sixth never change the verdict |
| ArctosPinocchio.Display | src/core/ArctosPinocchio.py:139-148 | a configuration outside the limits raises ValueError and changes nothing; one inside becomes the state with its forward-kinematics pose |
| ArctosPinocchio.InstantDisplayState | src/core/ArctosPinocchio.py:115-137 | the state never changes; a configuration outside the limits raises ValueError, one inside raises AttributeError at the missing visualiser |
| ArctosPinocchio.Interpolate | src/core/ArctosPinocchio.py:153-154 | frame 0 is the start and frame `steps` the target |
| ArctosPinocchio.Frames | src/core/ArctosPinocchio.py:152-154 | the loop produces `steps + 1` frames from start to target |
| ArctosPinocchio.InterpolateBetween | src/core/ArctosPinocchio.py:153-154 | every frame lies componentwise between start and target |
| ArctosPinocchio.ConvexBetween | src/core/ArctosPinocchio.py:154 | a convex combination of two numbers lies between them |
| ArctosPinocchio.AnimateFrom | src/core/ArctosPinocchio.py:152-156 | the animation completes exactly when every frame is displayed; otherwise it ends with ValueError |
| ArctosPinocchio.AnimationShowsOnlyValidFrames | src/core/ArctosPinocchio.py:150-156 | every displayed frame passes the limit check, an early stop is caused by the next frame failing it, and the state ends at the last frame shown |
| ArctosPinocchio.Broadcast | src/core/ArctosPinocchio.py:153 | a one-element target stands for that value at every joint; any other is used as given |
| ArctosPinocchio.AnimateDisplay | src/core/ArctosPinocchio.py:150-156 | negative steps show nothing whatever the target, zero steps divide by zero, a target that neither matches nor broadcasts raises ValueError, otherwise up to `steps + 1` frames are shown and the animation completes exactly when all are |
| ArctosPinocchio.BroadcastAnimationReachesValue | src/core/ArctosPinocchio.py:150-156 | a completed animation toward a one-element target leaves every joint at that value, having shown only frames within the limits |
| ArctosPinocchio.CompletedAnimationReachesTarget | src/core/ArctosPinocchio.py:150-156 | a completed animation starts where the robot was, shows only valid configurations and leaves the target stored |
| ArctosPinocchio.SetJointAnglesAnimated | src/core/ArctosPinocchio.py:158-169 | the target is stored at once, without a limit check, and the end-effector pose is left as it was |
| ArctosPinocchio.GetCurrentJointAngles | src/core/ArctosPinocchio.py:223-232 | the first six joints of the stored configuration |
| ArctosPinocchio.InverseKinematics | src/core/ArctosPinocchio.py:282-285 | the solver's answer is returned exactly when it passes the limit check, otherwise ValueError |
| PathPlanner.NumberArray | src/core/PathPlanner.py:90-93 | a numeric list becomes a JSON array of the same numbers |
| PathPlanner.NormaliseName | src/core/PathPlanner.py:145-150 | the file name always ends in `.json`, appended only when missing |
| PathPlanner.NormaliseIdempotent | src/core/PathPlanner.py:145-150 | normalising twice is normalising once |
| PathPlanner.SelectFile | src/core/PathPlanner.py:178-183 | a non-empty program name selects its normalised file; otherwise the current file stays |
| PathPlanner.SaveProgram | src/core/PathPlanner.py:130-160 | the file name switches first; the poses never change; the result is the file system's |
| PathPlanner.LoadProgram | src/core/PathPlanner.py:162-208 | a list of objects replaces the poses and reports success; anything else empties the poses and reports failure |
| PathPlanner.Init | src/core/PathPlanner.py:44-50 | the given or default file name, with the poses loading it yields |
| PathPlanner.SaveLoadRoundTrip | src/core/PathPlanner.py:130-208 | loading what a save wrote restores the same poses |
| PathPlanner.ProgramFiles | src/core/PathPlanner.py:65-69 | exactly the `.json` entries, each as often as listed |
| PathPlanner.GetAvailablePrograms | src/core/PathPlanner.py:52-69 | the `.json` entries in sorted order, or nothing when the directory cannot be listed |
| PathPlanner.CapturePose | src/core/PathPlanner.py:71-98 | exactly one pose holding the current joints and position is appended; earlier poses are kept |
| PathPlanner.DeletePose | src/core/PathPlanner.py:100-128 | a valid index removes that pose and keeps the order of the rest; any other index changes nothing |
| PathPlanner.CaptureThenDelete | src/core/PathPlanner.py:71-128 | capturing a pose and deleting it again restores the program |
| PathPlanner.JointsOf | src/core/PathPlanner.py:233 | a pose has joints iff its `joints` entry is a flat numeric list, and they are that list's numbers in order |
| PathPlanner.PadTo | src/core/PathPlanner.py:236-238 | short joint vectors are zero-padded to the model size; the given joints are kept |
| PathPlanner.ExecutedConfig | src/core/PathPlanner.py:233-245 | a pose is executed exactly when its padded joints pass the limit check |
| PathPlanner.MoveCalls | src/core/PathPlanner.py:254-255 | a raising move sends nothing, not even the wait; otherwise the wait comes last |
| PathPlanner.Commanded | src/core/PathPlanner.py:254 | the calls sent are exactly the commands present in the axis slots |
| PathPlanner.Accepted | src/core/PathPlanner.py:230-245 | each pose's executed configuration, if any, at least as long as the model |
| PathPlanner.VisitFrom | src/core/PathPlanner.py:230-261 | only accepted poses are executed, in increasing order; the pose of the end effector is untouched |
| PathPlanner.VisitExecutesAcceptedPoses | src/core/PathPlanner.py:230-261 | a run executes exactly the accepted poses |
| PathPlanner.VisitEndsAtLastExecutedPose | src/core/PathPlanner.py:248 | the robot ends at the configuration of the last executed pose |
| PathPlanner.RunProgram | src/core/PathPlanner.py:226-261 | the poses executed are exactly the accepted ones, in order; the robot ends at the last of them; an empty program does nothing |
| PathPlanner.ExecutePath | src/core/PathPlanner.py:210-262 | as written, the simulated robot runs the accepted poses while no servo call is made |
| PathPlanner.ExecutePathBroadcast | src/core/PathPlanner.py:210-262 | with a broadcasting move, each executed pose is followed by exactly one wait |
| PathPlanner.ExecutePathSendsNothing | src/core/PathPlanner.py:254-261 | every move raises on the default arguments and skips the wait |
| PathPlanner.BroadcastPathWaitsPerPose | src/core/PathPlanner.py:254-255 | one wait per executed pose |
| Homing.Reverse | src/core/homing.py:21 | the homing sequence is the motor list backwards |
| Homing.ReadConfig | src/core/homing.py:62-64 | each of the three maps is the stored setting, or an empty map when missing |
| Homing.RawTarget | src/core/homing.py:71-94 | homing targets the zero position plus the axis offset, sleeping targets the sleep position, both times 100; a non-dictionary offset map raises |
| Homing.Plan | src/core/homing.py:85-94 | go home, wait, absolute move, wait, and for homing the set-zero call |
| Homing.Issue | src/core/homing.py:85-98 | a driver fault cuts the plan short and raises; otherwise the plan is issued whole |
| Homing.AxisStep | src/core/homing.py:66-98 | an axis without a servo raises before any call; every call is a wait or addressed to that axis |
| Homing.Sweep | src/core/homing.py:66-98 | only axes of the sweep can fail, and each issues at most five calls |
| Homing.MoveToZeroPose | src/core/homing.py:45-100 | at most 30 calls, failures only among axes 1-6 |
| Homing.MoveToSleepPose | src/core/homing.py:103-149 | at most 24 calls, failures only among axes 1-6 |
| Homing.SleepSweepBound | src/core/homing.py:122-147 | the sleep routine issues at most four calls per axis |
| Homing.HomingSequenceVisitsEachAxisOnce | src/core/homing.py:18-21 | the axes are visited 6 down to 1, each motor exactly once |
| Homing.HealthyStep | src/core/homing.py:66-98 | a well-formed axis with a servo and no fault issues its full plan |
| Homing.HealthyAxisIsHomed | src/core/homing.py:66-98 | such an axis is homed, moved to its zero target at its speed and acceleration (defaults 500 and 150) and zeroed, whatever other axes do |
| Homing.CleanSweep | src/core/homing.py:66-98 | without faults a sweep issues exactly the full plans of its axes in order |
| Homing.HomingWithoutFaults | src/core/homing.py:45-100 | a clean homing run issues the plans of axes 6 down to 1 and nothing fails |
| Homing.SleepWithoutFaults | src/core/homing.py:103-149 | a clean sleep run issues the plans of axes 6 down to 1 and nothing fails |
| Homing.CleanRoutine | src/core/homing.py:66 | the sweep over the homing sequence issues the six plans in sequence order |
| Homing.PlansOfSixToOne | src/core/homing.py:21 | the plans of the sequence 6..1 concatenate in that order |
| Homing.SleepNeverZeroes | src/core/homing.py:122-147 | the sleep routine never declares a zero and only moves to raw position 0 |
| Homing.SleepStep | src/core/homing.py:127-142 | one sleep step neither zeroes nor moves anywhere but raw 0 |
| Homing.DefaultAccelerationStep | src/core/homing.py:77 | with no acceleration map a step moves at acceleration 150 |
| Homing.SavedAccelerationsIgnored | src/core/homing.py:64 | whatever is stored under `joint_accelerations`, homing moves at acceleration 150 |
| SpeedController.ClipToInt | src/core/speed_controller.py:38-39 | the clipped integer lies in [0, hi], is the truncation inside the range and the bound outside it |
| SpeedController.New | src/core/speed_controller.py:24-52 | the limits are clipped, the active axes are a sorted permutation of those given (all six by default), and the target and records start at zero |
| SpeedController.DefaultConstruction | src/core/speed_controller.py:24-52 | the default controller has acceleration 20, limit 3000 and all six axes |
| SpeedController.Fill | src/core/speed_controller.py:69-72 | a three-vector is taken as is, a single value repeated, anything else rejected |
| SpeedController.SetTargetPose | src/core/speed_controller.py:69-72 | only the target changes; a full pose replaces it, a malformed part leaves its half untouched |
| SpeedController.Command | src/core/speed_controller.py:135-138 | the commanded rpm lies within the limit |
| SpeedController.CommandSaturates | src/core/speed_controller.py:135-138 | below the limit the rpm is the truncated magnitude, at or above it the limit; the direction follows the velocity's sign |
| SpeedController.Commands | src/core/speed_controller.py:134-138 | one command per active axis with a velocity, each within the limit |
| SpeedController.Emit | src/core/speed_controller.py:134-146 | only active axes' records change; every call is a speed command for an active axis at the default acceleration |
| SpeedController.EmitRecords | src/core/speed_controller.py:145-146 | afterwards each axis's record holds the command just computed for it |
| SpeedController.EmitSendsChanges | src/core/speed_controller.py:139-142 | an axis is sent its command exactly when it differs from the last one sent |
| SpeedController.EmitRepeatSendsNothing | src/core/speed_controller.py:139-146 | repeating the same commands sends nothing |
| SpeedController.MatchingRecordsSendNothing | src/core/speed_controller.py:139-140 | commands equal to the records send nothing and change nothing |
| SpeedController.LoopStep | src/core/speed_controller.py:83-148 | only the records change; without velocities nothing is sent; every call is for an active axis within the limit |
| SpeedController.Scatter | src/core/speed_controller.py:129-131 | inactive axes keep their value, active axes get their velocity |
| SpeedController.QdotFull | src/core/speed_controller.py:129-131 | the full velocity vector is zero off the active axes and the given velocity on them |
| SpeedController.ZeroFrom | src/core/speed_controller.py:156-164 | active axes' records become 0 and exactly the moving ones are sent a zero-speed command |
| SpeedController.SendZeroVelocity | src/core/speed_controller.py:156-164 | every active axis that was moving is stopped once; the records of active axes become 0 |
| SpeedController.SendZeroVelocityTwice | src/core/speed_controller.py:156-164 | stopping twice sends nothing the second time |
| Utils.Decouple | src/utils/utils.py:572-584 | the wrist pair is recovered so that its sum and difference are the encoder B and C |
| Utils.DecoupleInvertsCoupling | src/utils/utils.py:572-584 | decoupling undoes the controller's coupled mixing |
| Utils.CouplingInvertsDecouple | src/utils/utils.py:572-584 | mixing the decoupled joints gives back the encoder joints |
| Utils.InitializeCurrentJointStates | src/utils/utils.py:565-584 | short inputs raise; otherwise the first six joints mix back to the encoder reading and the rest are kept |
| Utils.SetJointAnglesFromGui | src/utils/utils.py:440-457 | each filled input replaces its joint in radians, empty ones and later joints are kept; fewer than six inputs, or a value for a joint the robot lacks, raise IndexError, and nothing else fails |
| Utils.ResetToZeroPosition | src/utils/utils.py:459-466 | the first six joints become zero and the rest are kept |
| Utils.ToggleKeyboardControl | src/utils/utils.py:479-491 | the flag flips; switching off forgets the held keys |
| Utils.ToggleTwice | src/utils/utils.py:479-491 | toggling twice restores the flag and, from active, releases every key |
| Utils.StepSize | src/utils/utils.py:510 | the input's step when set and non-zero, else 0.002 |
| Utils.Axis | src/utils/utils.py:512-523 | +1, -1 or 0 for a pair of opposing keys |
| Utils.Nudged | src/utils/utils.py:512-523 | each axis moves by one step towards its held key; opposing keys cancel |
| Utils.OpposingKeysCancel | src/utils/utils.py:512-523 | holding no key, or both of every pair, leaves the position unchanged |
| Utils.AdjustPosition | src/utils/utils.py:493-531 | nothing happens when inactive; otherwise the nudged position is requested and the state is left unchanged |
| Utils.Press | src/utils/utils.py:538-544 | a press adds the key, a release removes it, nothing changes while inactive |
| Utils.OnKey | src/utils/utils.py:534-546 | the key set is updated before the position is adjusted for it |
| Utils.PressRelease | src/utils/utils.py:541-544 | pressing and releasing a new key leaves the key set as it was |
| SettingsManager.Load | src/utils/settings_manager.py:38-47 | a missing, empty or null file yields the defaults, otherwise the file's mapping |
| SettingsManager.Get | src/utils/settings_manager.py:82-85 | the stored value wins, then the caller's non-None default, then the built-in default, then None |
| SettingsManager.Set | src/utils/settings_manager.py:94 | afterwards the key reads as the new value and every other key as before |
| SettingsManager.All | src/utils/settings_manager.py:97-117 | exactly the stored keys, each with the value `get` gives |
| SettingsManager.FreshStoreReadsDefaults | src/utils/settings_manager.py:18-47 | without a usable file every key reads as the built-in defaults |
| HandlerFactories.DirectionValue | src/pages/settings/handler_factories.py:27-37 | "Inverted" is -1, "Normal" 1, integers, booleans (as 0/1), floats and integer text through `int()`, anything else 1 |
| HandlerFactories.NumberValue | src/pages/settings/handler_factories.py:39-43 | the integer value (booleans as 0/1, floats truncated, integer text parsed), or 0 for None and anything `int()` rejects |
| HandlerFactories.JointHandler | src/pages/settings/handler_factories.py:26-46 | only entry `idx` of the joint map changes and no other setting; a non-mapping raises TypeError |
| HandlerFactories.FirstEditStartsFromDefault | src/pages/settings/handler_factories.py:44 | with nothing stored, the edit starts from the default map |
| HandlerFactories.DirectionChoiceReachesController | src/pages/settings/handler_factories.py:27-44 | choosing Inverted or Normal sets that joint's sign in the controller's table and leaves the others |
| HandlerFactories.ControllerRatios | src/pages/settings/handler_factories.py:66 | `set_gear_ratios` succeeds exactly when the list holds numbers and the directions are absent or usable; the derived ratios are the stored list times each joint's direction, AttributeError for a table without `.get`, TypeError otherwise |
| HandlerFactories.StoreRatio | src/pages/settings/handler_factories.py:63-66 | an index outside the stored list raises and stores nothing; otherwise only that entry changes |
| HandlerFactories.RatioHandler | src/pages/settings/handler_factories.py:62-67 | a stored value that is not a list raises TypeError before the input is read; an empty or zero input stores 0; a non-numeric one raises before storing; a number is stored as typed |
| HandlerFactories.UnitDirectionsKeepTypedRatio | src/pages/settings/handler_factories.py:62-67 | with positive directions the controller takes the typed ratio as is |
| HandlerFactories.AxisIndex | src/pages/settings/handler_factories.py:90 | the 0-based index of the selection's last word, IndexError for a blank selection, ValueError for a non-number |
| HandlerFactories.LastWordAfterSpace | src/pages/settings/handler_factories.py:90 | a word after a space is the last word |
| HandlerFactories.AxisLabelRoundTrip | src/pages/settings/handler_factories.py:90 | the selection of axis n parses to index n - 1 |
| HandlerFactories.AxisLabelLastWord | src/pages/settings/handler_factories.py:90 | the last word of axis n's selection is n |
| HandlerFactories.ServoAt | src/pages/settings/handler_factories.py:91 | a servo exists for an index within the list (negative indices from the end), else IndexError |
| HandlerFactories.OnHome | src/pages/settings/handler_factories.py:89-92 | the selected axis's servo goes home |
| HandlerFactories.AxisIndexFacts | src/pages/settings/handler_factories.py:90 | every axis label parses to its index |
| HandlerFactories.JogAmount | src/pages/settings/handler_factories.py:95 | an empty or zero step jogs by nothing; a number, a boolean or integer text by its integer value times the direction; other text raises ValueError and a container TypeError |
| HandlerFactories.OnMove | src/pages/settings/handler_factories.py:93-100 | a relative move of the selected servo by the jog amount |
| HandlerFactories.JogMove | src/pages/settings/handler_factories.py:96-98 | the move goes to the servo the index names and carries the jog amount as its offset |
| HandlerFactories.JogWithoutSavedSettings | src/pages/settings/handler_factories.py:96-98 | with nothing saved the jog runs at speed 500 and acceleration 150 |
| HandlerFactories.OnSave | src/pages/settings/handler_factories.py:101-107 | the reading (0 when missing) is stored under the selected index; other offsets and settings are kept |
| HandlerFactories.SaveOfLabelledAxis | src/pages/settings/handler_factories.py:101-106 | saving axis n stores the reading under key n - 1 |
| HandlerFactories.SavedOffsetUsedByHoming | src/pages/settings/handler_factories.py:101-106 | the offset saved with the selection "Axis n" is the one homing adds to axis n's zero position |
| HandlerFactories.StoredOffsetTarget | src/core/homing.py:71-73 | a stored numeric offset shifts the axis's zero target by that amount |
| HomingTab.Sequence | src/pages/settings/tabs/homing_tab.py:16-21 | axes 1-4 in coupled mode, 1-6 otherwise, each at its 1-based position |
| HomingTab.DisplayOffsets | src/pages/settings/tabs/homing_tab.py:49-51 | one entry per shown axis, the stored offset of the 0-based key or 0; a non-mapping raises |
| HomingTab.ZeroBased | src/pages/settings/tabs/homing_tab.py:58 | the 0-based keys of the listed 1-based axes |
| HomingTab.SaveMap | src/pages/settings/tabs/homing_tab.py:58 | exactly the shown axes of the table, keyed 0-based |
| HomingTab.EditOffset | src/pages/settings/tabs/homing_tab.py:53-61 | the edited value is stored and the other shown axes keep theirs; no other setting changes |
| HomingTab.EditKeepsSequence | src/pages/settings/tabs/homing_tab.py:16-59 | an edit does not change which axes are shown |
| HomingTab.DisplayAfterEdit | src/pages/settings/tabs/homing_tab.py:49-59 | reading back what an edit saved gives the edited table |
| HomingTab.SameEntries | src/pages/settings/tabs/homing_tab.py:51-58 | tables with the same axes and entries are equal |
| HomingTab.CoupledEditDropsWristOffsets | src/pages/settings/tabs/homing_tab.py:20-21 | in coupled mode an edit removes the offsets of joints 5 and 6 |
| HomingTab.HiddenAxisNotStored | src/pages/settings/tabs/homing_tab.py:58 | an axis not shown has nothing stored after an edit |
| HomingTab.AxisOptions | src/pages/settings/tabs/homing_tab.py:109 | each option parses back to its axis's index |
| HomingTab.LabelsRoundTrip | src/pages/settings/tabs/homing_tab.py:109 | every option label parses to its axis's index |
| HomingTab.OptionsSelectTheirServo | src/pages/settings/tabs/homing_tab.py:109-136 | each option homes the servo of its own axis |
| DialogHelpers.RotateTicks | src/pages/settings/dialog_helpers.py:51 | the truncated count of a quarter turn at the given ratio |
| DialogHelpers.RotateIsQuarterTurn | src/pages/settings/dialog_helpers.py:51 | the wizard's turn is the controller's encoder count for 90 degrees |
| DialogHelpers.Rotate | src/pages/settings/dialog_helpers.py:47-52 | the selected servo turns by the quarter-turn count at speed 300 and acceleration 150 |
| DialogHelpers.NewRatio | src/pages/settings/dialog_helpers.py:62 | the new ratio times the measured angle equals the old ratio times 90 |
| DialogHelpers.ExactTurnKeepsRatio | src/pages/settings/dialog_helpers.py:62 | measuring exactly 90 degrees keeps the ratio |
| DialogHelpers.RatioMovesAgainstError | src/pages/settings/dialog_helpers.py:62 | overshooting lowers a positive ratio, undershooting raises it |
| DialogHelpers.SaveRatio | src/pages/settings/dialog_helpers.py:55-69 | a bad selection raises, no measurement does nothing, a numeric measurement always recalibrates, and the stored ratio is NewRatio of the measurement |
| DialogHelpers.SaveMeasured | src/pages/settings/dialog_helpers.py:61-67 | a zero measurement raises ZeroDivisionError; any other gives a ratio that times the measurement equals the old ratio times 90, stored at the axis |
| DialogHelpers.MissingRatioListRaises | src/pages/settings/dialog_helpers.py:63-64 | without a stored ratio list the new ratio cannot be stored and IndexError results |
| DialogHelpers.SetAll | src/pages/settings/dialog_helpers.py:94 | keys not written read as before |
| DialogHelpers.SetAllLastWins | src/pages/settings/dialog_helpers.py:94 | every written key holds the last value written for it |
| DialogHelpers.Reset | src/pages/settings/dialog_helpers.py:93-105 | keys the dialog does not list read as before |
| DialogHelpers.ResetWritesListedValues | src/pages/settings/dialog_helpers.py:94-103 | every listed key holds its listed value |
| DialogHelpers.ResetEntries | src/pages/settings/dialog_helpers.py:96-102 | speeds 500, accelerations 150, directions 1, offsets 0 and the built-in ratios are stored |
| DialogHelpers.ResetRatiosAreDefaults | src/pages/settings/dialog_helpers.py:102 | the reset ratio list equals the controller's built-in ratios |
| DialogHelpers.ResetRestoresControllerRatios | src/pages/settings/dialog_helpers.py:94-103 | after a reset the controller starts from its built-in ratios with positive directions |
| DialogHelpers.ResetHomesToFactoryZero | src/pages/settings/dialog_helpers.py:94-103 | after a reset homing drives every axis to its factory zero at speed 500 and acceleration 150 |
| DialogHelpers.ZeroOffsetsKeepFactoryZero | src/pages/settings/dialog_helpers.py:101 | zero offsets leave each axis at its factory zero |
| DialogHelpers.ResetKeepsJogAccelerations | src/pages/settings/dialog_helpers.py:97 | the reset leaves the accelerations the calibration jog reads unchanged |
| HomeRobot.Checksum | Backup/Unused/home_robot.py:14-16 | a byte congruent to the sum modulo 256 |
| HomeRobot.Frame | Backup/Unused/home_robot.py:42-52 | command, data and a checksum over id, command and data, addressed to the motor |
| HomeRobot.Unframe | Backup/Unused/home_robot.py:44-48 | a receiver only accepts intact frames |
| HomeRobot.FrameRoundTrip | Backup/Unused/home_robot.py:44-48 | a frame as sent reads back as its command and data |
| HomeRobot.SumUpdate | Backup/Unused/home_robot.py:16 | changing one entry changes the sum by the difference |
| HomeRobot.SingleByteErrorDetected | Backup/Unused/home_robot.py:14-16 | corrupting any one byte before the checksum is detected |
| HomeRobot.HomeFrame | Backup/Unused/home_robot.py:61-62 | the home frame is `[0x91, (id + 0x91) & 0xFF]` |
| HomeRobot.SetZeroFrame | Backup/Unused/home_robot.py:92 | the set-zero frame is `[0x92, (id + 0x92) & 0xFF]` |
| HomeRobot.BareCommandChecksum | Backup/Unused/home_robot.py:44-48 | a frame without data carries the command and its checksum |
| HomeRobot.BigEndian | Backup/Unused/home_robot.py:80-81 | k bytes, each a byte |
| HomeRobot.FromBigEndianBounds | Backup/Unused/home_robot.py:80-81 | k bytes read as a number lie below 256^k |
| HomeRobot.BigEndianValue | Backup/Unused/home_robot.py:80-81 | reading back the low k bytes gives n modulo 256^k |
| HomeRobot.BigEndianOfValue | Backup/Unused/home_robot.py:80-81 | bytes read as a number and written back are the same bytes |
| HomeRobot.ToBytes | Backup/Unused/home_robot.py:80-81 | a value that does not fit raises OverflowError; otherwise k bytes |
| HomeRobot.ToBytesRoundTrip | Backup/Unused/home_robot.py:80-81 | decoding what was written gives the number back |
| HomeRobot.FromBytesRoundTrip | Backup/Unused/home_robot.py:80-81 | every byte string is what is written for the number it decodes to |
| HomeRobot.AbsPosition | Backup/Unused/home_robot.py:72-73 | the truncated radians times ratio times 100; an id outside the ratio list raises |
| HomeRobot.PositionFrame | Backup/Unused/home_robot.py:77-84 | eight bytes: command, speed 500, mode, the signed position that decodes back to the target, and the checksum; an out-of-range position raises |
| HomeRobot.MoveToPosition | Backup/Unused/home_robot.py:67-93 | the position frame twice, then set-zero |
| Text.DecimalNotation | Backup/Unused/home_robot.py:38 | a position written with a decimal point (`0.5`, `3.`) reads as its whole part plus its fraction |
| Text.UnsignedDecimalPoint | Backup/Unused/home_robot.py:38 | digits, a point and digits form an unsigned decimal of that value, with no exponent |
| Text.FloatOfNegated | Backup/Unused/home_robot.py:38 | a minus sign in front of an unsigned decimal (`-0.5`) negates the value `float` reads |
| Text.ScientificNotation | Backup/Unused/home_robot.py:38 | a position written in scientific notation (`1e-05`, `15e3`) reads as its digits scaled by that power of ten |
| HomeRobot.ParseLine | Backup/Unused/home_robot.py:36-39 | a line splitting into exactly two parts gives an entry iff the id parses as an integer and the position as a float, and raises ValueError when either does not; other lines are skipped |
| HomeRobot.ReadLines | Backup/Unused/home_robot.py:35-40 | earlier entries stay; failures are ValueError |
| HomeRobot.ReadLinesSnoc | Backup/Unused/home_robot.py:35-39 | reading one more line acts on the result of the earlier lines |
| HomeRobot.ReadTargetPositions | Backup/Unused/home_robot.py:27-40 | without a file every motor's target is 0; an empty file gives no targets |
| HomeRobot.LaterLineOverrides | Backup/Unused/home_robot.py:39 | a later line for the same motor overrides the earlier one |
| HomeRobot.MalformedLineIgnored | Backup/Unused/home_robot.py:37 | a line without exactly one `=` changes nothing |
| HomeRobot.WrittenLineReadsBack | Backup/Unused/home_robot.py:36-39 | the line `k=n` reads back as k mapped to n |
| HomeRobot.LineReadsBack | Backup/Unused/home_robot.py:36-39 | `k=text` reads back as k mapped to what `float` reads from the text, for any text without `=` or surrounding whitespace |
| HomeRobot.DecimalLineReadsBack | Backup/Unused/home_robot.py:36-39 | a fractional position `k=ddd.ddd` reads back as k mapped to that value |
| HomeRobot.NoEqualsInNumber | Backup/Unused/home_robot.py:36 | a number's text has no `=` and no surrounding whitespace |
| HomeRobot.MotorFrames | Backup/Unused/home_robot.py:113-116 | four frames for one motor, starting with its home frame |
| HomeRobot.Plans | Backup/Unused/home_robot.py:113-116 | one plan per motor, each successful one four frames long |
| HomeRobot.FirstFailure | Backup/Unused/home_robot.py:113-116 | the first motor whose frames cannot be built; all before it can |
| HomeRobot.Drive | Backup/Unused/home_robot.py:113-116 | without a failure four frames per motor; a failure stops after the failing motor's home frame with its error |
| HomeRobot.DriveSendsBlocks | Backup/Unused/home_robot.py:113-116 | every motor before the first failure has its four frames sent in order |
| HomeRobot.MoveToZeroPose | Backup/Unused/home_robot.py:96-118 | without a port nothing is sent; an unreadable file raises before sending; a clean run sends 12 frames |
| HomeRobot.MoveToSleepPose | Backup/Unused/home_robot.py:120-147 | no port sends nothing; a zero-pose run that fails is returned unchanged; a clean run sends the zero pose's twelve frames and then homes motors 2 and 3 |
| HomeRobot.MissingFileDrivesToZero | Backup/Unused/home_robot.py:29-31 | without a target file motors 3, 2, 1 are homed, sent to position 0 twice and zeroed |
| HomeRobot.UnsetTarget | Backup/Unused/home_robot.py:115 | a motor without a target is sent to encoder position 0 |

## Left out

- Hardware I/O: the CAN bus, serial port discovery, the servo driver, the thread pool and its futures, and every `time.sleep`. The model returns the calls or frames that would go out.
- The user interface: widget layout, notifications, log messages and the text they show.
- The Pinocchio model: forward kinematics and the inverse-kinematics solver are parameters, and the orientation-error wrap inside the solver is not modelled.
- The speed controller's joint reading, forward kinematics, pose error (with its angle wrap), Jacobian and pseudo-inverse: the joint velocities of one pass are a parameter, and a singular Jacobian is the pass without velocities.
- The speed controller's `start` and `stop`, its thread, lock and loop pacing: `stop` is modelled only through `SendZeroVelocity`.
- The gear-ratio wizard's `get_current_ratio` callback and every encoder read are parameters.
- YAML parsing and writing: a settings file is modelled as already parsed, and writes are not modelled.
- JSON parsing and writing in the path planner: a program file is modelled as parsed or failed.
- HandlerFactories.StoreRatio: `list()` of a stored string or mapping would produce a list of characters or keys; the model treats any non-list as a TypeError.
- HandlerFactories.RatioHandler: as for `StoreRatio`, a stored string or mapping is a TypeError rather than a list of characters or keys.
- ArctosController.SignValues: a text ratio or direction times an integer repeats the text in Python (`"2" * 1` is `"2"`) instead of failing; the model treats every non-number as a TypeError. The same holds for `InitGearRatios` and `HandlerFactories.ControllerRatios`.
- ArctosController.InitGearRatios: a stored ratio collection that is not a list (a string, a mapping) is enumerated by Python; the model treats it as a TypeError.
- ArctosController.MoveToAngles: `speed_scale` and `coupled_axis_mode` (ArctosController.py lines 219 and 224-226) are parameters rather than settings lookups; a controller built without a settings store keeps `settings_manager = None`, on which that lookup raises AttributeError, which the model does not produce.
- ArctosPinocchio.SetJointAnglesAnimated: the source starts `animate_display` in a thread and then assigns the target; the thread's copy of the start configuration races with that assignment, and the end-effector updates of its frames interleave with later calls. The model runs the animation from the configuration it is given, after the fact.
- ArctosPinocchio.AnimateDisplay: broadcasting is modelled for a one-element target only; numpy scalars and other broadcastable shapes are not.
- HomeRobot.ParseLine: `float()` and `int()` also accept `inf`, `nan`, underscores between digits and non-ASCII digits; the model reads plain ASCII decimal text with an optional exponent and rejects these. `str.strip()` and `float()` also treat the Unicode spaces U+1680, U+2000 to U+200A, U+2028, U+2029, U+202F, U+205F and U+3000 as whitespace; the model's whitespace is the ASCII and Latin-1 set only.
- HomeRobot.ReadTargetPositions: as for `ParseLine`, `inf`, `nan`, underscores and non-ASCII digits in a position file are rejected rather than read.
- ArctosController.EncoderToAngle: a zero gear ratio raises `ZeroDivisionError` in the source; the function requires a non-zero ratio, and `GetJointAngles` models the error.
- TrajectoryPlanner.SpeedFactors: `x ** 0.8` is a parameter that maps [0, 1] into itself, so only the bounds of the factors are stated, not their exact values.
- TrajectoryPlanner.GenerateSmoothTrajectory: the cosine easing is a parameter that fixes 0 and 1, so waypoints are stated between the ends, not at their exact values.
- TrajectoryPlanner.MoveLinearJointsSmooth: exceptions inside the source's `try` block, caught at its end, cannot arise in the model.
- HandlerFactories.JogMove: the source passes the stored speed and acceleration straight to the servo driver; the model's TypeError for a non-numeric value is an assumption about how that driver reacts.
- Homing.Sweep: which driver call raises is a parameter (`faults`); the exception text is not modelled.
- Floating-point rounding: all arithmetic is exact.

## Findings

| source | as written | input that shows it | evidently intended | confidence | as-written member | corrected member |
|---|---|---|---|---|---|---|
| src/core/ArctosController.py:220-221 | the speed and acceleration lists are built by iterating over `speeds` and `acceleration`, whose defaults are the integers 500 and 150 | `move_to_angles([0.0] * 6)`, as `execute_path` calls it: iterating over the integer 500 raises TypeError, so no servo is commanded and the wait after it is skipped | a scalar applies to every joint, as the docstring at lines 200-207 describes | high; not executed | ArctosController.DefaultSpeedsNeverMove | ArctosController.MoveToAnglesBroadcast |
| src/core/PathPlanner.py:254-255 | each accepted pose calls `move_to_angles` with the defaults, which raises, and the `except` at line 260 swallows it | any program with a pose inside the joint limits: the model robot moves, the arm does not | each accepted pose moves the arm and then waits for the motors | high; not executed | PathPlanner.ExecutePathSendsNothing | PathPlanner.BroadcastPathWaitsPerPose |
