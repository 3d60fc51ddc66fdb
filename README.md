# Teleoperated control step of an FRC robot, in Dafny

This project models the teleoperated control step of a competition robot
(`Robot.teleopInit` and `Robot.teleopPeriodic`). Each tick reads five operator
buttons, four limit switches and two stick axes. It passes the stick axes to
the drivetrain with the forward axis inverted. It then runs five button blocks
in a fixed order: intake, drawbridge down, drawbridge up, rack-and-pinion down,
rack-and-pinion up. Each block debounces its button sample against a `was…Pressed`
latch. On a fresh press (an "edge") it sends one percent-output command to its
motor. The four directional blocks send an explicit `0.0` when the limit switch
for their direction is triggered.

- `debounce.dfy` (module `Debounce`): one latch. It gives the per-tick edge
  rule and the edges a latch reports over a run of samples.
- `teleop.dfy` (module `Teleop`): the tick as a pure transition.
  - `Next` gives the new latch and mode state.
  - `Commands` gives the ordered list of commands the tick sends.
  - `LastCommand` gives what a motor holds; `Run` and `RunLog` cover runs of ticks.
  - The lemmas cover edge detection, the interlock, last-write-wins and the
    intake mode.
  - The transition takes a `Variant`: `AsWritten` is the code as it stands;
    `Corrected` repairs the two defects listed under "## Findings".
- `robot.dfy` (module `Robot`): class `Robot`. Its fields are the five latches,
  `isIntakeRunning`, and `sent`, the log of every `set` call on a mechanism
  motor. `TeleopInit` resets the state. `TeleopPeriodic` runs the five blocks as
  written, one method per block, called in source order. It is proved equal to
  `Next` and `Commands` for `AsWritten`.

Command values are the exact reals `-0.5`, `0.0`, `0.5` and `1.0`. The code only
passes these literals, and only negates the forward axis, so no floating-point
rounding is involved. Sign convention: a positive output moves a mechanism down,
since both "drop" blocks send `+0.5` and are guarded by the lower limit.

Three behaviours of the code that the model keeps exactly as written:
- The intake block's branches are commented "Stop the intake" (line 198) and
  "Start the intake" (line 200), and its latch is named `wasIntakeTogglePressed`.
  The block never assigns `isIntakeRunning`, though, so every intake edge sends
  `1.0` (`TwoIntakePressesAsWritten`).
- Each mechanism's down block runs before its up block (lines 208-235 and
  237-265). When both edge on one tick, the motor keeps the up block's command
  (`UpEdgeWins`).
- Both rack-and-pinion blocks send `+0.5` (lines 242 and 257). The drawbridge
  sends `+0.5` down and `-0.5` up (lines 212 and 227).

## Model

| member | source | states |
|---|---|---|
| `Debounce.Debounced` | src/main/java/frc/robot/Robot.java:194-205 | one tick of a latch: an edge fires iff the button is down and the latch is clear; afterwards the latch equals the sample |
| `Debounce.Edges` | src/main/java/frc/robot/Robot.java:194-205 | a latch run over n samples reports exactly one edge flag per tick |
| `Debounce.EdgeAt` | src/main/java/frc/robot/Robot.java:194-205 | edge on tick k iff the sample is true at k and false at k-1 (at k = 0: the latch was clear) |
| `Debounce.LatchFollowsLastSample` | src/main/java/frc/robot/Robot.java:194-205 | after any run the latch equals the last sample (set while held, cleared by any release) |
| `Debounce.HeldPress` | src/main/java/frc/robot/Robot.java:194-205 | a button held for n ticks edges on the first tick only (if the latch was clear) and never again while held |
| `Debounce.Rearm` | src/main/java/frc/robot/Robot.java:203-205 | after any history, a release reports no edge and the next press reports one |
| `Debounce.PressHoldRelease` | src/main/java/frc/robot/Robot.java:194-205 | samples false,false,true,true,false give edges false,false,true,false,false |
| `Teleop.Output` | src/main/java/frc/robot/Robot.java:198-260 | a block's value lies in [-1, 1]; it is 0.0 whenever the limit for its direction is triggered and the requested value otherwise |
| `Teleop.Commands` | src/main/java/frc/robot/Robot.java:193-265 | a tick sends at most five commands, each in [-1, 1] |
| `Teleop.CommandsInLevels` | src/main/java/frc/robot/Robot.java:198-260 | every command a tick sends is one of -0.5, 0.0, 0.5, 1.0 |
| `Teleop.Next` | src/main/java/frc/robot/Robot.java:194-265 | after a tick every latch equals its button's sample; the intake mode changes only on an intake edge and only in the corrected program |
| `Teleop.NextAsWritten` | src/main/java/frc/robot/Robot.java:194-265 | as written, a tick leaves `isIntakeRunning` unchanged |
| `Teleop.Drive` | src/main/java/frc/robot/Robot.java:185-191 | the drive forward argument is the negated Y axis; the rotate argument is the X axis unchanged |
| `Teleop.LastCommandAppend` | src/main/java/frc/robot/Robot.java:208-235 | a motor holds the latest command sent to it; later commands override earlier ones, and a motor they do not address keeps its command |
| `Teleop.TickLast` | src/main/java/frc/robot/Robot.java:208-265 | a tick's last command to each motor is from its up block if that edges, else from its down block (for the intake, its one block) |
| `Teleop.HeldAfterTick` | src/main/java/frc/robot/Robot.java:193-265 | after a tick a motor holds that tick's final command to it, or its previous command if the tick sent it none |
| `Teleop.NoEdgeHoldsCommand` | src/main/java/frc/robot/Robot.java:208-265 | no edge on any block of a motor: the motor keeps its previous command |
| `Teleop.UpEdgeWins` | src/main/java/frc/robot/Robot.java:208-265 | both directions of a mechanism edge on one tick: the up block's value is the motor's final command |
| `Teleop.RequestedDirectionInterlock` | src/main/java/frc/robot/Robot.java:208-265 | an edge whose direction's limit is triggered sends exactly one command, 0.0, to its motor |
| `Teleop.DrawbridgeRespectsLimits` | src/main/java/frc/robot/Robot.java:208-235 | no drawbridge command moves it toward a triggered limit (positive with lower triggered, negative with upper triggered) |
| `Teleop.CorrectedRespectsLimits` | src/main/java/frc/robot/Robot.java:238-265 | with up sending -0.5, no command of a tick moves any mechanism toward a triggered limit |
| `Teleop.RackUpDrivesIntoLowerLimit` | src/main/java/frc/robot/Robot.java:253-260 | as written, with the lower limit triggered and the upper clear, pressing up sends +0.5, which drives toward the triggered lower limit |
| `Teleop.TraceIsEdges` | src/main/java/frc/robot/Robot.java:194-265 | over any run of ticks, each block edges exactly as a lone latch does on its button's samples |
| `Teleop.RunLatchIsLatchAfter` | src/main/java/frc/robot/Robot.java:194-265 | over any run of ticks, each latch field ends where a lone latch fed that button's samples ends |
| `Teleop.RunLatchIsLastSample` | src/main/java/frc/robot/Robot.java:194-265 | after a non-empty run, each latch field holds its button's sample on the last tick |
| `Teleop.HeldButton` | src/main/java/frc/robot/Robot.java:194-265 | a button held through a run of ticks edges on the first tick (if its latch was clear) and on no later tick |
| `Teleop.FirstPressAfterReset` | src/main/java/frc/robot/Robot.java:157-167 | from the reset state, any button held for n >= 1 ticks gives exactly one edge, on the first tick |
| `Teleop.IntakeAlwaysStarts` | src/main/java/frc/robot/Robot.java:194-202 | as written, starting with the intake mode off, the mode stays off and every intake command of any run is 1.0 |
| `Teleop.IntakeModeParity` | src/main/java/frc/robot/Robot.java:194-205 | corrected: after a run the intake mode is the start mode flipped once per intake edge |
| `Teleop.IntakeHeldCommand` | src/main/java/frc/robot/Robot.java:194-205 | corrected: after a run the intake holds 1.0 if running and 0.0 if stopped (nothing if it never edged) |
| `Teleop.TwoIntakePressesAsWritten` | src/main/java/frc/robot/Robot.java:194-205 | as written, press, release, press from reset sends 1.0 then 1.0 |
| `Teleop.TwoIntakePressesCorrected` | src/main/java/frc/robot/Robot.java:194-205 | corrected, the same inputs send 1.0 then 0.0 |
| `Robot.Robot.constructor` | src/main/java/frc/robot/Robot.java:133-141 | start-up clears the five latches and the intake mode; nothing has been sent |
| `Robot.Robot.TeleopInit` | src/main/java/frc/robot/Robot.java:157-167 | whatever the prior state, the latches and the intake mode are all false afterwards, and nothing is sent |
| `Robot.Robot.TeleopPeriodic` | src/main/java/frc/robot/Robot.java:170-266 | the new state is `Next` of the old one; the commands appended are `Commands` of the old state; `isIntakeRunning` is unchanged; the drive arguments are (-Y, X) |
| `Robot.Robot.RunIntake` | src/main/java/frc/robot/Robot.java:193-205 | the intake latch becomes the X-button sample; on an edge appends 0.0 if running, else 1.0; touches nothing else |
| `Robot.Robot.DropDrawbridge` | src/main/java/frc/robot/Robot.java:207-220 | the latch becomes the left-bumper sample; on an edge appends 0.5, or 0.0 if the lower limit is triggered |
| `Robot.Robot.RaiseDrawbridge` | src/main/java/frc/robot/Robot.java:222-235 | the latch becomes the right-bumper sample; on an edge appends -0.5, or 0.0 if the upper limit is triggered |
| `Robot.Robot.DropRackAndPinion` | src/main/java/frc/robot/Robot.java:237-250 | the latch becomes the A-button sample; on an edge appends 0.5, or 0.0 if the lower limit is triggered |
| `Robot.Robot.RaiseRackAndPinion` | src/main/java/frc/robot/Robot.java:252-265 | the latch becomes the Y-button sample; on an edge appends 0.5 (as written), or 0.0 if the upper limit is triggered |

## Findings

| source | as written | input that shows it | evidently intended | confidence | as-written member | corrected member |
|---|---|---|---|---|---|---|
| src/main/java/frc/robot/Robot.java:194-202 | the intake block never assigns `isIntakeRunning` (only lines 141 and 166 do), so every intake edge sends 1.0 and the stop branch is dead | after `teleopInit`: X pressed, released, pressed again; sends 1.0 then 1.0 | flip `isIntakeRunning` on each edge, so the sends are 1.0 then 0.0 | not executed; high (the branches are commented "Stop the intake" and "Start the intake") | `Teleop.IntakeAlwaysStarts` | `Teleop.IntakeHeldCommand` |
| src/main/java/frc/robot/Robot.java:253-260 | rack-and-pinion up sends +0.5, the same value as down (line 242) | lower limit triggered, upper limit clear, Y pressed; sends +0.5 toward the triggered lower limit | send -0.5 on up, as the drawbridge does (line 227) | not executed; medium (this assumes +0.5 means down, as the down block's lower-limit guard implies) | `Teleop.RackUpDrivesIntoLowerLimit` | `Teleop.CorrectedRespectsLimits` |

The class `Robot.Robot` follows the code as written. Both repairs live in the same
transition, `Teleop.Next` and `Teleop.Commands`, selected with `Corrected`. The
corrected behaviour is proved there: `IntakeModeParity`, `IntakeHeldCommand`,
`TwoIntakePressesCorrected` and `CorrectedRespectsLimits`.

## Left out

- Hardware construction in `robotInit`: the CAN motor controllers, drivetrain
  groups, `DigitalInput`s, the Xbox controller and the cameras. This is wiring
  and foreign library calls. Only the latch and mode initialisation is modelled,
  as the constructor.
- How WPILib produces `getXButtonPressed`, `getBumperPressed` and
  `DigitalInput.get()`. These are foreign calls; the model takes them as given
  booleans in `Inputs`.
- The meaning of a "held" button: `getXButtonPressed`, `getYButtonPressed`,
  `getAButtonPressed` and `getBumperPressed` report a press since the last
  call, not whether the button is down. A physically held button therefore
  rarely gives a run of true samples. `HeldPress`, `HeldButton` and
  `FirstPressAfterReset` describe a sample that stays true, not a button
  held down by the operator.
- `DifferentialDrive.arcadeDrive` kinematics and the `double` axis reads. These
  are library numerics. The model records only the two arguments passed, as
  exact reals.
- The `TimedRobot` scheduler and the empty mode hooks (`robotPeriodic`,
  `autonomous*`, `disabled*`, `test*`). They contain no logic.
- `ControlMode.PercentOutput` and motor-controller transport. A `set` call is
  modelled as appending the motor and value to `sent`.
- Robot.Robot.TeleopPeriodic: the five blocks are written as five methods called
  in order instead of inline. This keeps each block's proof small. The
  statements and their order are those of the source.
