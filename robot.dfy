/**
  The robot object of the teleoperated mode: the five input latches and the
  intake mode are fields that `TeleopInit` resets and `TeleopPeriodic`
  updates block by block, and every `set` on a mechanism motor is appended to
  `sent`. `TeleopPeriodic` runs the five button blocks, each written as a
  method of its own in `teleopPeriodic`'s order; it is proved to follow the pure
  transition of module Teleop for the program as written.
 */
module Robot {
  import opened Teleop

  class Robot {
    // Input debounces
    var wasIntakeTogglePressed: bool
    var wasDrawbridgeDownPressed: bool
    var wasDrawbridgeUpPressed: bool
    var wasRackAndPinionDownPressed: bool
    var wasRackAndPinionUpPressed: bool

    // Mechanism states
    var isIntakeRunning: bool

    /** Every percent-output command sent to a mechanism motor, oldest first. */
    var sent: seq<Command>

    /** The latch and mode fields as one value. */
    function Snapshot(): State
      reads this
    {
      State(wasIntakeTogglePressed, wasDrawbridgeDownPressed, wasDrawbridgeUpPressed,
            wasRackAndPinionDownPressed, wasRackAndPinionUpPressed, isIntakeRunning)
    }

    /** Start-up: the latch and mode initialisation of robot start-up (the
        hardware construction before it is not modelled). */
    constructor ()
      ensures Snapshot() == Reset && sent == []
    {
      wasIntakeTogglePressed := false;
      wasDrawbridgeDownPressed := false;
      wasDrawbridgeUpPressed := false;
      wasRackAndPinionDownPressed := false;
      wasRackAndPinionUpPressed := false;
      isIntakeRunning := false;
      sent := [];
    }

    /** Session reset: clears every latch and stops the intake mode, whatever
        the state before; sends nothing. */
    method TeleopInit()
      modifies this
      ensures Snapshot() == Reset
      ensures sent == old(sent)
    {
      wasIntakeTogglePressed := false;
      wasDrawbridgeDownPressed := false;
      wasDrawbridgeUpPressed := false;
      wasRackAndPinionDownPressed := false;
      wasRackAndPinionUpPressed := false;

      isIntakeRunning := false;
    }

    /** One teleoperated tick: hands the drive command back, then runs the
        intake, drawbridge-down, drawbridge-up, rack-down and rack-up blocks
        in that order. */
    method TeleopPeriodic(inputs: Inputs) returns (drive: DriveCommand)
      modifies this
      ensures Snapshot() == Next(AsWritten, old(Snapshot()), inputs)
      ensures sent == old(sent) + Commands(AsWritten, old(Snapshot()), inputs)
      ensures isIntakeRunning == old(isIntakeRunning)
      ensures drive == Drive(inputs)
    {
      ghost var before := Snapshot();

      drive := Drive(inputs);

      ghost var sent0 := sent;
      RunIntake(inputs, before);
      DropDrawbridge(inputs, before);
      RaiseDrawbridge(inputs, before);
      DropRackAndPinion(inputs, before);
      RaiseRackAndPinion(inputs, before);

      AppendBlocks(sent0, AsWritten, before, inputs);
      NextAsWritten(before, inputs);
    }

    /** The intake block: on an edge, stop the intake if it is running, else start it. */
    method RunIntake(inputs: Inputs, ghost start: State)
      requires start.wasIntakeTogglePressed == wasIntakeTogglePressed && start.isIntakeRunning == isIntakeRunning
      modifies this`wasIntakeTogglePressed, this`sent
      ensures wasIntakeTogglePressed == inputs.intakeTogglePressed
      ensures sent == old(sent) + Block(AsWritten, start, inputs, IntakeToggle)
    {
      if inputs.intakeTogglePressed {
        if !wasIntakeTogglePressed {
          wasIntakeTogglePressed := true;
          if isIntakeRunning {
            sent := sent + [PercentOutput(Intake, 0.0)];
          } else {
            sent := sent + [PercentOutput(Intake, 1.0)];
          }
        }
      } else {
        wasIntakeTogglePressed := false;
      }
    }

    /** The drawbridge-down block: on an edge, +0.5 unless the lower limit is triggered. */
    method DropDrawbridge(inputs: Inputs, ghost start: State)
      requires start.wasDrawbridgeDownPressed == wasDrawbridgeDownPressed && start.isIntakeRunning == isIntakeRunning
      modifies this`wasDrawbridgeDownPressed, this`sent
      ensures wasDrawbridgeDownPressed == inputs.drawbridgeDownPressed
      ensures sent == old(sent) + Block(AsWritten, start, inputs, DrawbridgeDown)
    {
      if inputs.drawbridgeDownPressed {
        if !wasDrawbridgeDownPressed {
          wasDrawbridgeDownPressed := true;
          if !inputs.drawbridgeDownTriggered {
            sent := sent + [PercentOutput(Drawbridge, 0.5)];
          } else {
            sent := sent + [PercentOutput(Drawbridge, 0.0)];
          }
        }
      } else {
        wasDrawbridgeDownPressed := false;
      }
    }

    /** The drawbridge-up block: on an edge, -0.5 unless the upper limit is triggered. */
    method RaiseDrawbridge(inputs: Inputs, ghost start: State)
      requires start.wasDrawbridgeUpPressed == wasDrawbridgeUpPressed && start.isIntakeRunning == isIntakeRunning
      modifies this`wasDrawbridgeUpPressed, this`sent
      ensures wasDrawbridgeUpPressed == inputs.drawbridgeUpPressed
      ensures sent == old(sent) + Block(AsWritten, start, inputs, DrawbridgeUp)
    {
      if inputs.drawbridgeUpPressed {
        if !wasDrawbridgeUpPressed {
          wasDrawbridgeUpPressed := true;
          if !inputs.drawbridgeUpTriggered {
            sent := sent + [PercentOutput(Drawbridge, -0.5)];
          } else {
            sent := sent + [PercentOutput(Drawbridge, 0.0)];
          }
        }
      } else {
        wasDrawbridgeUpPressed := false;
      }
    }

    /** The rack-and-pinion-down block: on an edge, +0.5 unless the lower limit is triggered. */
    method DropRackAndPinion(inputs: Inputs, ghost start: State)
      requires start.wasRackAndPinionDownPressed == wasRackAndPinionDownPressed && start.isIntakeRunning == isIntakeRunning
      modifies this`wasRackAndPinionDownPressed, this`sent
      ensures wasRackAndPinionDownPressed == inputs.rackAndPinionDownPressed
      ensures sent == old(sent) + Block(AsWritten, start, inputs, RackAndPinionDown)
    {
      if inputs.rackAndPinionDownPressed {
        if !wasRackAndPinionDownPressed {
          wasRackAndPinionDownPressed := true;
          if !inputs.rackAndPinionDownTriggered {
            sent := sent + [PercentOutput(RackAndPinion, 0.5)];
          } else {
            sent := sent + [PercentOutput(RackAndPinion, 0.0)];
          }
        }
      } else {
        wasRackAndPinionDownPressed := false;
      }
    }

    /** The rack-and-pinion-up block as written: on an edge, +0.5 (the same
        sign as down) unless the upper limit is triggered. */
    method RaiseRackAndPinion(inputs: Inputs, ghost start: State)
      requires start.wasRackAndPinionUpPressed == wasRackAndPinionUpPressed && start.isIntakeRunning == isIntakeRunning
      modifies this`wasRackAndPinionUpPressed, this`sent
      ensures wasRackAndPinionUpPressed == inputs.rackAndPinionUpPressed
      ensures sent == old(sent) + Block(AsWritten, start, inputs, RackAndPinionUp)
    {
      if inputs.rackAndPinionUpPressed {
        if !wasRackAndPinionUpPressed {
          wasRackAndPinionUpPressed := true;
          if !inputs.rackAndPinionUpTriggered {
            sent := sent + [PercentOutput(RackAndPinion, 0.5)];
          } else {
            sent := sent + [PercentOutput(RackAndPinion, 0.0)];
          }
        }
      } else {
        wasRackAndPinionUpPressed := false;
      }
    }
  }
}
