/**
  The teleoperated control step as a pure state transition: one tick takes
  the latch/mode state and the tick's samples to the next state and to the
  ordered list of percent-output commands the tick sends. The class in
  module Robot is proved to follow this transition; the lemmas here state
  what it promises over one tick and over a run of ticks.

  Sign convention: a positive percent output moves a directional mechanism
  down (both "drop" blocks send +0.5), a negative one moves it up.
 */
module Teleop {
  import Debounce

  datatype Option<T> = None | Some(value: T)

  /** The three mechanism motors driven in percent-output mode. */
  datatype Motor = Intake | Drawbridge | RackAndPinion

  /** The five debounced operator inputs, one per button block, in block order. */
  datatype Button = IntakeToggle | DrawbridgeDown | DrawbridgeUp | RackAndPinionDown | RackAndPinionUp

  /** The samples one tick reads before acting. */
  datatype Inputs = Inputs(
    intakeTogglePressed: bool,        // X button
    rackAndPinionUpPressed: bool,     // Y button
    rackAndPinionDownPressed: bool,   // A button
    drawbridgeDownPressed: bool,      // left bumper
    drawbridgeUpPressed: bool,        // right bumper
    drawbridgeUpTriggered: bool,      // drawbridge upper limit switch
    drawbridgeDownTriggered: bool,    // drawbridge lower limit switch
    rackAndPinionUpTriggered: bool,   // rack-and-pinion upper limit switch
    rackAndPinionDownTriggered: bool, // rack-and-pinion lower limit switch
    forwardAxis: real,                // left stick Y axis
    rotateAxis: real)                 // left stick X axis

  /** The state the tick keeps between calls: five input latches and the intake mode. */
  datatype State = State(
    wasIntakeTogglePressed: bool,
    wasDrawbridgeDownPressed: bool,
    wasDrawbridgeUpPressed: bool,
    wasRackAndPinionDownPressed: bool,
    wasRackAndPinionUpPressed: bool,
    isIntakeRunning: bool)

  /** The state set at start-up and at the start of every teleoperated session. */
  const Reset := State(false, false, false, false, false, false)

  /** One `set(ControlMode.PercentOutput, output)` call on a mechanism motor. */
  datatype Command = PercentOutput(motor: Motor, output: real)

  /** The arguments of the tick's `arcadeDrive` call. */
  datatype DriveCommand = ArcadeDrive(forward: real, rotate: real)

  /** The program as written, or with its two defects repaired: the intake
      block flips the intake mode on each edge, and rack-and-pinion up sends
      -0.5 instead of the +0.5 that down also sends. */
  datatype Variant = AsWritten | Corrected

  /** Every value any block can send. */
  const Levels: set<real> := {-0.5, 0.0, 0.5, 1.0}

  function Pressed(i: Inputs, b: Button): bool
  {
    match b
    case IntakeToggle => i.intakeTogglePressed
    case DrawbridgeDown => i.drawbridgeDownPressed
    case DrawbridgeUp => i.drawbridgeUpPressed
    case RackAndPinionDown => i.rackAndPinionDownPressed
    case RackAndPinionUp => i.rackAndPinionUpPressed
  }

  function Latched(s: State, b: Button): bool
  {
    match b
    case IntakeToggle => s.wasIntakeTogglePressed
    case DrawbridgeDown => s.wasDrawbridgeDownPressed
    case DrawbridgeUp => s.wasDrawbridgeUpPressed
    case RackAndPinionDown => s.wasRackAndPinionDownPressed
    case RackAndPinionUp => s.wasRackAndPinionUpPressed
  }

  function MotorOf(b: Button): Motor
  {
    match b
    case IntakeToggle => Intake
    case DrawbridgeDown | DrawbridgeUp => Drawbridge
    case RackAndPinionDown | RackAndPinionUp => RackAndPinion
  }

  /** The limit switch guarding the direction a button requests; the intake has none. */
  function LimitTriggered(i: Inputs, b: Button): bool
  {
    match b
    case IntakeToggle => false
    case DrawbridgeDown => i.drawbridgeDownTriggered
    case DrawbridgeUp => i.drawbridgeUpTriggered
    case RackAndPinionDown => i.rackAndPinionDownTriggered
    case RackAndPinionUp => i.rackAndPinionUpTriggered
  }

  /** The output a block asks for before its limit is consulted. */
  function Requested(v: Variant, s: State, b: Button): real
  {
    match b
    case IntakeToggle => if s.isIntakeRunning then 0.0 else 1.0
    case DrawbridgeDown => 0.5
    case DrawbridgeUp => -0.5
    case RackAndPinionDown => 0.5
    case RackAndPinionUp => if v == AsWritten then 0.5 else -0.5
  }

  /** The limit interlock: a triggered limit turns the request into an explicit stop. */
  function Interlock(requested: real, triggered: bool): real
  {
    if triggered then 0.0 else requested
  }

  /** What a block sends when its button edges: a bounded level, and never
      anything but a stop when its direction's limit is triggered. */
  function Output(v: Variant, s: State, i: Inputs, b: Button): (r: real)
    ensures -1.0 <= r <= 1.0
    ensures LimitTriggered(i, b) ==> r == 0.0
    ensures !LimitTriggered(i, b) ==> r == Requested(v, s, b)
  {
    Interlock(Requested(v, s, b), LimitTriggered(i, b))
  }

  /** Whether the block of button b sees an edge on this tick. */
  function Fired(s: State, i: Inputs, b: Button): bool
  {
    Debounce.Debounced(Pressed(i, b), Latched(s, b)).0
  }

  /** The commands one block sends: one on an edge, none otherwise. */
  function Block(v: Variant, s: State, i: Inputs, b: Button): seq<Command>
  {
    if Fired(s, i, b) then [PercentOutput(MotorOf(b), Output(v, s, i, b))] else []
  }

  /** Every command a tick sends is one of the four literals `teleopPeriodic` passes. */
  lemma CommandsInLevels(v: Variant, s: State, i: Inputs)
    ensures forall c :: c in Commands(v, s, i) ==> c.output in Levels
  {
    forall b: Button ensures Output(v, s, i, b) in Levels {
      if !LimitTriggered(i, b) {
        assert Requested(v, s, b) in Levels;
      }
    }
  }

  /** The commands one tick sends, in block order. */
  function Commands(v: Variant, s: State, i: Inputs): (r: seq<Command>)
    ensures |r| <= 5
    ensures forall c :: c in r ==> -1.0 <= c.output <= 1.0
  {
    Block(v, s, i, IntakeToggle) + Block(v, s, i, DrawbridgeDown) + Block(v, s, i, DrawbridgeUp)
      + Block(v, s, i, RackAndPinionDown) + Block(v, s, i, RackAndPinionUp)
  }

  /** Sending the five blocks one after another appends the tick's commands. */
  lemma AppendBlocks(log: seq<Command>, v: Variant, s: State, i: Inputs)
    ensures log + Commands(v, s, i) ==
            log + Block(v, s, i, IntakeToggle) + Block(v, s, i, DrawbridgeDown) + Block(v, s, i, DrawbridgeUp)
              + Block(v, s, i, RackAndPinionDown) + Block(v, s, i, RackAndPinionUp)
  {
  }

  /** The state after one tick: every latch follows its sample, and the
      intake mode flips on an intake edge only in the corrected program. */
  function Next(v: Variant, s: State, i: Inputs): (r: State)
    ensures forall b :: Latched(r, b) == Pressed(i, b)
    ensures r.isIntakeRunning == (s.isIntakeRunning != (v == Corrected && Fired(s, i, IntakeToggle)))
  {
    State(
      Debounce.Debounced(i.intakeTogglePressed, s.wasIntakeTogglePressed).1,
      Debounce.Debounced(i.drawbridgeDownPressed, s.wasDrawbridgeDownPressed).1,
      Debounce.Debounced(i.drawbridgeUpPressed, s.wasDrawbridgeUpPressed).1,
      Debounce.Debounced(i.rackAndPinionDownPressed, s.wasRackAndPinionDownPressed).1,
      Debounce.Debounced(i.rackAndPinionUpPressed, s.wasRackAndPinionUpPressed).1,
      if v == Corrected && Fired(s, i, IntakeToggle) then !s.isIntakeRunning else s.isIntakeRunning)
  }

  /** As written, a tick sets each latch to its sample and leaves the intake mode alone. */
  lemma NextAsWritten(s: State, i: Inputs)
    ensures Next(AsWritten, s, i) ==
            State(i.intakeTogglePressed, i.drawbridgeDownPressed, i.drawbridgeUpPressed,
                  i.rackAndPinionDownPressed, i.rackAndPinionUpPressed, s.isIntakeRunning)
  {
  }

  /** The drive pass-through: the stick's Y axis is inverted, X is passed as is. */
  function Drive(i: Inputs): (d: DriveCommand)
    ensures d.forward == -i.forwardAxis
    ensures d.rotate == i.rotateAxis
  {
    ArcadeDrive(-i.forwardAxis, i.rotateAxis)
  }

  // ---------------------------------------------------------------------
  // The command a motor holds

  /** The most recent command sent to motor m, if any: the motor controller
      keeps applying it until the next one arrives. */
  function LastCommand(log: seq<Command>, m: Motor): Option<real>
  {
    if log == [] then None
    else if log[|log| - 1].motor == m then Some(log[|log| - 1].output)
    else LastCommand(log[..|log| - 1], m)
  }

  /** Later commands override earlier ones; a motor the later ones never
      address keeps the command it had. */
  lemma {:induction false} LastCommandAppend(log: seq<Command>, more: seq<Command>, m: Motor)
    ensures LastCommand(log + more, m) ==
            if LastCommand(more, m).Some? then LastCommand(more, m) else LastCommand(log, m)
  {
    if more == [] {
      assert log + more == log;
    } else {
      assert (log + more)[|log + more| - 1] == more[|more| - 1];
      assert (log + more)[..|log + more| - 1] == log + more[..|more| - 1];
      LastCommandAppend(log, more[..|more| - 1], m);
    }
  }

  /** The command a single block leaves on motor m. */
  function BlockCommandFor(v: Variant, s: State, i: Inputs, b: Button, m: Motor): Option<real>
  {
    if Fired(s, i, b) && MotorOf(b) == m then Some(Output(v, s, i, b)) else None
  }

  lemma BlockLast(v: Variant, s: State, i: Inputs, b: Button, m: Motor)
    ensures LastCommand(Block(v, s, i, b), m) == BlockCommandFor(v, s, i, b, m)
  {
    if Fired(s, i, b) {
      assert Block(v, s, i, b)[..0] == [];
    }
  }

  /** The command a tick leaves on motor m, if it sends it any: the intake's
      own block, and for a directional mechanism its up block if that edges
      (it runs after the down block), else its down block. */
  function TickCommandFor(v: Variant, s: State, i: Inputs, m: Motor): Option<real>
  {
    match m
    case Intake =>
      if Fired(s, i, IntakeToggle) then Some(Output(v, s, i, IntakeToggle)) else None
    case Drawbridge =>
      if Fired(s, i, DrawbridgeUp) then Some(Output(v, s, i, DrawbridgeUp))
      else if Fired(s, i, DrawbridgeDown) then Some(Output(v, s, i, DrawbridgeDown))
      else None
    case RackAndPinion =>
      if Fired(s, i, RackAndPinionUp) then Some(Output(v, s, i, RackAndPinionUp))
      else if Fired(s, i, RackAndPinionDown) then Some(Output(v, s, i, RackAndPinionDown))
      else None
  }

  /** The last command of a tick's list to address motor m is the one the
      block order makes final. */
  lemma TickLast(v: Variant, s: State, i: Inputs, m: Motor)
    ensures LastCommand(Commands(v, s, i), m) == TickCommandFor(v, s, i, m)
  {
    var b0, b1, b2 := Block(v, s, i, IntakeToggle), Block(v, s, i, DrawbridgeDown), Block(v, s, i, DrawbridgeUp);
    var b3, b4 := Block(v, s, i, RackAndPinionDown), Block(v, s, i, RackAndPinionUp);
    BlockLast(v, s, i, IntakeToggle, m);
    BlockLast(v, s, i, DrawbridgeDown, m);
    BlockLast(v, s, i, DrawbridgeUp, m);
    BlockLast(v, s, i, RackAndPinionDown, m);
    BlockLast(v, s, i, RackAndPinionUp, m);
    LastCommandAppend(b0, b1, m);
    LastCommandAppend(b0 + b1, b2, m);
    LastCommandAppend(b0 + b1 + b2, b3, m);
    LastCommandAppend(b0 + b1 + b2 + b3, b4, m);
  }

  /** What a motor holds after a tick: the tick's final command to it if the
      tick sends it one, otherwise the command it held before. */
  lemma HeldAfterTick(v: Variant, s: State, i: Inputs, log: seq<Command>, m: Motor)
    ensures LastCommand(log + Commands(v, s, i), m) ==
            if TickCommandFor(v, s, i, m).Some? then TickCommandFor(v, s, i, m) else LastCommand(log, m)
  {
    TickLast(v, s, i, m);
    LastCommandAppend(log, Commands(v, s, i), m);
  }

  /** No edge on any of a motor's blocks: the motor keeps the command it held. */
  lemma NoEdgeHoldsCommand(v: Variant, s: State, i: Inputs, log: seq<Command>, m: Motor)
    requires forall b :: MotorOf(b) == m ==> !Fired(s, i, b)
    ensures LastCommand(log + Commands(v, s, i), m) == LastCommand(log, m)
  {
    HeldAfterTick(v, s, i, log, m);
    assert !Fired(s, i, IntakeToggle) || m != Intake;
    assert m == Drawbridge ==> !Fired(s, i, DrawbridgeDown) && !Fired(s, i, DrawbridgeUp);
    assert m == RackAndPinion ==> !Fired(s, i, RackAndPinionDown) && !Fired(s, i, RackAndPinionUp);
  }

  /** Both directions of a mechanism edge on one tick: the up block runs
      later, so its command is the one the motor is left holding. */
  lemma UpEdgeWins(v: Variant, s: State, i: Inputs, log: seq<Command>, down: Button, up: Button)
    requires (down, up) == (DrawbridgeDown, DrawbridgeUp) || (down, up) == (RackAndPinionDown, RackAndPinionUp)
    requires Fired(s, i, down) && Fired(s, i, up)
    ensures LastCommand(log + Commands(v, s, i), MotorOf(up)) == Some(Output(v, s, i, up))
  {
    HeldAfterTick(v, s, i, log, MotorOf(up));
  }

  // ---------------------------------------------------------------------
  // Safety of one tick

  /** Interlock per request: an edge whose direction's limit is triggered
      sends exactly one command to its motor, and that command is a stop. */
  lemma RequestedDirectionInterlock(v: Variant, s: State, i: Inputs, b: Button)
    requires Fired(s, i, b) && LimitTriggered(i, b)
    ensures Block(v, s, i, b) == [PercentOutput(MotorOf(b), 0.0)]
  {
  }

  /** A command that moves a directional mechanism toward a limit switch that
      reads triggered (positive is down, negative is up). */
  predicate DrivesIntoLimit(i: Inputs, c: Command)
  {
    match c.motor
    case Intake => false
    case Drawbridge =>
      (c.output > 0.0 && i.drawbridgeDownTriggered) || (c.output < 0.0 && i.drawbridgeUpTriggered)
    case RackAndPinion =>
      (c.output > 0.0 && i.rackAndPinionDownTriggered) || (c.output < 0.0 && i.rackAndPinionUpTriggered)
  }

  /** The drawbridge is never driven into a triggered limit, in either program. */
  lemma DrawbridgeRespectsLimits(v: Variant, s: State, i: Inputs)
    ensures forall c :: c in Commands(v, s, i) && c.motor == Drawbridge ==> !DrivesIntoLimit(i, c)
  {
    assert Commands(v, s, i) == Block(v, s, i, IntakeToggle) + Block(v, s, i, DrawbridgeDown)
      + Block(v, s, i, DrawbridgeUp) + Block(v, s, i, RackAndPinionDown) + Block(v, s, i, RackAndPinionUp);
  }

  /** With rack-and-pinion up sending -0.5, no command of a tick drives any
      mechanism into a triggered limit. */
  lemma CorrectedRespectsLimits(s: State, i: Inputs)
    ensures forall c :: c in Commands(Corrected, s, i) ==> !DrivesIntoLimit(i, c)
  {
    DrawbridgeRespectsLimits(Corrected, s, i);
  }

  /** As written, rack-and-pinion up sends the same +0.5 as down: with the
      lower limit triggered and the upper one clear, pressing up drives the
      rack further down into its triggered lower limit. */
  lemma RackUpDrivesIntoLowerLimit()
    ensures var i := Inputs(false, true, false, false, false, false, false, false, true, 0.0, 0.0);
            Commands(AsWritten, Reset, i) == [PercentOutput(RackAndPinion, 0.5)] &&
            DrivesIntoLimit(i, PercentOutput(RackAndPinion, 0.5))
  {
  }

  // ---------------------------------------------------------------------
  // Runs of ticks

  /** The state after a run of ticks. */
  function Run(v: Variant, s: State, ins: seq<Inputs>): State
    decreases |ins|
  {
    if ins == [] then s else Run(v, Next(v, s, ins[0]), ins[1..])
  }

  /** Every command a run of ticks sends, in order. */
  function RunLog(v: Variant, s: State, ins: seq<Inputs>): seq<Command>
    decreases |ins|
  {
    if ins == [] then [] else Commands(v, s, ins[0]) + RunLog(v, Next(v, s, ins[0]), ins[1..])
  }

  /** Tick by tick, whether button b's block edged during a run. */
  function FiredTrace(v: Variant, s: State, ins: seq<Inputs>, b: Button): (r: seq<bool>)
    decreases |ins|
    ensures |r| == |ins|
  {
    if ins == [] then [] else [Fired(s, ins[0], b)] + FiredTrace(v, Next(v, s, ins[0]), ins[1..], b)
  }

  /** Tick by tick, the raw samples of button b during a run. */
  function Samples(ins: seq<Inputs>, b: Button): (r: seq<bool>)
    ensures |r| == |ins|
    ensures forall k :: 0 <= k < |ins| ==> r[k] == Pressed(ins[k], b)
  {
    seq(|ins|, k requires 0 <= k < |ins| => Pressed(ins[k], b))
  }

  /** Over a run, each block edges exactly as a lone latch would on that
      button's samples: the five debounces do not interfere. */
  lemma {:induction false} TraceIsEdges(v: Variant, s: State, ins: seq<Inputs>, b: Button)
    ensures FiredTrace(v, s, ins, b) == Debounce.Edges(Samples(ins, b), Latched(s, b))
    decreases |ins|
  {
    if ins != [] {
      TraceIsEdges(v, Next(v, s, ins[0]), ins[1..], b);
      assert Samples(ins, b)[1..] == Samples(ins[1..], b);
    }
  }

  /** Over a run, each latch field of the state ends where a lone latch fed
      that button's samples ends. */
  lemma {:induction false} RunLatchIsLatchAfter(v: Variant, s: State, ins: seq<Inputs>, b: Button)
    ensures Latched(Run(v, s, ins), b) == Debounce.LatchAfter(Samples(ins, b), Latched(s, b))
    decreases |ins|
  {
    if ins != [] {
      RunLatchIsLatchAfter(v, Next(v, s, ins[0]), ins[1..], b);
      assert Samples(ins, b)[1..] == Samples(ins[1..], b);
    }
  }

  /** After a non-empty run, every latch field holds the sample of its
      button on the last tick: a release on that tick clears it. */
  lemma RunLatchIsLastSample(v: Variant, s: State, ins: seq<Inputs>, b: Button)
    requires |ins| > 0
    ensures Latched(Run(v, s, ins), b) == Pressed(ins[|ins| - 1], b)
  {
    RunLatchIsLatchAfter(v, s, ins, b);
    Debounce.LatchFollowsLastSample(Samples(ins, b), Latched(s, b));
  }

  /** A button held for a whole run edges once, on the first tick, if its
      latch was clear, and never again while held. */
  lemma HeldButton(v: Variant, s: State, ins: seq<Inputs>, b: Button)
    requires forall k :: 0 <= k < |ins| ==> Pressed(ins[k], b)
    ensures forall k :: 0 <= k < |ins| ==> FiredTrace(v, s, ins, b)[k] == (k == 0 && !Latched(s, b))
  {
    TraceIsEdges(v, s, ins, b);
    Debounce.HeldPress(Samples(ins, b), Latched(s, b));
  }

  /** After the session reset, whatever the state before it, a button held
      for any number of ticks gives exactly one edge, on the first tick. */
  lemma FirstPressAfterReset(v: Variant, ins: seq<Inputs>, b: Button)
    requires |ins| > 0
    requires forall k :: 0 <= k < |ins| ==> Pressed(ins[k], b)
    ensures FiredTrace(v, Reset, ins, b)[0]
    ensures forall k :: 0 < k < |ins| ==> !FiredTrace(v, Reset, ins, b)[k]
  {
    HeldButton(v, Reset, ins, b);
  }

  // ---------------------------------------------------------------------
  // The intake

  /** As written, nothing sets the intake mode, so from the reset state every
      intake edge of every run sends 1.0 and the stop branch is never taken. */
  lemma {:induction false} IntakeAlwaysStarts(s: State, ins: seq<Inputs>)
    requires !s.isIntakeRunning
    ensures !Run(AsWritten, s, ins).isIntakeRunning
    ensures forall c :: c in RunLog(AsWritten, s, ins) && c.motor == Intake ==> c.output == 1.0
    decreases |ins|
  {
    if ins != [] {
      var i := ins[0];
      IntakeAlwaysStarts(Next(AsWritten, s, i), ins[1..]);
      assert Commands(AsWritten, s, i) == Block(AsWritten, s, i, IntakeToggle) + Block(AsWritten, s, i, DrawbridgeDown)
        + Block(AsWritten, s, i, DrawbridgeUp) + Block(AsWritten, s, i, RackAndPinionDown) + Block(AsWritten, s, i, RackAndPinionUp);
    }
  }

  function CountTrue(bs: seq<bool>): nat
  {
    if bs == [] then 0 else (if bs[0] then 1 else 0) + CountTrue(bs[1..])
  }

  /** Corrected, the intake is a toggle: after a run its mode is the starting
      mode flipped once per intake edge. */
  lemma {:induction false} IntakeModeParity(s: State, ins: seq<Inputs>)
    ensures Run(Corrected, s, ins).isIntakeRunning ==
            (s.isIntakeRunning != (CountTrue(FiredTrace(Corrected, s, ins, IntakeToggle)) % 2 == 1))
    decreases |ins|
  {
    if ins != [] {
      var s' := Next(Corrected, s, ins[0]);
      IntakeModeParity(s', ins[1..]);
      assert FiredTrace(Corrected, s, ins, IntakeToggle)[1..] == FiredTrace(Corrected, s', ins[1..], IntakeToggle);
    }
  }

  /** Corrected, the command the intake holds after a run is 1.0 while the
      intake is running and 0.0 while it is stopped (none if it never edged). */
  lemma {:induction false} IntakeHeldCommand(s: State, ins: seq<Inputs>)
    ensures LastCommand(RunLog(Corrected, s, ins), Intake) ==
            if CountTrue(FiredTrace(Corrected, s, ins, IntakeToggle)) == 0 then None
            else Some(if Run(Corrected, s, ins).isIntakeRunning then 1.0 else 0.0)
    decreases |ins|
  {
    if ins != [] {
      var i := ins[0];
      var s' := Next(Corrected, s, i);
      var rest := ins[1..];
      IntakeHeldCommand(s', rest);
      IntakeModeParity(s', rest);
      HeldAfterTick(Corrected, s, i, [], Intake);
      assert [] + Commands(Corrected, s, i) == Commands(Corrected, s, i);
      LastCommandAppend(Commands(Corrected, s, i), RunLog(Corrected, s', rest), Intake);
      assert FiredTrace(Corrected, s, ins, IntakeToggle)[1..] == FiredTrace(Corrected, s', rest, IntakeToggle);
    }
  }

  /** Two separate presses of the intake toggle from the reset state: as
      written, the intake is started twice. */
  lemma TwoIntakePressesAsWritten()
    ensures var press := Inputs(true, false, false, false, false, false, false, false, false, 0.0, 0.0);
            var release := press.(intakeTogglePressed := false);
            RunLog(AsWritten, Reset, [press, release, press]) ==
              [PercentOutput(Intake, 1.0), PercentOutput(Intake, 1.0)]
  {
    var press := Inputs(true, false, false, false, false, false, false, false, false, 0.0, 0.0);
    var release := press.(intakeTogglePressed := false);
    var held := Reset.(wasIntakeTogglePressed := true);
    assert [press][1..] == [] && [release, press][1..] == [press];
    assert Next(AsWritten, Reset, press) == held;
    assert Next(AsWritten, held, release) == Reset;
    assert Commands(AsWritten, Reset, press) == [PercentOutput(Intake, 1.0)];
    assert Commands(AsWritten, held, release) == [];
    assert RunLog(AsWritten, Reset, [press]) == [PercentOutput(Intake, 1.0)];
    assert RunLog(AsWritten, held, [release, press]) == [PercentOutput(Intake, 1.0)];
  }

  /** The same two presses with the toggle corrected: the intake is started
      and then stopped. */
  lemma TwoIntakePressesCorrected()
    ensures var press := Inputs(true, false, false, false, false, false, false, false, false, 0.0, 0.0);
            var release := press.(intakeTogglePressed := false);
            RunLog(Corrected, Reset, [press, release, press]) ==
              [PercentOutput(Intake, 1.0), PercentOutput(Intake, 0.0)]
  {
    var press := Inputs(true, false, false, false, false, false, false, false, false, 0.0, 0.0);
    var release := press.(intakeTogglePressed := false);
    var running := Reset.(wasIntakeTogglePressed := true, isIntakeRunning := true);
    var armed := Reset.(isIntakeRunning := true);
    assert [press][1..] == [] && [release, press][1..] == [press];
    assert Next(Corrected, Reset, press) == running;
    assert Next(Corrected, running, release) == armed;
    assert Commands(Corrected, Reset, press) == [PercentOutput(Intake, 1.0)];
    assert Commands(Corrected, running, release) == [];
    assert Commands(Corrected, armed, press) == [PercentOutput(Intake, 0.0)];
    assert RunLog(Corrected, armed, [press]) == [PercentOutput(Intake, 0.0)];
    assert RunLog(Corrected, running, [release, press]) == [PercentOutput(Intake, 0.0)];
  }
}
