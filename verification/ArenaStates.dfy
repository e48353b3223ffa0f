/** The match controller, ArenaStates.h and the Tick methods of ArenaStates.cpp.

    The state machine owns one animation object at a time; a tick of that object reads the buttons and
    the clock and may replace it.  Times are exact seconds on a steady clock. */
module ArenaStates {
  // Delays, counted from a press or from the start of a phase.
  const PRE_STAGING_DELAY: real := 1.5
  const STAGING_DELAY: real := 3.5
  const PRE_COUNTDOWN: real := 7.0
  const COUNTDOWN: real := 3.0
  const MATCH: real := 120.0

  /** A time point that starts out as the end of time. */
  datatype Latch = Never | At(time: real) {
    /** `now < latch`. */
    predicate After(now: real) {
      Never? || now < time
    }

    /** `now - latch > limit`; before a latch at the end of time every duration is negative. */
    predicate OlderThan(now: real, limit: real) {
      At? && now - time > limit
    }
  }

  datatype Phase = PreStaging | Staging | PreCountdown | Countdown | Fighting | Paused | End

  /** The animation objects, with the fields their ticks use. */
  datatype Animation =
    | PreStagingAnim(startingTime: Latch)
    | StagingAnim(redStart: Latch, blueStart: Latch)
    | PreCountdownAnim(start: real)
    | XmasTree(start: real)
    | FightingAnim(start: real, end: real)
    | PausedAnim(releasedPause: bool)
    | EndAnim
  {
    function Phase(): Phase {
      match this
      case PreStagingAnim(_) => PreStaging
      case StagingAnim(_, _) => Staging
      case PreCountdownAnim(_) => PreCountdown
      case XmasTree(_) => Countdown
      case FightingAnim(_, _) => Fighting
      case PausedAnim(_) => Paused
      case EndAnim => End
    }
  }

  datatype Buttons = Buttons(red: bool, blue: bool, ref: bool, reset: bool)

  /** The clock readings of one tick, in the order they are taken; `construct` is the one a new animation
      takes. */
  datatype Clock = Clock(first: real, second: real, third: real, construct: real) {
    predicate Steady() {
      first <= second <= third <= construct
    }
  }

  /** A cast to an integer: toward zero. */
  function Truncate(x: real): int {
    if x >= 0.0 then x.Floor else -((-x).Floor)
  }

  /** The seconds a fight lasts that starts with this much time remaining: whole milliseconds. */
  function Allotted(timeRemaining: real): real {
    Truncate(timeRemaining * 1000.0) as real / 1000.0
  }

  function GetAnimation(phase: Phase, timeRemaining: real, now: real): Animation {
    match phase
    case PreStaging => PreStagingAnim(Never)
    case Staging => StagingAnim(Never, Never)
    case PreCountdown => PreCountdownAnim(now)
    case Countdown => XmasTree(now)
    case Fighting => FightingAnim(now, now + Allotted(timeRemaining))
    case Paused => PausedAnim(false)
    case End => EndAnim
  }

  datatype Machine = Machine(anim: Animation, timeRemaining: real)

  /** The machine after one tick.  A tick goes on with the fields of the object it started in, whatever
      it has been replaced by, and the last replacement stands: a pause prevails over a tap-out in the
      same tick, a reset over a resume. */
  function Ticked(m: Machine, b: Buttons, c: Clock): Machine {
    match m.anim
    case PreStagingAnim(startingTime) =>
      var pressed := if startingTime.After(c.first) && b.ref then At(c.first) else startingTime;
      if pressed.OlderThan(c.second, PRE_STAGING_DELAY)
      then Machine(StagingAnim(Never, Never), MATCH)
      else m.(anim := PreStagingAnim(pressed))
    case StagingAnim(redStart, blueStart) =>
      var red := if redStart.After(c.first) && b.red then At(c.first) else redStart;
      var blue := if blueStart.After(c.first) && b.blue then At(c.first) else blueStart;
      if red.OlderThan(c.second, STAGING_DELAY) && blue.OlderThan(c.third, STAGING_DELAY)
      then m.(anim := PreCountdownAnim(c.construct))
      else m.(anim := StagingAnim(red, blue))
    case PreCountdownAnim(start) =>
      if c.first - start > PRE_COUNTDOWN then m.(anim := XmasTree(c.construct)) else m
    case XmasTree(start) =>
      if c.first - start > COUNTDOWN
      then m.(anim := FightingAnim(c.construct, c.construct + Allotted(m.timeRemaining)))
      else m
    case FightingAnim(start, end) =>
      if b.ref then Machine(PausedAnim(false), end - c.second)
      else if b.red || b.blue then m.(anim := EndAnim)
      else m
    case PausedAnim(releasedPause) =>
      var released := releasedPause || !b.ref;
      if b.reset && released then m.(anim := PreStagingAnim(Never))
      else if b.ref && released then m.(anim := XmasTree(c.construct))
      else m.(anim := PausedAnim(released))
    case EndAnim =>
      if b.reset then m.(anim := PreStagingAnim(Never)) else m
  }

  class WorldState {
    var redButton: bool
    var blueButton: bool
    var refButton: bool
    var resetButton: bool
    var timeRemaining: real

    constructor ()
      ensures timeRemaining == 0.0
    {
      timeRemaining := 0.0;
    }

    function Pressed(): Buttons
      reads this
    {
      Buttons(redButton, blueButton, refButton, resetButton)
    }
  }

  class StateMachine {
    var state: Animation

    constructor ()
      ensures state == PreStagingAnim(Never)
    {
      state := PreStagingAnim(Never);
    }

    method ChangeState(phase: Phase, world: WorldState, now: real)
      modifies this
      ensures state == GetAnimation(phase, world.timeRemaining, now)
    {
      state := GetAnimation(phase, world.timeRemaining, now);
    }

    method Tick(world: WorldState, clock: Clock)
      modifies this, world
      ensures Machine(state, world.timeRemaining)
              == Ticked(Machine(old(state), old(world.timeRemaining)), old(world.Pressed()), clock)
      ensures world.Pressed() == old(world.Pressed())
    {
      match state {
        case PreStagingAnim(startingTime) =>
          var pressed := startingTime;
          if pressed.After(clock.first) && world.refButton {
            pressed := At(clock.first);
          }
          state := PreStagingAnim(pressed);
          if pressed.OlderThan(clock.second, PRE_STAGING_DELAY) {
            ChangeState(Staging, world, clock.construct);
            world.timeRemaining := MATCH;
          }
        case StagingAnim(redStart, blueStart) =>
          var red, blue := redStart, blueStart;
          if red.After(clock.first) && world.redButton {
            red := At(clock.first);
          }
          if blue.After(clock.first) && world.blueButton {
            blue := At(clock.first);
          }
          state := StagingAnim(red, blue);
          if red.OlderThan(clock.second, STAGING_DELAY) && blue.OlderThan(clock.third, STAGING_DELAY) {
            ChangeState(PreCountdown, world, clock.construct);
          }
        case PreCountdownAnim(start) =>
          if clock.first - start > PRE_COUNTDOWN {
            ChangeState(Countdown, world, clock.construct);
          }
        case XmasTree(start) =>
          if clock.first - start > COUNTDOWN {
            ChangeState(Fighting, world, clock.construct);
          }
        case FightingAnim(_, end) =>
          if world.redButton || world.blueButton {
            ChangeState(End, world, clock.first);
          }
          if world.refButton {
            world.timeRemaining := end - clock.second;
            ChangeState(Paused, world, clock.construct);
          }
        case PausedAnim(releasedPause) =>
          var released := releasedPause;
          if !world.refButton {
            released := true;
            state := PausedAnim(released);
          }
          if world.refButton && released {
            ChangeState(Countdown, world, clock.construct);
          }
          if world.resetButton && released {
            ChangeState(PreStaging, world, clock.construct);
          }
        case EndAnim =>
          if world.resetButton {
            ChangeState(PreStaging, world, clock.construct);
          }
      }
    }
  }

  /** Truncation takes less than a millisecond, and takes it away from a time that is not negative. */
  lemma AllottedBound(t: real)
    ensures -0.001 < Allotted(t) - t < 0.001
    ensures t >= 0.0 ==> 0.0 <= Allotted(t) <= t
    ensures t <= 0.0 ==> t <= Allotted(t) <= 0.0
  {
  }

  /** What is left is whole milliseconds.  Together with the bound, that leaves only one value. */
  lemma AllottedWhole(t: real)
    ensures (Allotted(t) * 1000.0).Floor as real == Allotted(t) * 1000.0
  {
    var milliseconds := Truncate(t * 1000.0);
    assert Allotted(t) == milliseconds as real / 1000.0;
    hide Allotted, Truncate;
    assert (milliseconds as real).Floor == milliseconds;
  }

  /** It gives time away exactly when the time is negative and not a whole number of milliseconds. */
  lemma AllottedGains(t: real)
    ensures Allotted(t) > t <==> t < 0.0 && (t * 1000.0).Floor as real != t * 1000.0
  {
  }
}
