/** Whole runs of the match controller: what every match fought had to go through, and that match time
    is conserved through any number of pauses. */
module MatchRuns {
  import opened ArenaStates

  datatype Input = Input(buttons: Buttons, clock: Clock)

  const INITIAL: Machine := Machine(PreStagingAnim(Never), 0.0)

  function Next(m: Machine, input: Input): Machine {
    Ticked(m, input.buttons, input.clock)
  }

  /** The clock only moves on, within a tick and from tick to tick. */
  ghost predicate SteadyClock(inputs: seq<Input>) {
    && (forall i :: 0 <= i < |inputs| ==> inputs[i].clock.Steady())
    && (forall i, j :: 0 <= i < j < |inputs| ==> inputs[i].clock.construct <= inputs[j].clock.first)
  }

  /** The machine after all these ticks. */
  function Run(inputs: seq<Input>): Machine
    decreases |inputs|
  {
    if inputs == [] then INITIAL
    else Next(Run(inputs[..|inputs| - 1]), inputs[|inputs| - 1])
  }

  /** What an onlooker at the buttons, the clock and the phases writes down. */
  datatype History = History(
    called: Latch,         // referee's first press since the latest pre-staging began
    redPressed: Latch,     // first press since the latest staging began
    bluePressed: Latch,
    preCountdownAt: real,  // when the latest pre-countdown began
    countdownAt: real,     // when the latest countdown began
    fightAt: real,         // when the latest fight began or resumed
    fights: nat,           // fights begun or resumed since the match was staged
    fought: real,          // time fought up to the latest pause
    inTime: bool           // whether every one of them began with time remaining
  )

  const BLANK: History := History(Never, Never, Never, 0.0, 0.0, 0.0, 0, 0.0, true)

  /** A first press on record, or this one if there is none. */
  function With(latch: Latch, pressed: bool, now: real): Latch {
    if latch.Never? && pressed then At(now) else latch
  }

  /** The entry the onlooker makes for one tick that took the machine from `m` to `m'`. */
  function Observe(h: History, m: Machine, input: Input, m': Machine): History {
    var b, c := input.buttons, input.clock;
    match (m.anim.Phase(), m'.anim.Phase())
    case (PreStaging, Staging) => BLANK
    case (PreStaging, _) => h.(called := With(h.called, b.ref, c.first))
    case (_, PreStaging) => h.(called := Never)
    case (Staging, after) =>
      h.(redPressed := With(h.redPressed, b.red, c.first),
         bluePressed := With(h.bluePressed, b.blue, c.first),
         preCountdownAt := if after == PreCountdown then c.construct else h.preCountdownAt)
    case (Countdown, Fighting) =>
      h.(fightAt := c.construct, fights := h.fights + 1, inTime := h.inTime && m.timeRemaining >= 0.0)
    case (Fighting, Paused) => h.(fought := h.fought + (c.second - h.fightAt))
    case (PreCountdown, Countdown) => h.(countdownAt := c.construct)
    case (Paused, Countdown) => h.(countdownAt := c.construct)
    case _ => h
  }

  function Record(inputs: seq<Input>): History
    decreases |inputs|
  {
    if inputs == [] then BLANK
    else
      var before := inputs[..|inputs| - 1];
      Observe(Record(before), Run(before), inputs[|inputs| - 1], Run(inputs))
  }

  /** Both sides pressed, in this staging, more than 3.5 s before the pre-countdown began. */
  ghost predicate BothReady(h: History) {
    && h.redPressed.OlderThan(h.preCountdownAt, STAGING_DELAY)
    && h.bluePressed.OlderThan(h.preCountdownAt, STAGING_DELAY)
  }

  /** Time fought and time left make up the match, but for a millisecond a resumption; none is given
      away as long as no fight began late. */
  ghost predicate Conserved(h: History, left: real) {
    var total := h.fought + left;
    && h.fights >= 1
    && -(h.fights - 1) as real <= (total - MATCH) * 1000.0 <= (h.fights - 1) as real
    && (h.inTime ==> total <= MATCH)
  }

  ghost predicate Unfought(h: History, timeRemaining: real) {
    timeRemaining == MATCH && h.fights == 0 && h.fought == 0.0 && h.inTime
  }

  ghost predicate Past(latch: Latch, now: real) {
    latch.At? ==> latch.time <= now
  }

  /** What ties the fields of the machine to the record, at any time `now` of a run. */
  ghost predicate Invariant(m: Machine, h: History, now: real) {
    match m.anim
    case PreStagingAnim(startingTime) => startingTime == h.called && Past(startingTime, now)
    case StagingAnim(red, blue) =>
      && Unfought(h, m.timeRemaining) && red == h.redPressed && blue == h.bluePressed
      && Past(red, now) && Past(blue, now)
    case PreCountdownAnim(start) =>
      Unfought(h, m.timeRemaining) && BothReady(h) && start == h.preCountdownAt <= now
    case XmasTree(start) =>
      && BothReady(h) && start == h.countdownAt <= now
      && if h.fights == 0
         then Unfought(h, m.timeRemaining) && start - h.preCountdownAt > PRE_COUNTDOWN
         else Conserved(h, m.timeRemaining)
    case FightingAnim(start, end) =>
      && BothReady(h) && start == h.fightAt <= now
      && end == start + Allotted(m.timeRemaining) && Conserved(h, end - start)
    case PausedAnim(_) => BothReady(h) && Conserved(h, m.timeRemaining)
    case EndAnim => true
  }

  ghost predicate Kept(m: Machine, h: History, input: Input) {
    var m' := Next(m, input);
    Invariant(m', Observe(h, m, input, m'), input.clock.construct)
  }

  lemma TickKeepsInvariant(m: Machine, h: History, now: real, input: Input)
    requires Invariant(m, h, now) && input.clock.Steady() && now <= input.clock.first
    ensures Kept(m, h, input)
  {
    match m.anim
    case PreStagingAnim(_) =>
    case StagingAnim(_, _) => StagingKeepsInvariant(m, h, now, input);
    case PreCountdownAnim(_) =>
    case XmasTree(_) => CountdownKeepsInvariant(m, h, now, input);
    case FightingAnim(_, _) => FightingKeepsInvariant(m, h, now, input);
    case PausedAnim(_) =>
    case EndAnim =>
  }

  lemma StagingKeepsInvariant(m: Machine, h: History, now: real, input: Input)
    requires m.anim.StagingAnim? && Invariant(m, h, now) && input.clock.Steady() && now <= input.clock.first
    ensures Kept(m, h, input)
  {
  }

  /** Where truncation comes in: the first fight gets the whole match, a resumed one may lose up to a
      millisecond. */
  lemma CountdownKeepsInvariant(m: Machine, h: History, now: real, input: Input)
    requires m.anim.XmasTree? && Invariant(m, h, now) && input.clock.Steady() && now <= input.clock.first
    ensures Kept(m, h, input)
  {
    AllottedBound(m.timeRemaining);
    assert Allotted(MATCH) == MATCH;
  }

  lemma FightingKeepsInvariant(m: Machine, h: History, now: real, input: Input)
    requires m.anim.FightingAnim? && Invariant(m, h, now) && input.clock.Steady() && now <= input.clock.first
    ensures Kept(m, h, input)
  {
  }

  /** The invariant holds after every run, at the time of its last clock reading. */
  lemma {:induction false} RunInvariant(inputs: seq<Input>)
    requires SteadyClock(inputs)
    ensures forall now ::
              (inputs != [] ==> inputs[|inputs| - 1].clock.construct <= now)
              ==> Invariant(Run(inputs), Record(inputs), now)
    decreases |inputs|
  {
    if inputs != [] {
      var before, last := inputs[..|inputs| - 1], inputs[|inputs| - 1];
      RunInvariant(before);
      assert before != [] ==> before[|before| - 1] == inputs[|inputs| - 2];
      TickKeepsInvariant(Run(before), Record(before), last.clock.first, last);
    }
  }

  /** The last tick of a run, from the machine and record before it to those after it. */
  lemma {:induction false} LastTick(inputs: seq<Input>, last: Input)
    requires SteadyClock(inputs + [last])
    ensures SteadyClock(inputs)
    ensures Run(inputs + [last]) == Next(Run(inputs), last)
    ensures Record(inputs + [last]) == Observe(Record(inputs), Run(inputs), last, Run(inputs + [last]))
    ensures last.clock.Steady() && Invariant(Run(inputs), Record(inputs), last.clock.first)
  {
    var all := inputs + [last];
    assert all[..|all| - 1] == inputs;
    assert forall i :: 0 <= i < |inputs| ==> all[i] == inputs[i];
    assert all[|inputs|] == last;
    RunInvariant(inputs);
  }

  datatype Side = Red | Blue

  function Pressed(input: Input, side: Side): bool {
    if side == Red then input.buttons.red else input.buttons.blue
  }

  function Recorded(h: History, side: Side): Latch {
    if side == Red then h.redPressed else h.bluePressed
  }

  /** The machine is staging before ticks j, ..., i. */
  ghost predicate StagingFrom(inputs: seq<Input>, j: nat, i: nat)
    requires i <= |inputs|
  {
    forall k :: j <= k <= i ==> Run(inputs[..k]).anim.Phase() == Staging
  }

  lemma {:induction false} UnrecordedMeansUnpressed(inputs: seq<Input>, side: Side, j: nat)
    requires j < |inputs| && StagingFrom(inputs, j, |inputs|) && Recorded(Record(inputs), side) == Never
    ensures !Pressed(inputs[j], side)
    decreases |inputs|
  {
    var n := |inputs| - 1;
    assert inputs[..|inputs|] == inputs && Run(inputs[..n]).anim.Phase() == Staging;
    if j < n {
      assert forall k :: j <= k <= n ==> inputs[..n][..k] == inputs[..k];
      UnrecordedMeansUnpressed(inputs[..n], side, j);
    }
  }

  /** Tick i is a press of this side, in a staging, and the first one in that staging. */
  ghost predicate FirstPress(inputs: seq<Input>, i: nat, side: Side) {
    && i < |inputs|
    && Run(inputs[..i]).anim.Phase() == Staging && Pressed(inputs[i], side)
    && forall j :: 0 <= j < i && StagingFrom(inputs, j, i) ==> !Pressed(inputs[j], side)
  }

  /** No staging has begun since tick i: whatever has been going on is one match. */
  ghost predicate SameMatch(inputs: seq<Input>, i: nat) {
    forall k :: i <= k < |inputs| ==> !StagingBegins(Run(inputs[..k]), Run(inputs[..k + 1]))
  }

  predicate StagingBegins(m: Machine, m': Machine) {
    m.anim.Phase() == PreStaging && m'.anim.Phase() == Staging
  }

  /** A press enters the record at the tick it happens, or was there before, and none outlives the
      beginning of a staging. */
  lemma RecordedOnce(h: History, m: Machine, input: Input, side: Side)
    requires Recorded(Observe(h, m, input, Next(m, input)), side).At?
    ensures var latch := Recorded(Observe(h, m, input, Next(m, input)), side);
            || latch == Recorded(h, side)
            || (Recorded(h, side).Never? && m.anim.Phase() == Staging && Pressed(input, side)
                && latch.time == input.clock.first)
    ensures !StagingBegins(m, Next(m, input))
  {
  }

  lemma FirstPressExtends(before: seq<Input>, last: Input, i: nat, side: Side)
    requires FirstPress(before, i, side)
    ensures FirstPress(before + [last], i, side)
  {
    hide Run;
    var all := before + [last];
    assert forall k :: 0 <= k <= i ==> all[..k] == before[..k];
    forall j | 0 <= j < i && StagingFrom(all, j, i)
      ensures !Pressed(all[j], side)
    {
      assert StagingFrom(before, j, i);
    }
  }

  lemma NewPressIsFirst(before: seq<Input>, last: Input, side: Side)
    requires Recorded(Record(before), side).Never?
    requires Run(before).anim.Phase() == Staging && Pressed(last, side)
    ensures FirstPress(before + [last], |before|, side)
  {
    hide Run, Record;
    var all := before + [last];
    assert all[..|before|] == before;
    assert forall k :: 0 <= k <= |before| ==> all[..k] == before[..k];
    forall j | 0 <= j < |before| && StagingFrom(all, j, |before|)
      ensures !Pressed(all[j], side)
    {
      assert StagingFrom(before, j, |before|);
      UnrecordedMeansUnpressed(before, side, j);
    }
  }

  lemma NothingSince(inputs: seq<Input>)
    ensures SameMatch(inputs, |inputs|)
  {
  }

  lemma MatchGoesOn(before: seq<Input>, last: Input, i: nat)
    requires SameMatch(before, i) && !StagingBegins(Run(before), Run(before + [last]))
    ensures SameMatch(before + [last], i)
  {
    hide Run, StagingBegins;
    var all := before + [last];
    assert all[..|before|] == before && all[..|all|] == all;
    assert forall k :: 0 <= k <= |before| ==> all[..k] == before[..k];
  }

  /** A press on record happened at its time, was the first of its side in its staging, and that staging
      is the one of the match on record. */
  lemma {:induction false} PressWasFirst(inputs: seq<Input>, side: Side) returns (i: nat)
    requires Recorded(Record(inputs), side).At?
    ensures i < |inputs| && FirstPress(inputs, i, side) && SameMatch(inputs, i)
    ensures inputs[i].clock.first == Recorded(Record(inputs), side).time
    decreases |inputs|
  {
    hide FirstPress, SameMatch, Observe, Next;
    i := |inputs| - 1;
    var before, last := inputs[..i], inputs[i];
    assert inputs == before + [last];
    RecordedOnce(Record(before), Run(before), last, side);
    if Recorded(Record(before), side).At? {
      i := PressWasFirst(before, side);
      FirstPressExtends(before, last, i, side);
    } else {
      NewPressIsFirst(before, last, side);
      NothingSince(before);
    }
    MatchGoesOn(before, last, i);
  }

  /** Every fight in every run follows a countdown of more than 3 s in a match that both sides readied for:
      each pressed first, in the staging this match began with, more than 3.5 s before its pre-countdown.
      The first fight of a match lasts 120 s and begins more than 13.5 s after either of those presses. */
  lemma {:induction false} FightsAreEarned(inputs: seq<Input>, last: Input) returns (red: nat, blue: nat)
    requires SteadyClock(inputs + [last])
    requires Run(inputs).anim.Phase() != Fighting && Run(inputs + [last]).anim.Phase() == Fighting
    ensures Run(inputs).anim.Phase() == Countdown && last.clock.first - Record(inputs).countdownAt > COUNTDOWN
    ensures red < |inputs| && FirstPress(inputs, red, Red) && SameMatch(inputs, red)
    ensures blue < |inputs| && FirstPress(inputs, blue, Blue) && SameMatch(inputs, blue)
    ensures Record(inputs).preCountdownAt - inputs[red].clock.first > STAGING_DELAY
    ensures Record(inputs).preCountdownAt - inputs[blue].clock.first > STAGING_DELAY
    ensures Record(inputs).fights == 0 ==>
              var fight := Run(inputs + [last]).anim;
              && fight.end - fight.start == MATCH
              && fight.start - inputs[red].clock.first > STAGING_DELAY + PRE_COUNTDOWN + COUNTDOWN
              && fight.start - inputs[blue].clock.first > STAGING_DELAY + PRE_COUNTDOWN + COUNTDOWN
  {
    assert Allotted(MATCH) == MATCH;
    hide Run, Record, SteadyClock, FirstPress, SameMatch, Allotted;
    LastTick(inputs, last);
    red := PressWasFirst(inputs, Red);
    blue := PressWasFirst(inputs, Blue);
  }

  /** At every pause of every run, the time fought so far in the match and the time remaining make up
      the 120 s but for one millisecond a resumption, and never more as long as no fight began late. */
  lemma {:induction false} MatchTimeConserved(inputs: seq<Input>, last: Input)
    requires SteadyClock(inputs + [last])
    requires Run(inputs).anim.Phase() == Fighting && Run(inputs + [last]).anim.Phase() == Paused
    ensures var h, left := Record(inputs + [last]), Run(inputs + [last]).timeRemaining;
            && h.fights >= 1
            && -(h.fights - 1) as real <= (h.fought + left - MATCH) * 1000.0 <= (h.fights - 1) as real
            && (h.inTime ==> h.fought + left <= MATCH)
  {
    LastTick(inputs, last);
    TickKeepsInvariant(Run(inputs), Record(inputs), last.clock.first, last);
  }

  /** What one more tick makes of a run whose outcome is known. */
  lemma KnownTick(inputs: seq<Input>, last: Input, m: Machine, h: History)
    requires Run(inputs) == m && Record(inputs) == h && SteadyClock(inputs) && last.clock.Steady()
    requires inputs != [] ==> inputs[|inputs| - 1].clock.construct <= last.clock.first
    ensures Run(inputs + [last]) == Next(m, last)
    ensures Record(inputs + [last]) == Observe(h, m, last, Next(m, last))
    ensures SteadyClock(inputs + [last])
  {
    assert (inputs + [last])[..|inputs|] == inputs;
  }

  const NO_PRESS: Buttons := Buttons(false, false, false, false)
  const REFEREE: Buttons := NO_PRESS.(ref := true)
  const BOTH_SIDES: Buttons := NO_PRESS.(red := true, blue := true)

  /** A run, with what is known of its outcome carried along. */
  datatype Known = Known(inputs: seq<Input>, m: Machine, h: History, now: real) {
    ghost predicate Holds() {
      && Run(inputs) == m && Record(inputs) == h && SteadyClock(inputs)
      && (inputs != [] ==> inputs[|inputs| - 1].clock.construct <= now)
    }

    /** One tick at time t that is known to lead to m' and h'. */
    ghost function Then(t: real, b: Buttons, m': Machine, h': History): (k: Known)
      requires Holds() && now <= t
      requires var last := Input(b, Clock(t, t, t, t)); m' == Next(m, last) && h' == Observe(h, m, last, m')
      ensures k.Holds()
    {
      var last := Input(b, Clock(t, t, t, t));
      KnownTick(inputs, last, m, h);
      Known(inputs + [last], m', h', t)
    }
  }

  lemma Start() returns (k: Known)
    ensures k.Holds() && k.m == INITIAL && k.h == BLANK && k.now == 0.0
  {
    k := Known([], INITIAL, BLANK, 0.0);
  }

  lemma KnownHolds(k: Known)
    requires k.Holds()
    ensures Run(k.inputs) == k.m && Record(k.inputs) == k.h && SteadyClock(k.inputs)
  {
  }

  const READIED: History := BLANK.(redPressed := At(3.0), bluePressed := At(3.0), preCountdownAt := 7.0)
  const FIGHTING: History := READIED.(countdownAt := 15.0, fightAt := 19.0, fights := 1)
  const OVERTIME: History := FIGHTING.(fought := MATCH + 0.0005)

  /** A match staged at 2 s and readied for at 3 s. */
  lemma Readied() returns (k: Known)
    ensures k.Holds() && k.now == 7.0 && k.m == Machine(PreCountdownAnim(7.0), MATCH) && k.h == READIED
  {
    hide Run, Record, SteadyClock, Allotted, Known.Holds;
    var k0 := Start();
    var k1 := k0.Then(0.0, REFEREE, Machine(PreStagingAnim(At(0.0)), 0.0), BLANK.(called := At(0.0)));
    var k2 := k1.Then(2.0, NO_PRESS, Machine(StagingAnim(Never, Never), MATCH), BLANK);
    var k3 := k2.Then(3.0, BOTH_SIDES, Machine(StagingAnim(At(3.0), At(3.0)), MATCH),
                      READIED.(preCountdownAt := 0.0));
    k := k3.Then(7.0, NO_PRESS, Machine(PreCountdownAnim(7.0), MATCH), READIED);
  }

  /** Its fight, begun with the whole of its time. */
  lemma Begun() returns (k: Known)
    ensures k.Holds() && k.now == 19.0 && k.m == Machine(FightingAnim(19.0, 139.0), MATCH) && k.h == FIGHTING
  {
    assert Allotted(MATCH) == MATCH;
    hide Run, Record, SteadyClock, Allotted, Known.Holds;
    var k0 := Readied();
    var k1 := k0.Then(15.0, NO_PRESS, Machine(XmasTree(15.0), MATCH), READIED.(countdownAt := 15.0));
    k := k1.Then(19.0, NO_PRESS, Machine(FightingAnim(19.0, 139.0), MATCH), FIGHTING);
  }

  /** That fight paused half a millisecond after its time was up. */
  lemma PausedInOvertime() returns (k: Known)
    ensures k.Holds() && k.now == 140.0 && k.m == Machine(PausedAnim(true), -0.0005) && k.h == OVERTIME
  {
    hide Run, Record, SteadyClock, Allotted, Known.Holds;
    var k0 := Begun();
    var k1 := k0.Then(139.0005, REFEREE, Machine(PausedAnim(false), -0.0005), OVERTIME);
    k := k1.Then(140.0, NO_PRESS, Machine(PausedAnim(true), -0.0005), OVERTIME);
  }

  const RESUMED: History := OVERTIME.(countdownAt := 141.0, fightAt := 145.0, fights := 2, inTime := false)

  /** That match resumed. */
  lemma ResumedInOvertime() returns (k: Known)
    ensures k.Holds() && k.now == 145.0 && k.m == Machine(FightingAnim(145.0, 145.0), -0.0005) && k.h == RESUMED
  {
    assert Allotted(-0.0005) == 0.0;
    hide Run, Record, SteadyClock, Allotted, Known.Holds;
    var k0 := PausedInOvertime();
    var k1 := k0.Then(141.0, REFEREE, Machine(XmasTree(141.0), -0.0005), OVERTIME.(countdownAt := 141.0));
    k := k1.Then(145.0, NO_PRESS, Machine(FightingAnim(145.0, 145.0), -0.0005), RESUMED);
  }

  /** The bound on the total does need every fight to begin in time: that match, resumed and paused again,
      has been given the half millisecond. */
  lemma OvertimeIsGivenAway() returns (inputs: seq<Input>)
    ensures SteadyClock(inputs) && Run(inputs).anim.Phase() == Paused
    ensures Record(inputs).fought + Run(inputs).timeRemaining == MATCH + 0.0005
  {
    hide Run, Record, SteadyClock, Allotted, Known.Holds;
    var k0 := ResumedInOvertime();
    var k := k0.Then(146.0, REFEREE, Machine(PausedAnim(false), -1.0), RESUMED.(fought := MATCH + 1.0005));
    KnownHolds(k);
    inputs := k.inputs;
  }

  /** A pause ends in a countdown only when the referee's button goes down: it was up at the tick before,
      so the press that began the pause cannot end it. */
  lemma {:induction false} ResumeNeedsRelease(inputs: seq<Input>, last: Input)
    requires Run(inputs).anim.Phase() == Paused && Run(inputs + [last]).anim.Phase() == Countdown
    ensures last.buttons.ref && !last.buttons.reset
    ensures inputs != [] && !inputs[|inputs| - 1].buttons.ref
  {
    assert (inputs + [last])[..|inputs|] == inputs;
  }

  /** When each phase ends, told from the record and the tick at hand.  Pre-staging ends more than 1.5 s
      after the referee's first press; staging when both sides' first presses are more than 3.5 s old; the
      pre-countdown and the countdown when they have lasted more than 7 s and 3 s; a fight at once by a
      press of the referee, who pauses it, or else of a side, which ends it; the end at a reset.  None of
      them ends otherwise or in another phase. */
  lemma {:induction false} PhaseEnds(inputs: seq<Input>, last: Input)
    requires SteadyClock(inputs + [last])
    ensures var h, b, c := Record(inputs), last.buttons, last.clock;
            var after := Run(inputs + [last]).anim.Phase();
            match Run(inputs).anim.Phase()
            case PreStaging =>
              after == (if With(h.called, b.ref, c.first).OlderThan(c.second, 1.5) then Staging else PreStaging)
            case Staging =>
              after == (if && With(h.redPressed, b.red, c.first).OlderThan(c.second, 3.5)
                           && With(h.bluePressed, b.blue, c.first).OlderThan(c.third, 3.5)
                        then PreCountdown else Staging)
            case PreCountdown => after == (if c.first - h.preCountdownAt > 7.0 then Countdown else PreCountdown)
            case Countdown => after == (if c.first - h.countdownAt > 3.0 then Fighting else Countdown)
            case Fighting => after == (if b.ref then Paused else if b.red || b.blue then End else Fighting)
            case Paused => after == PauseLeadsTo(inputs, last)
            case End => after == (if b.reset then PreStaging else End)
  {
    LastTick(inputs, last);
    if Run(inputs).anim.Phase() == Paused {
      PauseEnds(inputs, last);
    }
  }

  /** Where a pause goes on, told from the buttons alone.  It takes the referee's button to have been up
      since the pause began, at this tick or the one before; then a reset leads to pre-staging and a press
      of the referee, without a reset, to the countdown. */
  function PauseLeadsTo(inputs: seq<Input>, last: Input): Phase {
    var upBefore := inputs != [] && !inputs[|inputs| - 1].buttons.ref;
    if last.buttons.reset && (upBefore || !last.buttons.ref) then PreStaging
    else if last.buttons.ref && upBefore then Countdown
    else Paused
  }

  lemma {:induction false} PauseEnds(inputs: seq<Input>, last: Input)
    requires Run(inputs).anim.Phase() == Paused
    ensures Run(inputs + [last]).anim.Phase() == PauseLeadsTo(inputs, last)
  {
    assert (inputs + [last])[..|inputs|] == inputs;
  }

  /** The time remaining changes at two ticks only: when staging begins it is 120 s, and a pause leaves of
      the time allotted to the fight what was not fought. */
  lemma {:induction false} TimeRemaining(inputs: seq<Input>, last: Input)
    requires SteadyClock(inputs + [last])
    ensures var m, m' := Run(inputs), Run(inputs + [last]);
            m'.timeRemaining ==
            if m.anim.Phase() == PreStaging && m'.anim.Phase() == Staging then 120.0
            else if m.anim.Phase() == Fighting && m'.anim.Phase() == Paused
              then Allotted(m.timeRemaining) - (last.clock.second - Record(inputs).fightAt)
            else m.timeRemaining
  {
    hide Run, Record, SteadyClock, Allotted;
    LastTick(inputs, last);
  }

  /** At tick i a fight was tapped out, and nobody reset since. */
  ghost predicate TappedOut(inputs: seq<Input>, i: nat) {
    && i < |inputs|
    && Run(inputs[..i]).anim.Phase() == Fighting
    && (inputs[i].buttons.red || inputs[i].buttons.blue) && !inputs[i].buttons.ref
    && forall j :: i < j < |inputs| ==> !inputs[j].buttons.reset
  }

  /** A match is over if and only if a fight was tapped out and nobody has reset since. */
  lemma {:induction false} MatchOver(inputs: seq<Input>)
    ensures Run(inputs).anim.Phase() == End <==> exists i: nat :: TappedOut(inputs, i)
    decreases |inputs|
  {
    if inputs != [] {
      var n := |inputs| - 1;
      var before := inputs[..n];
      MatchOver(before);
      forall i: nat | i < n
        ensures TappedOut(inputs, i) <==> TappedOut(before, i) && !inputs[n].buttons.reset
      {
        assert before[..i] == inputs[..i];
      }
      if Run(before).anim.Phase() == Fighting {
        assert !exists i: nat :: TappedOut(before, i);
        assert TappedOut(inputs, n) <==> Run(inputs).anim.Phase() == End;
      }
    }
  }

  /** A reset leads from the end to pre-staging, and from a pause whose referee's button has been up. */
  lemma {:induction false} ResetLeadsBack(inputs: seq<Input>, last: Input)
    requires last.buttons.reset
    requires || Run(inputs).anim.Phase() == End
             || (Run(inputs).anim.Phase() == Paused
                 && exists j: nat :: j <= |inputs| && PausedFrom(inputs, j) && !(inputs + [last])[j].buttons.ref)
    ensures Run(inputs + [last]).anim.Phase() == PreStaging
  {
    assert (inputs + [last])[..|inputs|] == inputs;
    if Run(inputs).anim.Phase() == Paused {
      var j: nat :| j <= |inputs| && PausedFrom(inputs, j) && !(inputs + [last])[j].buttons.ref;
      if j < |inputs| {
        ReleaseStands(inputs, j);
      }
    }
  }

  /** The machine is paused before ticks j, ..., |inputs|. */
  ghost predicate PausedFrom(inputs: seq<Input>, j: nat) {
    forall k :: j <= k <= |inputs| ==> Run(inputs[..k]).anim.Phase() == Paused
  }

  /** Once the referee's button has been up in a pause, it is up at the latest tick of it, or the pause
      would be over. */
  lemma {:induction false} ReleaseStands(inputs: seq<Input>, j: nat)
    requires j < |inputs| && PausedFrom(inputs, j) && !inputs[j].buttons.ref
    ensures Run(inputs).anim == PausedAnim(true) && !inputs[|inputs| - 1].buttons.ref
    decreases |inputs|
  {
    var n := |inputs| - 1;
    var before := inputs[..n];
    assert inputs[..|inputs|] == inputs && Run(before).anim.Phase() == Paused;
    if j < n {
      assert forall k :: j <= k <= n ==> before[..k] == inputs[..k];
      ReleaseStands(before, j);
    }
  }

  /** The machine as an object makes exactly these runs. */
  method Play(inputs: seq<Input>) returns (machine: StateMachine, world: WorldState)
    ensures Machine(machine.state, world.timeRemaining) == Run(inputs)
  {
    machine := new StateMachine();
    world := new WorldState();
    for i := 0 to |inputs|
      invariant Machine(machine.state, world.timeRemaining) == Run(inputs[..i])
    {
      var b := inputs[i].buttons;
      world.redButton, world.blueButton := b.red, b.blue;
      world.refButton, world.resetButton := b.ref, b.reset;
      machine.Tick(world, inputs[i].clock);
      assert inputs[..i + 1][..i] == inputs[..i];
    }
    assert inputs[..|inputs|] == inputs;
  }
}
