/** The two animations of ArenaStates.cpp that catch up with the clock when a frame is asked for.

    Each keeps a state that moves in steps of its own and a loop that takes all the steps that are due.
    What it shows must not depend on how often it is asked. */
module Animations {
  /** How many steps of at least `step` can still be due: the catch-up loops' termination measure. */
  function Lag(from: real, to: real, step: real): nat
    requires step > 0.0
  {
    if to > from then ((to - from) / step).Floor + 1 else 0
  }

  lemma LagShrinks(from: real, to: real, step: real, gap: real)
    requires step > 0.0 && gap >= step && to > from
    ensures Lag(from + gap, to, step) < Lag(from, to, step)
  {
    if to > from + gap {
      assert (to - from) / step == (to - (from + gap)) / step + gap / step;
      assert gap / step >= 1.0;
    }
  }

  ghost predicate Ascending(times: seq<real>) {
    forall i, j :: 0 <= i < j < |times| ==> times[i] <= times[j]
  }

  /** s * q * ... * q, k times. */
  function Geometric(s: real, q: real, k: nat): real {
    if k == 0 then s else Geometric(s, q, k - 1) * q
  }

  /** The m-th value is the first at or below the floor. */
  ghost predicate FirstBelow(s: real, q: real, floor: real, m: nat) {
    && Geometric(s, q, m) <= floor
    && forall j :: 0 <= j < m ==> Geometric(s, q, j) > floor
  }

  function Min(a: nat, b: nat): nat {
    if a < b then a else b
  }

  // WooWoosha: a point bouncing between the ends of the strip, faster and faster.

  const MIN_WOOSH_STEP: real := 0.00198

  datatype Woosh = Woosh(idx: int, time: real, speed: real, dir: int, colorTimes: seq<real>) {
    /** In bounds, and heading for a place in bounds. */
    predicate Sound() {
      && |colorTimes| >= 2
      && 0 <= idx < |colorTimes|
      && (if dir == 1 then idx < |colorTimes| - 1 else dir == -1 && idx > 0)
      && speed > MIN_WOOSH_STEP
    }

    /** One step of the loop. */
    function Step(): (w: Woosh)
      requires Sound()
      ensures w.Sound() && |w.colorTimes| == |colorTimes| && w.time == time + speed
    {
      var idx' := idx + dir;
      var time' := time + speed;
      Woosh(idx', time',
            if speed > 0.002 then speed * 0.99 else speed,
            if idx' == 0 || idx' == |colorTimes| - 1 then -dir else dir,
            colorTimes[idx' := time'])
    }

    /** All the steps due at time t. */
    function CatchUp(t: real): (w: Woosh)
      requires Sound()
      ensures w.Sound()
      decreases Lag(time, t, MIN_WOOSH_STEP)
    {
      if t > time + speed then
        LagShrinks(time, t, MIN_WOOSH_STEP, speed);
        Step().CatchUp(t)
      else this
    }

    function Steps(k: nat): (w: Woosh)
      requires Sound()
      ensures w.Sound() && |w.colorTimes| == |colorTimes|
    {
      if k == 0 then this else Steps(k - 1).Step()
    }

    function Frames(times: seq<real>): Woosh
      requires Sound()
      decreases |times|
    {
      if times == [] then this else CatchUp(times[0]).Frames(times[1..])
    }
  }

  function InitialWoosh(n: nat): Woosh {
    Woosh(0, 0.0, 0.040, 1, seq(n, _ => -100.0))
  }

  class WooWoosha {
    var lastSegmentIdx: int
    var lastSegmentTime: real
    var speed: real
    var dir: int
    const lastColorTime: array<real>

    function State(): Woosh
      reads this, lastColorTime
    {
      Woosh(lastSegmentIdx, lastSegmentTime, speed, dir, lastColorTime[..])
    }

    constructor (n: nat)
      requires n >= 2
      ensures State() == InitialWoosh(n) && State().Sound() && fresh(lastColorTime)
    {
      lastSegmentIdx, lastSegmentTime, speed, dir := 0, 0.0, 0.040, 1;
      lastColorTime := new real[n](_ => -100.0);
    }

    /** The loop of GetColors. */
    method CatchUp(curTime: real)
      requires State().Sound()
      modifies this, lastColorTime
      ensures State() == old(State()).CatchUp(curTime)
    {
      while curTime > lastSegmentTime + speed
        invariant State().Sound()
        invariant State().CatchUp(curTime) == old(State()).CatchUp(curTime)
        decreases Lag(lastSegmentTime, curTime, MIN_WOOSH_STEP)
      {
        ghost var was := State();
        LagShrinks(lastSegmentTime, curTime, MIN_WOOSH_STEP, speed);
        lastSegmentIdx := lastSegmentIdx + dir;
        if lastSegmentIdx == 0 || lastSegmentIdx == lastColorTime.Length - 1 {
          dir := -dir;
        }
        lastSegmentTime := lastSegmentTime + speed;
        if speed > 0.002 {
          speed := speed * 0.99;
        }
        lastColorTime[lastSegmentIdx] := lastSegmentTime;
        assert State() == was.Step();
      }
    }
  }

  /** Two frames leave what the later one alone would have left. */
  lemma {:induction false} WooshTwoFrames(w: Woosh, t1: real, t2: real)
    requires w.Sound() && t1 <= t2
    ensures w.CatchUp(t1).CatchUp(t2) == w.CatchUp(t2)
    decreases Lag(w.time, t1, MIN_WOOSH_STEP)
  {
    if t1 > w.time + w.speed {
      LagShrinks(w.time, t1, MIN_WOOSH_STEP, w.speed);
      WooshTwoFrames(w.Step(), t1, t2);
    }
  }

  /** Any frames leave what the last one alone would have left. */
  lemma {:induction false} WooshFrameRateIndependent(w: Woosh, times: seq<real>)
    requires w.Sound() && times != [] && Ascending(times)
    ensures w.Frames(times) == w.CatchUp(times[|times| - 1])
    decreases |times|
  {
    if |times| > 1 {
      WooshFrameRateIndependent(w.CatchUp(times[0]), times[1..]);
      WooshTwoFrames(w, times[0], times[|times| - 1]);
    }
  }

  lemma {:induction false} StepsFromStep(w: Woosh, k: nat)
    requires w.Sound()
    ensures w.Step().Steps(k) == w.Steps(k + 1)
  {
    if k > 0 {
      StepsFromStep(w, k - 1);
    }
  }

  /** A frame takes some number of steps, and exactly those that are due. */
  lemma {:induction false} CatchUpIsSteps(w: Woosh, t: real) returns (k: nat)
    requires w.Sound()
    ensures w.CatchUp(t) == w.Steps(k)
    ensures w.Steps(k).time + w.Steps(k).speed >= t
    ensures forall j :: 0 <= j < k ==> w.Steps(j).time + w.Steps(j).speed < t
    decreases Lag(w.time, t, MIN_WOOSH_STEP)
  {
    if t > w.time + w.speed {
      LagShrinks(w.time, t, MIN_WOOSH_STEP, w.speed);
      var k' := CatchUpIsSteps(w.Step(), t);
      k := k' + 1;
      StepsFromStep(w, k');
      forall j | 0 <= j < k
        ensures w.Steps(j).time + w.Steps(j).speed < t
      {
        if j > 0 {
          StepsFromStep(w, j - 1);
        }
      }
    } else {
      k := 0;
    }
  }

  /** The bouncing index is a triangle wave of period 2(n - 1): r places up, then back down. */
  lemma {:induction false} TriangleWave(n: nat, q: nat, r: nat)
    requires n >= 2 && r < 2 * (n - 1)
    ensures q * (2 * (n - 1)) >= 0
    ensures var w := InitialWoosh(n).Steps(q * (2 * (n - 1)) + r);
            && w.idx == (if r <= n - 1 then r else 2 * (n - 1) - r)
            && w.dir == (if r < n - 1 then 1 else -1)
    decreases q, r
  {
    var period := 2 * (n - 1);
    if r > 0 {
      TriangleWave(n, q, r - 1);
    } else if q > 0 {
      TriangleWave(n, q - 1, period - 1);
      assert q * period == (q - 1) * period + period;
    }
  }

  /** A light last passed at step j shows the time of that step. */
  lemma {:induction false} LightLastPassed(n: nat, k: nat, i: nat, j: nat)
    requires n >= 2 && i < n && 1 <= j <= k && InitialWoosh(n).Steps(j).idx == i
    requires forall l :: j < l <= k ==> InitialWoosh(n).Steps(l).idx != i
    ensures InitialWoosh(n).Steps(k).colorTimes[i] == InitialWoosh(n).Steps(j).time
  {
    if j < k {
      LightLastPassed(n, k - 1, i, j);
    }
  }

  /** A light not passed yet shows the time it was made with. */
  lemma {:induction false} LightNotPassed(n: nat, k: nat, i: nat)
    requires n >= 2 && i < n
    requires forall l :: 1 <= l <= k ==> InitialWoosh(n).Steps(l).idx != i
    ensures InitialWoosh(n).Steps(k).colorTimes[i] == -100.0
  {
    if k > 0 {
      LightNotPassed(n, k - 1, i);
    }
  }

  /** The point's steps shorten from 0.04 s by a hundredth each, down to the first length that is at most
      0.002, and stay at that. */
  lemma {:induction false} WooshSpeed(n: nat, k: nat, m: nat)
    requires n >= 2 && FirstBelow(0.040, 0.99, 0.002, m)
    ensures InitialWoosh(n).Steps(k).speed == Geometric(0.040, 0.99, Min(k, m))
    ensures InitialWoosh(n).Steps(k + 1).time - InitialWoosh(n).Steps(k).time == Geometric(0.040, 0.99, Min(k, m))
    ensures InitialWoosh(n).Steps(0).time == 0.0
  {
    if k > 0 {
      WooshSpeed(n, k - 1, m);
    }
  }

  /** And there is such a first length. */
  lemma WooshSpeedSettles() returns (m: nat)
    ensures FirstBelow(0.040, 0.99, 0.002, m)
  {
    m := 0;
    while Geometric(0.040, 0.99, m) > 0.002
      invariant forall j :: 0 <= j < m ==> Geometric(0.040, 0.99, j) > 0.002
      invariant Geometric(0.040, 0.99, m) <= 0.040 - m as real * 0.00002
      decreases 2000 - m
    {
      m := m + 1;
    }
  }

  // PreCountdownAnimation: particles that start at a growing rate and fall.

  const PARTICLE_SPEED: real := 0.02
  const MIN_SPAWN_STEP: real := 0.07

  datatype Particle = Particle(x: int, y: int, startTime: real, age: real, speed: real) {
    predicate Falling() {
      speed >= PARTICLE_SPEED
    }

    function Step(): Particle {
      Particle(x, y + 1, startTime + speed, age + speed, speed)
    }

    function Steps(k: nat): (p: Particle)
      requires Falling()
      ensures p.Falling() && p.speed == speed
    {
      if k == 0 then this else Steps(k - 1).Step()
    }

    /** All the falling due at time t. */
    function Fall(t: real): (p: Particle)
      requires Falling()
      ensures p.Falling()
      decreases Lag(startTime, t, PARTICLE_SPEED)
    {
      if t > startTime + speed then
        LagShrinks(startTime, t, PARTICLE_SPEED, speed);
        Step().Fall(t)
      else this
    }
  }

  function FallAll(particles: seq<Particle>, t: real): (r: seq<Particle>)
    requires forall p :: p in particles ==> p.Falling()
    ensures |r| == |particles|
    ensures forall i :: 0 <= i < |r| ==> r[i] == particles[i].Fall(t)
    ensures forall p :: p in r ==> p.Falling()
  {
    seq(|particles|, i requires 0 <= i < |particles| => particles[i].Fall(t))
  }

  /** Column and row of the i-th particle: the random stream. */
  type Draws = nat -> (int, int)

  datatype Rain = Rain(time: real, speed: real, particles: seq<Particle>) {
    predicate Sound() {
      speed > MIN_SPAWN_STEP && forall p :: p in particles ==> p.Falling()
    }

    /** Start one particle. */
    function Spawn(draws: Draws): (r: Rain)
      requires Sound()
      ensures r.Sound() && r.time == time + speed
    {
      var (x, y) := draws(|particles|);
      var s := if speed * 0.1 > PARTICLE_SPEED then speed * 0.1 else PARTICLE_SPEED;
      Rain(time + speed,
           if speed > 0.1 then speed * 0.7 else speed,
           particles + [Particle(x, y, time, 0.0, s)])
    }

    function Spawns(k: nat, draws: Draws): (r: Rain)
      requires Sound()
      ensures r.Sound() && |r.particles| == |particles| + k
    {
      if k == 0 then this else Spawns(k - 1, draws).Spawn(draws)
    }

    /** Start all the particles due at time t. */
    function SpawnAll(t: real, draws: Draws): (r: Rain)
      requires Sound()
      ensures r.Sound() && particles <= r.particles
      decreases Lag(time, t, MIN_SPAWN_STEP)
    {
      if t > time then
        LagShrinks(time, t, MIN_SPAWN_STEP, speed);
        Spawn(draws).SpawnAll(t, draws)
      else this
    }

    /** One frame: start what is due, then let everything fall. */
    function Frame(t: real, draws: Draws): (r: Rain)
      requires Sound()
      ensures r.Sound()
    {
      var r := SpawnAll(t, draws);
      r.(particles := FallAll(r.particles, t))
    }

    function Frames(times: seq<real>, draws: Draws): Rain
      requires Sound()
      decreases |times|
    {
      if times == [] then this else Frame(times[0], draws).Frames(times[1..], draws)
    }
  }

  const INITIAL_RAIN: Rain := Rain(0.0, 0.700, [])

  class PreCountdown {
    const draws: Draws
    var lastSegmentTime: real
    var speed: real
    var particles: seq<Particle>

    function State(): Rain
      reads this
    {
      Rain(lastSegmentTime, speed, particles)
    }

    constructor (draws: Draws)
      ensures State() == INITIAL_RAIN && State().Sound() && this.draws == draws
    {
      this.draws := draws;
      lastSegmentTime, speed, particles := 0.0, 0.700, [];
    }

    /** The loops of GetColors. */
    method CatchUp(curTime: real)
      requires State().Sound()
      modifies this
      ensures State() == old(State()).Frame(curTime, draws)
    {
      while curTime > lastSegmentTime
        invariant State().Sound()
        invariant State().SpawnAll(curTime, draws) == old(State()).SpawnAll(curTime, draws)
        decreases Lag(lastSegmentTime, curTime, MIN_SPAWN_STEP)
      {
        LagShrinks(lastSegmentTime, curTime, MIN_SPAWN_STEP, speed);
        ghost var was := State();
        var (x, y) := draws(|particles|);
        var s := if speed * 0.1 > PARTICLE_SPEED then speed * 0.1 else PARTICLE_SPEED;
        particles := particles + [Particle(x, y, lastSegmentTime, 0.0, s)];
        lastSegmentTime := lastSegmentTime + speed;
        if speed > 0.1 {
          speed := speed * 0.7;
        }
        assert State() == was.Spawn(draws);
      }
      ghost var spawned := particles;
      for i := 0 to |particles|
        invariant |particles| == |spawned|
        invariant State().Sound() && State().(particles := spawned) == old(State()).SpawnAll(curTime, draws)
        invariant forall j :: 0 <= j < i ==> particles[j] == spawned[j].Fall(curTime)
        invariant forall j :: i <= j < |particles| ==> particles[j] == spawned[j]
      {
        var p := FallTo(particles[i], curTime);
        particles := particles[i := p];
      }
      assert particles == FallAll(spawned, curTime);
    }

    /** The inner loop, over one particle. */
    method FallTo(particle: Particle, curTime: real) returns (p: Particle)
      requires particle.Falling()
      ensures p == particle.Fall(curTime)
    {
      p := particle;
      while curTime > p.startTime + p.speed
        invariant p.Falling() && p.Fall(curTime) == particle.Fall(curTime)
        decreases Lag(p.startTime, curTime, PARTICLE_SPEED)
      {
        LagShrinks(p.startTime, curTime, PARTICLE_SPEED, p.speed);
        p := p.(y := p.y + 1);
        p := p.(startTime := p.startTime + p.speed);
        p := p.(age := p.age + p.speed);
      }
    }
  }

  lemma {:induction false} FallTwoFrames(p: Particle, t1: real, t2: real)
    requires p.Falling() && t1 <= t2
    ensures p.Fall(t1).Fall(t2) == p.Fall(t2)
    decreases Lag(p.startTime, t1, PARTICLE_SPEED)
  {
    if t1 > p.startTime + p.speed {
      LagShrinks(p.startTime, t1, PARTICLE_SPEED, p.speed);
      FallTwoFrames(p.Step(), t1, t2);
    }
  }

  lemma {:induction false} SpawnTwoFrames(r: Rain, t1: real, t2: real, draws: Draws)
    requires r.Sound() && t1 <= t2
    ensures r.SpawnAll(t1, draws).SpawnAll(t2, draws) == r.SpawnAll(t2, draws)
    decreases Lag(r.time, t1, MIN_SPAWN_STEP)
  {
    if t1 > r.time {
      LagShrinks(r.time, t1, MIN_SPAWN_STEP, r.speed);
      SpawnTwoFrames(r.Spawn(draws), t1, t2, draws);
    }
  }

  lemma {:induction false} SpawnsFromSpawn(r: Rain, k: nat, draws: Draws)
    requires r.Sound()
    ensures r.Spawn(draws).Spawns(k, draws) == r.Spawns(k + 1, draws)
  {
    if k > 0 {
      SpawnsFromSpawn(r, k - 1, draws);
    }
  }

  function MaxReal(a: real, b: real): real {
    if a < b then b else a
  }

  /** The j-th of k particles started at the time the spawn clock then showed, at the j-th draw, falling
      with a tenth of the time to the next start, but no less than 0.02 s, to the row; and those there
      before are as they were. */
  lemma {:induction false} SpawnedAt(r: Rain, k: nat, j: nat, draws: Draws)
    requires r.Sound() && j < k
    ensures var n, s := |r.particles|, r.Spawns(k, draws);
            && s.particles[..n] == r.particles
            && s.particles[n + j].startTime == r.Spawns(j, draws).time
            && (s.particles[n + j].x, s.particles[n + j].y) == draws(n + j)
            && s.particles[n + j].age == 0.0
            && s.particles[n + j].speed == MaxReal(PARTICLE_SPEED, (r.Spawns(j + 1, draws).time - r.Spawns(j, draws).time) * 0.1)
  {
    if j < k - 1 {
      SpawnedAt(r, k - 1, j, draws);
    } else if k > 1 {
      SpawnedAt(r, k - 1, 0, draws);
    }
  }

  /** A frame starts exactly the particles that are due, in order: the spawn clock stood before t at each
      start, and has reached t after the last. */
  lemma {:induction false} SpawnIsSteps(r: Rain, t: real, draws: Draws) returns (k: nat)
    requires r.Sound()
    ensures r.SpawnAll(t, draws) == r.Spawns(k, draws)
    ensures r.Spawns(k, draws).time >= t
    ensures forall j :: 0 <= j < k ==> r.Spawns(j, draws).time < t
    decreases Lag(r.time, t, MIN_SPAWN_STEP)
  {
    if t > r.time {
      LagShrinks(r.time, t, MIN_SPAWN_STEP, r.speed);
      var k' := SpawnIsSteps(r.Spawn(draws), t, draws);
      k := k' + 1;
      SpawnsFromSpawn(r, k', draws);
      forall j | 0 <= j < k
        ensures r.Spawns(j, draws).time < t
      {
        if j > 0 {
          SpawnsFromSpawn(r, j - 1, draws);
        }
      }
    } else {
      k := 0;
    }
  }

  /** Which particles start next depends on how many there are, not on how far they have fallen. */
  lemma {:induction false} SpawnIgnoresFalling(r: Rain, fallen: seq<Particle>, t: real, draws: Draws)
    requires r.Sound() && |fallen| == |r.particles| && forall p :: p in fallen ==> p.Falling()
    ensures var s := r.SpawnAll(t, draws);
            r.(particles := fallen).SpawnAll(t, draws) == s.(particles := fallen + s.particles[|fallen|..])
    decreases Lag(r.time, t, MIN_SPAWN_STEP)
  {
    if t > r.time {
      LagShrinks(r.time, t, MIN_SPAWN_STEP, r.speed);
      var next, s := r.Spawn(draws), r.SpawnAll(t, draws);
      var fresh' := next.particles[|fallen|];
      assert r.(particles := fallen).Spawn(draws) == next.(particles := fallen + [fresh']);
      assert s == next.SpawnAll(t, draws);
      assert r.(particles := fallen).SpawnAll(t, draws) == next.(particles := fallen + [fresh']).SpawnAll(t, draws);
      hide Rain.SpawnAll, Rain.Spawn;
      SpawnIgnoresFalling(next, fallen + [fresh'], t, draws);
      assert s.particles[|fallen|] == fresh';
      assert fallen + s.particles[|fallen|..] == (fallen + [fresh']) + s.particles[|fallen| + 1..];
    }
  }

  /** Two frames leave what the later one alone would have left, for the same random stream. */
  lemma RainTwoFrames(r: Rain, t1: real, t2: real, draws: Draws)
    requires r.Sound() && t1 <= t2
    ensures r.Frame(t1, draws).Frame(t2, draws) == r.Frame(t2, draws)
  {
    var s1, s2 := r.SpawnAll(t1, draws), r.SpawnAll(t2, draws);
    var fallen := FallAll(s1.particles, t1);
    var n := |fallen|;
    SpawnTwoFrames(r, t1, t2, draws);
    SpawnIgnoresFalling(s1, fallen, t2, draws);
    forall i | 0 <= i < |s2.particles|
      ensures (fallen + s2.particles[n..])[i].Fall(t2) == s2.particles[i].Fall(t2)
    {
      if i < n {
        FallTwoFrames(s1.particles[i], t1, t2);
      }
    }
    assert FallAll(fallen + s2.particles[n..], t2) == FallAll(s2.particles, t2);
  }

  /** Any frames leave what the last one alone would have left, for the same random stream. */
  lemma {:induction false} RainFrameRateIndependent(r: Rain, times: seq<real>, draws: Draws)
    requires r.Sound() && times != [] && Ascending(times)
    ensures r.Frames(times, draws) == r.Frame(times[|times| - 1], draws)
    decreases |times|
  {
    if |times| > 1 {
      RainFrameRateIndependent(r.Frame(times[0], draws), times[1..], draws);
      RainTwoFrames(r, times[0], times[|times| - 1], draws);
    }
  }

  lemma {:induction false} ParticleStepsFromStep(p: Particle, k: nat)
    requires p.Falling()
    ensures p.Step().Steps(k) == p.Steps(k + 1)
  {
    if k > 0 {
      ParticleStepsFromStep(p, k - 1);
    }
  }

  /** A particle falls one row a step, by exactly the steps that are due, and its age keeps pace with its
      clock. */
  lemma {:induction false} FallIsSteps(p: Particle, t: real) returns (k: nat)
    requires p.Falling()
    ensures p.Fall(t) == p.Steps(k) && p.Fall(t).y == p.y + k
    ensures p.Fall(t).age - p.age == p.Fall(t).startTime - p.startTime
    ensures p.Steps(k).startTime + p.speed >= t
    ensures forall j :: 0 <= j < k ==> p.Steps(j).startTime + p.speed < t
    decreases Lag(p.startTime, t, PARTICLE_SPEED)
  {
    if t > p.startTime + p.speed {
      LagShrinks(p.startTime, t, PARTICLE_SPEED, p.speed);
      var k' := FallIsSteps(p.Step(), t);
      k := k' + 1;
      ParticleStepsFromStep(p, k');
      forall j | 0 <= j < k
        ensures p.Steps(j).startTime + p.speed < t
      {
        if j > 0 {
          ParticleStepsFromStep(p, j - 1);
        }
      }
    } else {
      k := 0;
    }
  }

  /** Particles start after 0.7 s, and then at intervals shrinking by three tenths each, down to the first
      that is at most 0.1 s, and from there on at that. */
  lemma {:induction false} SpawnInterval(k: nat, m: nat, draws: Draws)
    requires FirstBelow(0.700, 0.7, 0.1, m)
    ensures INITIAL_RAIN.Spawns(k, draws).speed == Geometric(0.700, 0.7, Min(k, m))
    ensures INITIAL_RAIN.Spawns(k + 1, draws).time - INITIAL_RAIN.Spawns(k, draws).time
            == Geometric(0.700, 0.7, Min(k, m))
    ensures INITIAL_RAIN.Spawns(0, draws).time == 0.0
  {
    if k > 0 {
      SpawnInterval(k - 1, m, draws);
    }
  }

  /** And there is such a first interval: the seventh. */
  lemma SpawnIntervalSettles()
    ensures FirstBelow(0.700, 0.7, 0.1, 6)
  {
    var g := k => Geometric(0.700, 0.7, k);
    assert g(0) == 0.7 && g(1) == 0.49 && g(2) == 0.343 && g(3) == 0.2401;
    assert g(4) == 0.16807 && g(5) == 0.117649 && g(6) == 0.0823543;
  }

  function Times(k: nat, step: real): real {
    k as real * step
  }

  /** The particle k rows lower and k steps later. */
  function Lower(p: Particle, k: nat): Particle {
    Particle(p.x, p.y + k, p.startTime + Times(k, p.speed), p.age + Times(k, p.speed), p.speed)
  }

  lemma {:induction false} EvenSteps(p: Particle, k: nat)
    requires p.Falling()
    ensures p.Steps(k) == Lower(p, k)
  {
    if k > 0 {
      EvenSteps(p, k - 1);
      assert Times(k, p.speed) == Times(k - 1, p.speed) + p.speed;
    }
  }

  lemma FallLands(p: Particle, t: real) returns (k: nat)
    requires p.Falling()
    ensures p.Fall(t) == Lower(p, k)
    ensures p.Fall(t).startTime + p.speed >= t && (k > 0 ==> p.Fall(t).startTime < t)
  {
    k := FallIsSteps(p, t);
    EvenSteps(p, k);
    if k > 0 {
      assert p.Steps(k) == p.Steps(k - 1).Step();
    }
  }

  /** How many particles a first frame at t shows: those whose start lies before t. */
  lemma FrameCount(t: real, draws: Draws) returns (m: nat)
    ensures var frame := INITIAL_RAIN.Frame(t, draws);
            && |frame.particles| == m && frame.time == INITIAL_RAIN.Spawns(m, draws).time >= t
            && frame.speed == INITIAL_RAIN.Spawns(m, draws).speed
    ensures forall j :: 0 <= j < m ==> INITIAL_RAIN.Spawns(j, draws).time < t
  {
    m := SpawnIsSteps(INITIAL_RAIN, t, draws);
  }

  /** Where it shows each of them: k rows below its draw, k being the number of whole steps since it
      started. */
  lemma FrameShows(t: real, draws: Draws, i: nat) returns (k: nat)
    requires i < |INITIAL_RAIN.Frame(t, draws).particles|
    ensures var start, next := INITIAL_RAIN.Spawns(i, draws).time, INITIAL_RAIN.Spawns(i + 1, draws).time;
            var (x, y) := draws(i);
            var p := Particle(x, y, start, 0.0, MaxReal(PARTICLE_SPEED, (next - start) * 0.1));
            INITIAL_RAIN.Frame(t, draws).particles[i] == Lower(p, k)
    ensures var p := INITIAL_RAIN.Frame(t, draws).particles[i];
            p.startTime + p.speed >= t && (k > 0 ==> p.startTime < t)
  {
    var m := SpawnIsSteps(INITIAL_RAIN, t, draws);
    SpawnedAt(INITIAL_RAIN, m, i, draws);
    hide Rain.SpawnAll, Rain.Spawns, Rain.Spawn, Particle.Fall, Particle.Steps, Times, MaxReal;
    k := FallLands(INITIAL_RAIN.SpawnAll(t, draws).particles[i], t);
  }
}
