/** The audio-reactive particle integrator: positions (x, y, z, life) and
    velocities (vx, vy, vz, speed) in two flat four-float-per-particle
    buffers, a clamped time step accumulated into a global clock, gravity,
    an audio speed boost, life decay, and respawn at the spawn point when
    the life runs out. The trigonometric calls that scatter respawned
    particles are parameters of the model. */
module ParticlePhysics {
  import opened ParticleLayout

  newtype uint32 = x: int | 0 <= x < 0x1_0000_0000

  /** The module's globals: the xorshift state and the respawn clock. */
  datatype Globals = Globals(randState: uint32, globalTime: real)

  /** initParticleRandom: a zero seed falls back to 12345 (xorshift has a
      fixed point at zero), any other seed is stored as given; the clock
      restarts. */
  function InitParticleRandom(seed: uint32): (r: Globals)
    ensures r.randState != 0
    ensures seed != 0 ==> r.randState == seed
    ensures seed == 0 ==> r.randState == 12345
    ensures r.globalTime == 0.0
  {
    Globals(if seed > 0 then seed else 12345, 0.0)
  }

  /** The time step is capped at 0.1 from above and not bounded below. */
  function ClampDelta(dt: real): (r: real)
    ensures r <= 0.1 && r <= dt
    ensures r == dt || r == 0.1
  {
    if dt > 0.1 then 0.1 else dt
  }

  /** Per-call quantities shared by every particle. */
  datatype Frame = Frame(dt: real, time: real, gravityY: real, audioPulse: real,
                         spawnX: real, spawnY: real, spawnZ: real)

  /** Life lost per call: 0.3 per second of (clamped) time. */
  function Decay(dt: real): real { 0.3 * dt }

  /** The update of one particle that stays alive: gravity on vy, then the
      position moves along the updated velocity scaled by the speed and the
      audio boost 1 + 2 * audioPulse, and the life decays. */
  function Integrate(f: Frame, p: Particle): (r: Particle)
    ensures r.vy - p.vy == f.gravityY * f.dt
    ensures r.vx == p.vx && r.vz == p.vz && r.speed == p.speed
    ensures p.life - r.life == Decay(f.dt)
    ensures r.px - p.px == p.vx * f.dt * (p.speed * (1.0 + 2.0 * f.audioPulse))
    ensures r.py - p.py == r.vy * f.dt * (p.speed * (1.0 + 2.0 * f.audioPulse))
    ensures r.pz - p.pz == p.vz * f.dt * (p.speed * (1.0 + 2.0 * f.audioPulse))
  {
    var vy := p.vy + f.gravityY * f.dt;
    var effectiveSpeed := p.speed * (1.0 + f.audioPulse * 2.0);
    Particle(p.px + p.vx * f.dt * effectiveSpeed, p.py + vy * f.dt * effectiveSpeed,
             p.pz + p.vz * f.dt * effectiveSpeed, p.life - Decay(f.dt),
             p.vx, vy, p.vz, p.speed)
  }

  /** A particle reborn at the spawn point: full life, unit speed, an
      offset and an upward burst scattered by index and clock. */
  function Respawn(sin: real -> real, cos: real -> real, f: Frame, i: int): (r: Particle)
    ensures r.life == 1.0 && r.py == f.spawnY && r.speed == 1.0
  {
    var seed := i as real * 0.123 + f.time * 0.1;
    var velSeed := seed + i as real * 0.456;
    Particle(f.spawnX + sin(seed * 12.9898) * 10.0, f.spawnY, f.spawnZ + cos(seed * 78.233) * 10.0, 1.0,
             sin(velSeed) * 2.0, 5.0 + cos(velSeed) * 2.0, cos(velSeed * 1.5) * 2.0, 1.0)
  }

  /** The loop body of updateParticlesWASM for particle i: integrate, and
      respawn instead when the decayed life is negative. The life is never
      negative afterwards, and a life of at most 1 stays at most 1 under a
      non-negative step. */
  function UpdateParticle(sin: real -> real, cos: real -> real, f: Frame, i: int, p: Particle): (r: Particle)
    ensures p.life - Decay(f.dt) >= 0.0 ==> r == Integrate(f, p)
    ensures p.life - Decay(f.dt) < 0.0 ==> r == Respawn(sin, cos, f, i)
    ensures r.life >= 0.0
    ensures f.dt >= 0.0 && p.life <= 1.0 ==> r.life <= 1.0
  {
    var q := Integrate(f, p);
    if q.life < 0.0 then Respawn(sin, cos, f, i) else q
  }

  /** Particle i of the two flat buffers. */
  function ParticleAt(pos: seq<real>, vel: seq<real>, i: int): Particle
    requires 0 <= i && 4 * i + 4 <= |pos| && 4 * i + 4 <= |vel|
  {
    var b := 4 * i;
    Particle(pos[b], pos[b + 1], pos[b + 2], pos[b + 3], vel[b], vel[b + 1], vel[b + 2], vel[b + 3])
  }

  /** Both buffers hold count particles. */
  predicate Fits(pos: seq<real>, vel: seq<real>, count: int)
  {
    4 * count <= |pos| && 4 * count <= |vel|
  }

  /** updateParticlesWASM: the globals' clock advances by exactly the
      clamped step and the random state is untouched; each of the first
      count particles becomes UpdateParticle of itself, so its life ends
      non-negative; every slot past the first count particles keeps its
      value. */
  method UpdateParticlesWASM(sin: real -> real, cos: real -> real, g: Globals,
                             pos: seq<real>, vel: seq<real>, count: int, deltaTime: real,
                             gravityY: real, audioPulse: real, spawnX: real, spawnY: real, spawnZ: real)
    returns (g': Globals, pos': seq<real>, vel': seq<real>)
    requires Fits(pos, vel, count)
    ensures g'.globalTime == g.globalTime + ClampDelta(deltaTime) && g'.randState == g.randState
    ensures |pos'| == |pos| && |vel'| == |vel|
    ensures forall i :: 0 <= i < count ==>
      ParticleAt(pos', vel', i) ==
        UpdateParticle(sin, cos, Frame(ClampDelta(deltaTime), g'.globalTime, gravityY, audioPulse, spawnX, spawnY, spawnZ),
                       i, ParticleAt(pos, vel, i))
    ensures forall i :: 0 <= i < count ==> pos'[4 * i + 3] >= 0.0
    ensures forall j :: 0 <= j < |pos| && j >= 4 * count ==> pos'[j] == pos[j]
    ensures forall j :: 0 <= j < |vel| && j >= 4 * count ==> vel'[j] == vel[j]
  {
    var dt := ClampDelta(deltaTime);
    g' := g.(globalTime := g.globalTime + dt);
    var f := Frame(dt, g'.globalTime, gravityY, audioPulse, spawnX, spawnY, spawnZ);
    pos', vel' := pos, vel;
    var n := if count < 0 then 0 else count;
    var i := 0;
    while i < n
      invariant 0 <= i <= n
      invariant |pos'| == |pos| && |vel'| == |vel|
      invariant forall m :: 0 <= m < i ==> ParticleAt(pos', vel', m) == UpdateParticle(sin, cos, f, m, ParticleAt(pos, vel, m))
      invariant forall j :: 0 <= j < |pos| && j >= 4 * i ==> pos'[j] == pos[j]
      invariant forall j :: 0 <= j < |vel| && j >= 4 * i ==> vel'[j] == vel[j]
    {
      assert ParticleAt(pos', vel', i) == ParticleAt(pos, vel, i);
      var q := UpdateParticle(sin, cos, f, i, ParticleAt(pos', vel', i));
      var b := 4 * i;
      pos' := pos'[b := q.px][b + 1 := q.py][b + 2 := q.pz][b + 3 := q.life];
      vel' := vel'[b := q.vx][b + 1 := q.vy][b + 2 := q.vz][b + 3 := q.speed];
      assert ParticleAt(pos', vel', i) == q;
      i := i + 1;
    }
    forall m | 0 <= m < count
      ensures pos'[4 * m + 3] >= 0.0
    {
      assert pos'[4 * m + 3] == ParticleAt(pos', vel', m).life;
    }
  }

  /** Over any sequence of calls the clock is the sum of the clamped steps
      since the last initialisation. */
  function ClockAfter(t0: real, steps: seq<real>): real
    decreases |steps|
  {
    if |steps| == 0 then t0 else ClockAfter(t0 + ClampDelta(steps[0]), steps[1..])
  }

  /** The clock never runs more than 0.1 per call ahead of where it began. */
  lemma {:induction false} ClockBoundedByCalls(t0: real, steps: seq<real>)
    ensures ClockAfter(t0, steps) <= t0 + 0.1 * |steps| as real
    decreases |steps|
  {
    if |steps| > 0 {
      ClockBoundedByCalls(t0 + ClampDelta(steps[0]), steps[1..]);
    }
  }
}
