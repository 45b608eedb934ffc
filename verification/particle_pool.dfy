/** The fixed particle pool: MaxParticles particles in one static
    interleaved buffer of eight floats each. The update moves live
    particles along their velocity and drains their life; dead particles
    are skipped and nothing respawns. The collision query asks whether any
    live particle lies strictly inside a sphere. */
module ParticlePool {
  import opened ParticleLayout

  const MaxParticles: int := 10000

  /** The static buffer particleData[MAX_PARTICLES * 8]. */
  predicate IsPool(data: seq<real>)
  {
    |data| == 8 * MaxParticles
  }

  /** The loop body of updateParticles for one particle: a live particle
      (life above zero) advances by its velocity times dt and loses dt of
      life; a dead one is left as it is. Velocity and speed never change. */
  function Step(p: Particle, dt: real): (r: Particle)
    ensures p.life <= 0.0 ==> r == p
    ensures p.life > 0.0 ==>
      && r.px - p.px == p.vx * dt && r.py - p.py == p.vy * dt && r.pz - p.pz == p.vz * dt
      && r.life == p.life - dt
    ensures r.vx == p.vx && r.vy == p.vy && r.vz == p.vz && r.speed == p.speed
  {
    if p.life > 0.0 then
      p.(px := p.px + p.vx * dt, py := p.py + p.vy * dt, pz := p.pz + p.vz * dt, life := p.life - dt)
    else p
  }

  /** Two steps that both find the particle alive move it as one step of
      their combined length. */
  lemma StepsCompose(p: Particle, a: real, b: real)
    requires p.life > 0.0 && p.life - a > 0.0
    ensures Step(Step(p, a), b) == Step(p, a + b)
  {
    assert p.vx * a + p.vx * b == p.vx * (a + b);
    assert p.vy * a + p.vy * b == p.vy * (a + b);
    assert p.vz * a + p.vz * b == p.vz * (a + b);
  }

  /** A particle whose life is used up stays where it is from then on. */
  lemma {:induction false} DeadStaysPut(p: Particle, steps: seq<real>)
    requires p.life <= 0.0
    ensures StepAll(p, steps) == p
    decreases |steps|
  {
    if |steps| > 0 {
      DeadStaysPut(Step(p, steps[0]), steps[1..]);
    }
  }

  /** A particle after a sequence of update calls. */
  function StepAll(p: Particle, steps: seq<real>): Particle
    decreases |steps|
  {
    if |steps| == 0 then p else StepAll(Step(p, steps[0]), steps[1..])
  }

  /** The write-back of one particle: slots 0 to 3 take q's position and
      life; nothing else changes. */
  function StoreMotion(data: seq<real>, i: int, q: Particle): (r: seq<real>)
    requires 0 <= i && 8 * i + 8 <= |data|
    ensures |r| == |data|
    ensures Packed(r, i) == Packed(data, i).(px := q.px, py := q.py, pz := q.pz, life := q.life)
    ensures forall j :: 0 <= j < |data| && (j < 8 * i || j >= 8 * i + 4) ==> r[j] == data[j]
  {
    var b := 8 * i;
    data[b := q.px][b + 1 := q.py][b + 2 := q.pz][b + 3 := q.life]
  }

  /** updateParticles(deltaTime, globalTime): every particle of the pool
      becomes its Step; in particular the dead ones do not change at all.
      The globalTime argument is not used. */
  method UpdateParticles(data: seq<real>, deltaTime: real, globalTime: real) returns (data': seq<real>)
    requires IsPool(data)
    ensures IsPool(data')
    ensures forall i :: 0 <= i < MaxParticles ==> Packed(data', i) == Step(Packed(data, i), deltaTime)
    ensures forall i :: 0 <= i < MaxParticles && data[8 * i + 3] <= 0.0 ==> Packed(data', i) == Packed(data, i)
  {
    data' := data;
    var i := 0;
    while i < MaxParticles
      invariant 0 <= i <= MaxParticles
      invariant IsPool(data')
      invariant forall m :: 0 <= m < i ==> Packed(data', m) == Step(Packed(data, m), deltaTime)
      invariant forall j :: 0 <= j < |data| && j >= 8 * i ==> data'[j] == data[j]
    {
      var p := Packed(data', i);
      assert p == Packed(data, i);
      if p.life > 0.0 {
        data' := StoreMotion(data', i, Step(p, deltaTime));
      }
      assert Packed(data', i) == Step(p, deltaTime);
      i := i + 1;
    }
  }

  /** Particle i is alive and strictly inside the sphere of the given
      radius around (px, py, pz). */
  predicate Hit(data: seq<real>, i: int, px: real, py: real, pz: real, radius: real)
    requires IsPool(data) && 0 <= i < MaxParticles
  {
    var b := 8 * i;
    var dx := px - data[b];
    var dy := py - data[b + 1];
    var dz := pz - data[b + 2];
    data[b + 3] > 0.0 && dx * dx + dy * dy + dz * dz < radius * radius
  }

  /** checkCollision: 1 when some live particle lies strictly inside the
      sphere, 0 when none does. The scan stops at the first hit. */
  method CheckCollision(data: seq<real>, px: real, py: real, pz: real, radius: real) returns (r: int)
    requires IsPool(data)
    ensures r == 0 || r == 1
    ensures r == 1 <==> exists i :: 0 <= i < MaxParticles && Hit(data, i, px, py, pz, radius)
  {
    var i := 0;
    while i < MaxParticles
      invariant 0 <= i <= MaxParticles
      invariant forall m :: 0 <= m < i ==> !Hit(data, m, px, py, pz, radius)
    {
      if Hit(data, i, px, py, pz, radius) {
        return 1;
      }
      i := i + 1;
    }
    return 0;
  }
}
