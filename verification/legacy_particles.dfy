/** The stride-8 particle integrator with libc-random respawn: a fixed
    downward pull on vy, motion along the updated velocity scaled by the
    particle's speed, a life that drains at 0.2 per second, and a respawn
    above the origin with four random draws when the life is used up. The
    libc random stream is a parameter of the model: a sequence of values in
    [0, RAND_MAX] and a cursor into it. */
module LegacyParticles {
  import opened ParticleLayout

  /** RAND_MAX of the target C library. */
  const RandMax: int := 2147483647

  /** A value rand() can return. */
  type RandValue = x: int | 0 <= x <= 2147483647

  /** random_float: a rand() draw scaled into [-0.5, 0.5]. */
  function RandomFloat(r: RandValue): (f: real)
    ensures -0.5 <= f <= 0.5
    ensures f == -0.5 <==> r == 0
    ensures f == 0.5 <==> r == RandMax
  {
    r as real / RandMax as real - 0.5
  }

  /** The state of one particle after the motion step and before the
      respawn test. */
  function Move(p: Particle, dt: real): (r: Particle)
    ensures r.vy == p.vy - 2.0 * dt && r.life == p.life - 0.2 * dt
    ensures r.vx == p.vx && r.vz == p.vz && r.speed == p.speed
  {
    var vy := p.vy - 2.0 * dt;
    Particle(p.px + p.vx * dt * p.speed, p.py + vy * dt * p.speed, p.pz + p.vz * dt * p.speed,
             p.life - dt * 0.2, p.vx, vy, p.vz, p.speed)
  }

  /** The particle's life is used up by this step. */
  predicate Expires(p: Particle, dt: real)
  {
    p.life - dt * 0.2 <= 0.0
  }

  /** The loop body of updateParticles: move, then on an expired life
      respawn at height 10 with full life and upward speed 2, x and z
      scattered over [-5, 5] and vx, vz over [-1, 1] by the four draws
      d0..d3 taken in that order. The speed is kept, and the life is
      positive afterwards either way. */
  function UpdateParticle(p: Particle, dt: real, d0: RandValue, d1: RandValue, d2: RandValue, d3: RandValue): (r: Particle)
    ensures !Expires(p, dt) ==> r == Move(p, dt)
    ensures Expires(p, dt) ==>
      && r.py == 10.0 && r.life == 1.0 && r.vy == 2.0
      && -5.0 <= r.px <= 5.0 && -5.0 <= r.pz <= 5.0
      && -1.0 <= r.vx <= 1.0 && -1.0 <= r.vz <= 1.0
    ensures r.speed == p.speed
    ensures r.life > 0.0
  {
    var m := Move(p, dt);
    if m.life <= 0.0 then
      Particle(RandomFloat(d0) * 10.0, 10.0, RandomFloat(d1) * 10.0, 1.0,
               RandomFloat(d2) * 2.0, 2.0, RandomFloat(d3) * 2.0, m.speed)
    else m
  }

  /** How many of the first n particles of data expire in this step. */
  function RespawnsBefore(data: seq<real>, dt: real, n: int): (k: nat)
    requires 0 <= n && 8 * n <= |data|
    ensures k <= n
    decreases n
  {
    if n == 0 then 0
    else RespawnsBefore(data, dt, n - 1) + (if Expires(Packed(data, n - 1), dt) then 1 else 0)
  }

  /** The update of p with the random stream standing at position c. */
  function UpdateWith(p: Particle, dt: real, rand: nat -> RandValue, c: nat): Particle
  {
    UpdateParticle(p, dt, rand(c), rand(c + 1), rand(c + 2), rand(c + 3))
  }

  /** Particle i's update in a pass that started the random stream at
      cursor: it draws from the position left by the respawns before it. */
  function UpdateAt(data: seq<real>, dt: real, rand: nat -> RandValue, cursor: nat, i: int): Particle
    requires 0 <= i && 8 * i + 8 <= |data|
  {
    UpdateWith(Packed(data, i), dt, rand, cursor + 4 * RespawnsBefore(data, dt, i))
  }

  /** The write-back of the loop body: every slot of particle i except the
      speed (slot 7) takes q's value; nothing else changes. */
  function Store(data: seq<real>, i: int, q: Particle): (r: seq<real>)
    requires 0 <= i && 8 * i + 8 <= |data|
    ensures |r| == |data|
    ensures Packed(r, i) == q.(speed := data[8 * i + 7])
    ensures forall j :: 0 <= j < |data| && (j < 8 * i || j >= 8 * i + 7) ==> r[j] == data[j]
  {
    var b := 8 * i;
    data[b := q.px][b + 1 := q.py][b + 2 := q.pz][b + 3 := q.life][b + 4 := q.vx][b + 5 := q.vy][b + 6 := q.vz]
  }

  /** One pass of the loop body for particle i of a pass over data that
      started the random stream at cursor, applied to the buffer as the
      earlier passes left it (particle i itself still as in data): the
      particle becomes its update (whose speed is the stored one, so leaving
      slot 7 alone loses nothing), every other particle keeps its slots, and
      the cursor moves by four exactly when the particle expires. */
  method UpdateOne(data: seq<real>, cur: seq<real>, i: int, dt: real, rand: nat -> RandValue, cursor: nat, c: nat)
    returns (cur': seq<real>, c': nat)
    requires 0 <= i && 8 * i + 8 <= |data| == |cur|
    requires Packed(cur, i) == Packed(data, i)
    requires c == cursor + 4 * RespawnsBefore(data, dt, i)
    ensures |cur'| == |cur|
    ensures Packed(cur', i) == UpdateAt(data, dt, rand, cursor, i)
    ensures forall m {:trigger Packed(cur', m)} :: 0 <= m && 8 * m + 8 <= |cur| && m != i ==> Packed(cur', m) == Packed(cur, m)
    ensures forall j {:trigger cur'[j]} :: 0 <= j < |cur| && j >= 8 * i + 8 ==> cur'[j] == cur[j]
    ensures c' == cursor + 4 * RespawnsBefore(data, dt, i + 1)
  {
    var p := Packed(cur, i);
    var q := UpdateParticle(p, dt, rand(c), rand(c + 1), rand(c + 2), rand(c + 3));
    if Expires(p, dt) {
      c' := c + 4;
    } else {
      c' := c;
    }
    cur' := Store(cur, i, q);
    forall m | 0 <= m && 8 * m + 8 <= |cur| && m != i
      ensures Packed(cur', m) == Packed(cur, m)
    {
      assert m < i || m > i;
    }
  }

  /** Once every particle holds its update, every life slot is positive
      and every speed slot holds the value it had: updates keep the speed
      and respawn with full life. */
  lemma UpdatedSlots(data: seq<real>, data': seq<real>, count: int, dt: real, rand: nat -> RandValue, cursor: nat)
    requires 8 * count <= |data| == |data'|
    requires forall i {:trigger Packed(data', i)} :: 0 <= i < count ==> Packed(data', i) == UpdateAt(data, dt, rand, cursor, i)
    ensures forall i :: 0 <= i < count ==> data'[8 * i + 3] > 0.0 && data'[8 * i + 7] == data[8 * i + 7]
  {
    forall m | 0 <= m < count
      ensures data'[8 * m + 3] > 0.0 && data'[8 * m + 7] == data[8 * m + 7]
    {
      assert data'[8 * m + 3] == Packed(data', m).life;
      assert data'[8 * m + 7] == Packed(data', m).speed;
    }
  }

  /** updateParticles(data, count, dt): each of the first count particles
      becomes its update, drawing from the random stream in particle order,
      four draws per respawn and none otherwise; every life among them is
      positive afterwards; the speed slot and everything past the first
      count particles keep their values. */
  method UpdateParticles(data: seq<real>, count: int, dt: real, rand: nat -> RandValue, cursor: nat)
    returns (data': seq<real>, cursor': nat)
    requires 8 * count <= |data|
    ensures |data'| == |data|
    ensures forall i {:trigger Packed(data', i)} :: 0 <= i < count ==> Packed(data', i) == UpdateAt(data, dt, rand, cursor, i)
    ensures forall i :: 0 <= i < count ==> data'[8 * i + 3] > 0.0 && data'[8 * i + 7] == data[8 * i + 7]
    ensures forall j {:trigger data'[j]} :: 0 <= j < |data| && j >= 8 * count ==> data'[j] == data[j]
    ensures cursor' == cursor + 4 * RespawnsBefore(data, dt, if count < 0 then 0 else count)
  {
    data' := data;
    cursor' := cursor;
    var n := if count < 0 then 0 else count;
    var i := 0;
    while i < n
      invariant 0 <= i <= n
      invariant |data'| == |data|
      invariant cursor' == cursor + 4 * RespawnsBefore(data, dt, i)
      invariant forall m {:trigger Packed(data', m)} :: 0 <= m < i ==> Packed(data', m) == UpdateAt(data, dt, rand, cursor, m)
      invariant forall j {:trigger data'[j]} :: 0 <= j < |data| && j >= 8 * i ==> data'[j] == data[j]
    {
      assert Packed(data', i) == Packed(data, i);
      data', cursor' := UpdateOne(data, data', i, dt, rand, cursor, cursor');
      i := i + 1;
    }
    UpdatedSlots(data, data', count, dt, rand, cursor);
  }
}
