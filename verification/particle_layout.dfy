/** The particle record the three particle integrators share: position,
    remaining life, velocity and speed, and its interleaved eight-float
    layout [x, y, z, life, vx, vy, vz, speed]. */
module ParticleLayout {

  datatype Particle = Particle(px: real, py: real, pz: real, life: real,
                               vx: real, vy: real, vz: real, speed: real)

  /** Particle i of an interleaved buffer of eight floats per particle. */
  function Packed(data: seq<real>, i: int): Particle
    requires 0 <= i && 8 * i + 8 <= |data|
  {
    var b := 8 * i;
    Particle(data[b], data[b + 1], data[b + 2], data[b + 3], data[b + 4], data[b + 5], data[b + 6], data[b + 7])
  }
}
