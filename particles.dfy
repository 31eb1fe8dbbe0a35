/** The particle record as the renderer sees it. The record's layout lives in
    particle.h, which is not part of this model: only the position is read. */
module Particles {
  datatype Position = Position(x: real, y: real, z: real)

  datatype Particle = Particle(pos: Position)
}
