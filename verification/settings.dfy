/**
 * The fixed configuration the core reads (the gameplay, world and projectile
 * groups of the settings object). Floating-point settings are idealised as
 * exact reals; timestamps and durations are whole milliseconds.
 */
module Settings {

  /** Forward speed of the player rig, in world units per second. */
  const Speed: real := 6.0

  /** Launch force at zero and at full charge. */
  const MinForce: real := 15.0
  const MaxForce: real := 60.0

  /** Hold time, in milliseconds, that reaches full power. */
  const MaxChargeTime: int := 1000

  /** Edge length of one square ground chunk. */
  const ChunkSize: int := 100

  /** Chunks kept ahead of (and including) the current one, and behind it. */
  const ChunksVisible: int := 5
  const ChunkBufferBehind: int := 2

  /** Base radius and mass of a projectile. */
  const ProjectileRadius: real := 0.2
  const ProjectileMass: real := 5.0

  /** Starting z of the player rig. */
  const StartZ: real := 5.0
}
