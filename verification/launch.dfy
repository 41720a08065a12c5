/**
 * Launch parameters of a projectile fired with a given power: the sphere's
 * radius, the force along the aim direction, and the initial velocity.
 * The aim direction is an input (the controller's world orientation applied
 * to the forward axis).
 */
module Launch {

  import opened Settings
  import opened Vectors

  /** Radius grows linearly with power, from half the base radius to the full one. */
  function Radius(power: real): (r: real)
    ensures power == 0.0 ==> r == ProjectileRadius / 2.0
    ensures power == 1.0 ==> r == ProjectileRadius
    ensures 0.0 <= power <= 1.0 ==> ProjectileRadius / 2.0 <= r <= ProjectileRadius
  {
    ProjectileRadius * (0.5 + power * 0.5)
  }

  /** Force interpolates linearly between the minimum and maximum force. */
  function ForceMagnitude(power: real): (f: real)
    ensures power == 0.0 ==> f == MinForce
    ensures power == 1.0 ==> f == MaxForce
    ensures 0.0 <= power <= 1.0 ==> MinForce <= f <= MaxForce
  {
    MinForce + (MaxForce - MinForce) * power
  }

  /**
   * Both launch quantities are affine in power: the value at a blend of two
   * powers is the same blend of the two values (0.5 gives the midpoint).
   */
  lemma LaunchIsLinear(p: real, q: real, t: real)
    ensures Radius((1.0 - t) * p + t * q) == (1.0 - t) * Radius(p) + t * Radius(q)
    ensures ForceMagnitude((1.0 - t) * p + t * q)
            == (1.0 - t) * ForceMagnitude(p) + t * ForceMagnitude(q)
  {
  }

  /** More power never gives a smaller or slower projectile. */
  lemma LaunchMonotone(p: real, q: real)
    requires p <= q
    ensures Radius(p) <= Radius(q)
    ensures ForceMagnitude(p) <= ForceMagnitude(q)
  {
  }

  /** Velocity of the rig in world space: it moves towards -z at the configured speed. */
  function RigVelocity(): Vec3
  {
    Vec3(0.0, 0.0, -Speed)
  }

  /**
   * World-space launch velocity: the aim direction scaled by the force, with
   * the rig's speed taken off the z component.
   */
  function LaunchVelocity(direction: Vec3, power: real): (v: Vec3)
    ensures Sub(v, RigVelocity()) == Scale(direction, ForceMagnitude(power))
    ensures v.x == direction.x * ForceMagnitude(power)
    ensures v.y == direction.y * ForceMagnitude(power)
  {
    var f := ForceMagnitude(power);
    Vec3(direction.x * f, direction.y * f, direction.z * f - Speed)
  }

  /**
   * Seen from the moving rig, a shot along a unit direction travels at exactly
   * the launch force (compared as squares).
   */
  lemma RelativeSpeedIsForce(direction: Vec3, power: real)
    requires NormSq(direction) == 1.0
    ensures NormSq(Sub(LaunchVelocity(direction, power), RigVelocity()))
            == ForceMagnitude(power) * ForceMagnitude(power)
  {
  }

  /** Everything the physics engine is given for a new projectile. */
  datatype Shot = Shot(origin: Vec3, radius: real, mass: real, velocity: Vec3)

  /** A projectile fired from `origin` along `direction` with `power`. */
  function FireProjectile(origin: Vec3, direction: Vec3, power: real): (s: Shot)
    ensures s.origin == origin && s.mass == ProjectileMass
    ensures s.radius == Radius(power)
    ensures 0.0 <= power <= 1.0 ==> ProjectileRadius / 2.0 <= s.radius <= ProjectileRadius
    ensures Sub(s.velocity, RigVelocity()) == Scale(direction, ForceMagnitude(power))
  {
    Shot(origin, Radius(power), ProjectileMass, LaunchVelocity(direction, power))
  }
}
