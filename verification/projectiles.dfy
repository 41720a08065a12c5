/**
 * Per-frame cleanup of tracked projectiles. Each tracked projectile carries
 * the position read back from the physics engine this frame, or nothing when
 * its body has no motion state.
 */
module Projectiles {

  import opened Options
  import opened Vectors
  import opened Seqs

  datatype Tracked = Tracked(body: nat, position: Option<Vec3>)

  /** Height below which a projectile is gone. */
  const FloorLimit: real := -10.0

  /** How far behind (+z) and ahead (-z) of the rig a projectile may be. */
  const BehindMargin: real := 50.0
  const FarMargin: real := 300.0

  /** A position outside the envelope that travels with the rig at `rigZ`. */
  predicate Escaped(p: Vec3, rigZ: real)
    ensures !Escaped(p, rigZ) ==>
      FloorLimit <= p.y && rigZ - FarMargin <= p.z <= rigZ + BehindMargin
  {
    p.y < FloorLimit || p.z > rigZ + BehindMargin || p.z < rigZ - FarMargin
  }

  /**
   * The envelope travels with the rig: moving a position and the rig by the
   * same distance along z does not change whether it has escaped.
   */
  lemma EnvelopeMovesWithRig(p: Vec3, rigZ: real, dz: real)
    ensures Escaped(Vec3(p.x, p.y, p.z + dz), rigZ + dz) <==> Escaped(p, rigZ)
  {
  }

  /** A tracked projectile stays unless it has a read-back position that escaped. */
  function Survives(rigZ: real): Tracked -> bool
  {
    (t: Tracked) => t.position.None? || !Escaped(t.position.value, rigZ)
  }

  /** The projectiles still tracked after this frame's cleanup, in their old order. */
  function Cleanup(bodies: seq<Tracked>, rigZ: real): (r: seq<Tracked>)
    ensures |r| <= |bodies|
    ensures forall i :: 0 <= i < |r| ==> r[i] in bodies
    ensures forall i :: 0 <= i < |r| ==> r[i].position.Some? ==> !Escaped(r[i].position.value, rigZ)
    ensures forall i :: 0 <= i < |bodies| && bodies[i].position.None? ==> bodies[i] in r
    ensures forall i :: 0 <= i < |bodies| && bodies[i].position.Some? ==>
              (!Escaped(bodies[i].position.value, rigZ) ==> bodies[i] in r)
  {
    FilterMembers(Survives(rigZ), bodies);
    Filter(Survives(rigZ), bodies)
  }

  /** The cleanup loop: walk back to front, splicing out every escaped projectile. */
  method CleanupInPlace(bodies: seq<Tracked>, rigZ: real) returns (kept: seq<Tracked>)
    ensures kept == Cleanup(bodies, rigZ)
  {
    kept := SpliceOut(bodies, Survives(rigZ));
  }

  /** A projectile below the floor limit is removed wherever it is along z. */
  lemma FallenIsRemoved(bodies: seq<Tracked>, rigZ: real, t: Tracked)
    requires t.position.Some? && t.position.value.y < FloorLimit
    ensures t !in Cleanup(bodies, rigZ)
  {
  }

  /** Cleanup acts on each part of the list separately: survivors keep their order. */
  lemma CleanupKeepsOrder(front: seq<Tracked>, back: seq<Tracked>, rigZ: real)
    ensures Cleanup(front + back, rigZ) == Cleanup(front, rigZ) + Cleanup(back, rigZ)
  {
    FilterConcat(Survives(rigZ), front, back);
  }

  /** A second cleanup against the same rig position removes nothing more. */
  lemma CleanupIdempotent(bodies: seq<Tracked>, rigZ: real)
    ensures Cleanup(Cleanup(bodies, rigZ), rigZ) == Cleanup(bodies, rigZ)
  {
    FilterKeepsAll(Survives(rigZ), Cleanup(bodies, rigZ));
  }
}
