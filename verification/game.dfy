/**
 * The frame loop's game state: the rig moves forward every frame and the
 * chunk streamer follows it; a select-end turns a charge into a shot.
 */
module Game {

  import opened Settings
  import opened Options
  import opened Vectors
  import opened Seqs
  import opened Chunks
  import opened Charge
  import opened Launch

  /** The rig after a frame of `dt` seconds at the configured speed. */
  function AdvanceRig(z: real, dt: real): (next: real)
    ensures 0.0 <= dt ==> next <= z
    ensures next + Speed * dt == z
  {
    z - Speed * dt
  }

  /**
   * A frame short enough that the rig covers at most one chunk moves the
   * current chunk index forward by zero or one.
   */
  lemma ShortFrameCrossesAtMostOne(z: real, dt: real)
    requires 0.0 <= dt && Speed * dt <= ChunkSize as real
    ensures CurrentIndex(z) <= CurrentIndex(AdvanceRig(z, dt)) <= CurrentIndex(z) + 1
  {
  }

  /** Moving forward (towards -z) never lowers the current chunk index. */
  lemma CurrentIndexMonotone(z: real, next: real)
    requires next <= z
    ensures CurrentIndex(z) <= CurrentIndex(next)
  {
  }

  /** The rig position and the chunk streamer's state. */
  datatype World = World(rigZ: real, chunks: ChunkState)

  /** The state at start-up: the rig at its start position, the initial chunks. */
  function InitialWorld(): World
  {
    World(StartZ, InitialState())
  }

  /** One frame: advance the rig, then update the chunks for its new position. */
  function Tick(w: World, dt: real): (next: World)
    ensures next.rigZ == AdvanceRig(w.rigZ, dt)
    ensures next.chunks == UpdateChunks(w.chunks, next.rigZ)
    ensures next.chunks.lastIndex >= w.chunks.lastIndex
    ensures CurrentIndex(next.rigZ) > w.chunks.lastIndex ==> next.chunks.lastIndex == CurrentIndex(next.rigZ)
    ensures CurrentIndex(next.rigZ) <= w.chunks.lastIndex ==> next.chunks == w.chunks
  {
    var z := AdvanceRig(w.rigZ, dt);
    World(z, UpdateChunks(w.chunks, z))
  }

  /** Frames in order, with their deltas. */
  function Run(w: World, deltas: seq<real>): World
    decreases |deltas|
  {
    if |deltas| == 0 then w else Run(Tick(w, deltas[0]), deltas[1..])
  }

  /** The chunks are the expected window and the rig has not passed the last crossing. */
  predicate Steady(w: World)
  {
    Settled(w.chunks) && CurrentIndex(w.rigZ) <= w.chunks.lastIndex
  }

  /** The start-up world is steady: the rig at z = 5 is in chunk -1. */
  lemma InitialWorldSteady()
    ensures CurrentIndex(StartZ) == -1
    ensures Steady(InitialWorld())
  {
  }

  /** A short frame keeps the world steady. */
  lemma TickKeepsSteady(w: World, dt: real)
    requires Steady(w)
    requires 0.0 <= dt && Speed * dt <= ChunkSize as real
    ensures Steady(Tick(w, dt))
  {
    ShortFrameCrossesAtMostOne(w.rigZ, dt);
    UpdateKeepsWindow(w.chunks, AdvanceRig(w.rigZ, dt));
  }

  /**
   * As long as no frame lasts longer than chunkSize / speed, the active
   * chunks are always exactly the expected window, of chunksVisible +
   * chunkBufferBehind distinct chunks.
   */
  lemma {:induction false} RunKeepsSteady(w: World, deltas: seq<real>)
    requires Steady(w)
    requires forall i :: 0 <= i < |deltas| ==> 0.0 <= deltas[i] && Speed * deltas[i] <= ChunkSize as real
    ensures Steady(Run(w, deltas))
    ensures |Run(w, deltas).chunks.active| == ChunksVisible + ChunkBufferBehind
    ensures Distinct(Run(w, deltas).chunks.active)
    decreases |deltas|
  {
    if |deltas| > 0 {
      TickKeepsSteady(w, deltas[0]);
      RunKeepsSteady(Tick(w, deltas[0]), deltas[1..]);
    }
  }

  /**
   * Whatever the frame lengths, even ones that leave a gap in the window,
   * no two active chunks ever share an index.
   */
  lemma {:induction false} RunKeepsDistinct(w: World, deltas: seq<real>)
    requires Distinct(w.chunks.active)
    ensures Distinct(Run(w, deltas).chunks.active)
    decreases |deltas|
  {
    if |deltas| > 0 {
      UpdateKeepsDistinct(w.chunks, AdvanceRig(w.rigZ, deltas[0]));
      RunKeepsDistinct(Tick(w, deltas[0]), deltas[1..]);
    }
  }

  /** The start-up chunks have distinct indices. */
  lemma InitialWorldDistinct()
    ensures Distinct(InitialWorld().chunks.active)
  {
  }

  /** The larger of two integers. */
  function Max(a: int, b: int): int
  {
    if a < b then b else a
  }

  /**
   * While the rig only moves forward, the last crossed index is the rig's
   * current chunk index, except that it never drops below its start value 0.
   */
  lemma {:induction false} RunTracksRig(w: World, deltas: seq<real>)
    requires w.chunks.lastIndex == Max(0, CurrentIndex(w.rigZ))
    requires forall i :: 0 <= i < |deltas| ==> 0.0 <= deltas[i]
    ensures Run(w, deltas).chunks.lastIndex == Max(0, CurrentIndex(Run(w, deltas).rigZ))
    decreases |deltas|
  {
    if |deltas| > 0 {
      CurrentIndexMonotone(w.rigZ, AdvanceRig(w.rigZ, deltas[0]));
      RunTracksRig(Tick(w, deltas[0]), deltas[1..]);
    }
  }

  /**
   * From start-up, over short frames, the active chunks are exactly the
   * window around the chunk the rig is in (around chunk 0 while the rig has
   * not yet reached it).
   */
  lemma ActiveWindowFollowsRig(deltas: seq<real>)
    requires forall i :: 0 <= i < |deltas| ==> 0.0 <= deltas[i] && Speed * deltas[i] <= ChunkSize as real
    ensures var w := Run(InitialWorld(), deltas);
      w.chunks.active == ExpectedWindow(Max(0, CurrentIndex(w.rigZ)))
  {
    InitialWorldSteady();
    RunKeepsSteady(InitialWorld(), deltas);
    RunTracksRig(InitialWorld(), deltas);
  }

  /** The charges left after a select-end, and the shot it fired, if any. */
  datatype SelectEnd<D> = SelectEnd(charges: map<D, int>, shot: Option<Shot>)

  /**
   * Select-end for `device` at `now`, aimed from `origin` along `direction`:
   * a charge in progress fires a projectile with its power and is forgotten;
   * a release without a charge does nothing.
   */
  function OnSelectEnd<D>(charges: map<D, int>, device: D, now: int, origin: Vec3, direction: Vec3)
    : (r: SelectEnd<D>)
    ensures r.shot.Some? <==> device in charges
    ensures device in charges ==>
      r.shot == Some(FireProjectile(origin, direction, Power(charges[device], now)))
    ensures r.charges == charges - {device}
  {
    var release := EndCharge(charges, device, now);
    match release.fired
    case Some(power) => SelectEnd(release.remaining, Some(FireProjectile(origin, direction, power)))
    case None => SelectEnd(release.remaining, None)
  }

  /** A full-length hold fires at maximum force and full radius. */
  lemma FullHoldFiresAtMaximum<D>(charges: map<D, int>, device: D, now: int, origin: Vec3, direction: Vec3)
    requires device in charges && now - charges[device] >= MaxChargeTime
    ensures var r := OnSelectEnd(charges, device, now, origin, direction);
      r.shot.Some? && r.shot.value.radius == ProjectileRadius
      && Sub(r.shot.value.velocity, RigVelocity()) == Scale(direction, MaxForce)
  {
  }
}
