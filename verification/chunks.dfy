/**
 * Chunk streaming: the ground is a row of square chunks along negative z,
 * each identified by its integer index. The state is the list of active
 * indices, in creation order, and the index of the last boundary crossed.
 */
module Chunks {

  import opened Settings
  import opened Seqs

  datatype ChunkState = ChunkState(active: seq<int>, lastIndex: int)

  /** World z of the chunk with index `zIndex`; chunks advance towards -z. */
  function ZPos(zIndex: int): (z: real)
    ensures z / -(ChunkSize as real) == zIndex as real
    ensures z < 0.0 <==> zIndex > 0
  {
    zIndex as real * -(ChunkSize as real)
  }

  /** Index of the chunk the rig at `z` is in: floor(-z / chunkSize). */
  function CurrentIndex(z: real): (c: int)
    ensures ZPos(c + 1) < z <= ZPos(c)
  {
    (-z / ChunkSize as real).Floor
  }

  /**
   * The current index is the only index whose chunk span (ZPos(c + 1), ZPos(c)]
   * contains `z`; in particular a rig standing at ZPos(c) is in chunk c.
   */
  lemma CurrentIndexUnique(z: real, c: int)
    ensures CurrentIndex(z) == c <==> ZPos(c + 1) < z <= ZPos(c)
  {
  }

  /** The index at which a crossing into `c` spawns a chunk. */
  function SpawnIndex(c: int): int
  {
    c + ChunksVisible - 1
  }

  /** Chunks with an index below this are disposed of on a crossing into `c`. */
  function CleanupThreshold(c: int): int
  {
    c - ChunkBufferBehind
  }

  /** The survival test of the cleanup loop: index not below `threshold`. */
  function AtOrAbove(threshold: int): int -> bool
  {
    k => k >= threshold
  }

  /** The consecutive indices lo, lo + 1, ..., hi. */
  function Window(lo: int, hi: int): seq<int>
    requires lo <= hi + 1
  {
    seq(hi - lo + 1, k => lo + k)
  }

  /** The window that should be active once the last crossing was into `c`. */
  function ExpectedWindow(c: int): seq<int>
  {
    Window(CleanupThreshold(c), SpawnIndex(c))
  }

  /** Exactly one chunk per index of the expected window, in ascending order. */
  predicate Settled(s: ChunkState)
  {
    s.active == ExpectedWindow(s.lastIndex)
  }

  /** The state built at start-up: indices -chunkBufferBehind .. chunksVisible - 1. */
  function InitialState(): ChunkState
  {
    ChunkState(Window(-ChunkBufferBehind, ChunksVisible - 1), 0)
  }

  /** Start-up: push one chunk per index from -chunkBufferBehind up to chunksVisible - 1. */
  method InitChunks() returns (s: ChunkState)
    ensures s.lastIndex == 0
    ensures |s.active| == ChunksVisible + ChunkBufferBehind
    ensures forall k :: 0 <= k < |s.active| ==> s.active[k] == k - ChunkBufferBehind
    ensures s == InitialState()
  {
    var active: seq<int> := [];
    var i := -ChunkBufferBehind;
    while i < ChunksVisible
      invariant -ChunkBufferBehind <= i <= ChunksVisible
      invariant |active| == i + ChunkBufferBehind
      invariant forall k :: 0 <= k < |active| ==> active[k] == k - ChunkBufferBehind
    {
      active := active + [i];
      i := i + 1;
    }
    s := ChunkState(active, 0);
  }

  /**
   * One streaming update for the rig at `z`. Nothing happens unless the
   * current index is beyond the last one; otherwise the chunk at the spawn
   * index is appended if absent, every chunk below the cleanup threshold is
   * removed, and the current index is recorded.
   */
  function UpdateChunks(s: ChunkState, z: real): (r: ChunkState)
    ensures CurrentIndex(z) <= s.lastIndex ==> r == s
    ensures CurrentIndex(z) > s.lastIndex ==> r.lastIndex == CurrentIndex(z) > s.lastIndex
    ensures r.lastIndex >= s.lastIndex
  {
    var c := CurrentIndex(z);
    if c <= s.lastIndex then s
    else
      var grown := if SpawnIndex(c) in s.active then s.active else s.active + [SpawnIndex(c)];
      ChunkState(Filter(AtOrAbove(CleanupThreshold(c)), grown), c)
  }

  /** The same update written as the program's loops over a mutable list. */
  method UpdateChunksInPlace(s: ChunkState, z: real) returns (r: ChunkState)
    ensures r == UpdateChunks(s, z)
  {
    var c := CurrentIndex(z);
    r := s;
    if c > s.lastIndex {
      var spawn := SpawnIndex(c);
      var present := Some(s.active, (k: int) => k == spawn);
      var active := s.active;
      if !present {
        active := active + [spawn];
      } else {
        assert spawn in s.active;
      }
      active := SpliceOut(active, AtOrAbove(CleanupThreshold(c)));
      r := ChunkState(active, c);
    }
  }

  /**
   * An effective update keeps every old chunk at or above the threshold in
   * its old relative order, and can only add the spawn index, at the end.
   */
  lemma UpdateKeepsOrder(s: ChunkState, z: real)
    requires CurrentIndex(z) > s.lastIndex
    ensures var c := CurrentIndex(z);
      UpdateChunks(s, z).active
      == Filter(AtOrAbove(CleanupThreshold(c)), s.active)
         + (if SpawnIndex(c) in s.active then [] else [SpawnIndex(c)])
  {
    var c := CurrentIndex(z);
    var keep := AtOrAbove(CleanupThreshold(c));
    if SpawnIndex(c) !in s.active {
      FilterConcat(keep, s.active, [SpawnIndex(c)]);
      assert [SpawnIndex(c)][1..] == [];
    }
  }

  /**
   * After an effective update an index is active exactly when it was active
   * or is the spawn index, and it is not below the cleanup threshold.
   */
  lemma UpdateRemovesExactly(s: ChunkState, z: real, k: int)
    requires CurrentIndex(z) > s.lastIndex
    ensures var c := CurrentIndex(z);
      k in UpdateChunks(s, z).active
      <==> (k in s.active || k == SpawnIndex(c)) && k >= CleanupThreshold(c)
  {
    var c := CurrentIndex(z);
    var grown := if SpawnIndex(c) in s.active then s.active else s.active + [SpawnIndex(c)];
    var r := UpdateChunks(s, z).active;
    assert r == Filter(AtOrAbove(CleanupThreshold(c)), grown);
    FilterMembers(AtOrAbove(CleanupThreshold(c)), grown);
    if k in r {
      var i :| 0 <= i < |r| && r[i] == k;
    }
    if (k in s.active || k == SpawnIndex(c)) && k >= CleanupThreshold(c) {
      assert k in grown;
      var i :| 0 <= i < |grown| && grown[i] == k;
    }
  }

  /** No update ever makes two active chunks share an index. */
  lemma UpdateKeepsDistinct(s: ChunkState, z: real)
    requires Distinct(s.active)
    ensures Distinct(UpdateChunks(s, z).active)
  {
    var c := CurrentIndex(z);
    if c > s.lastIndex {
      var grown := if SpawnIndex(c) in s.active then s.active else s.active + [SpawnIndex(c)];
      assert Distinct(grown) by {
        if SpawnIndex(c) !in s.active {
          forall i, j | 0 <= i < j < |grown| ensures grown[i] != grown[j] {
            if j == |s.active| {
              assert grown[i] == s.active[i];
            }
          }
        }
      }
      FilterDistinct(AtOrAbove(CleanupThreshold(c)), grown);
    }
  }

  /** Cleaning a window below `t` leaves the window starting at `t`. */
  lemma {:induction false} FilterWindow(lo: int, hi: int, t: int)
    requires lo <= t <= hi + 1
    ensures Filter(AtOrAbove(t), Window(lo, hi)) == Window(t, hi)
    decreases t - lo
  {
    var w := Window(lo, hi);
    if lo < t {
      assert w[0] == lo && !AtOrAbove(t)(lo);
      assert w[1..] == Window(lo + 1, hi);
      FilterWindow(lo + 1, hi, t);
    } else {
      FilterKeepsAll(AtOrAbove(t), w);
    }
  }

  /**
   * If the state is the expected window and the current index is at most one
   * past the last one, the update leaves the expected window of the new last
   * index, which always holds chunksVisible + chunkBufferBehind chunks.
   */
  lemma UpdateKeepsWindow(s: ChunkState, z: real)
    requires Settled(s)
    requires CurrentIndex(z) <= s.lastIndex + 1
    ensures Settled(UpdateChunks(s, z))
    ensures |UpdateChunks(s, z).active| == ChunksVisible + ChunkBufferBehind
  {
    var c := CurrentIndex(z);
    if c > s.lastIndex {
      var lo := CleanupThreshold(s.lastIndex);
      var hi := SpawnIndex(s.lastIndex);
      assert SpawnIndex(c) == hi + 1;
      assert SpawnIndex(c) !in s.active by {
        forall k | 0 <= k < |s.active| ensures s.active[k] != hi + 1 {
        }
      }
      assert s.active + [SpawnIndex(c)] == Window(lo, hi + 1);
      FilterWindow(lo, hi + 1, lo + 1);
    }
  }

  /**
   * A crossing of more than one chunk leaves a gap: from the start-up state,
   * a rig at z = -250 (index 2) gets index 6 but never index 5.
   */
  lemma JumpLeavesGap()
    ensures UpdateChunks(InitialState(), -250.0).active == [0, 1, 2, 3, 4, 6]
    ensures !Settled(UpdateChunks(InitialState(), -250.0))
  {
    var s := InitialState();
    CurrentIndexUnique(-250.0, 2);
    assert SpawnIndex(2) !in s.active;
    UpdateKeepsOrder(s, -250.0);
    FilterWindow(-2, 4, 0);
    assert Window(0, 4) + [6] == [0, 1, 2, 3, 4, 6];
    assert ExpectedWindow(2)[5] == 5;
  }
}
