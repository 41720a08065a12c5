/**
 * Order-preserving filtering of sequences, and the back-to-front splice loop
 * the program uses to remove elements from an array while walking it.
 */
module Seqs {

  /** The elements of `s` that satisfy `keep`, in their original order. */
  function Filter<T>(keep: T -> bool, s: seq<T>): (r: seq<T>)
    ensures |r| <= |s|
    decreases |s|
  {
    if |s| == 0 then []
    else if keep(s[0]) then [s[0]] + Filter(keep, s[1..])
    else Filter(keep, s[1..])
  }

  /** The filter holds exactly the elements of `s` that satisfy `keep`. */
  lemma {:induction false} FilterMembers<T>(keep: T -> bool, s: seq<T>)
    ensures forall i :: 0 <= i < |Filter(keep, s)| ==>
              Filter(keep, s)[i] in s && keep(Filter(keep, s)[i])
    ensures forall i :: 0 <= i < |s| && keep(s[i]) ==> s[i] in Filter(keep, s)
    decreases |s|
  {
    if |s| > 0 {
      FilterMembers(keep, s[1..]);
      assert s == [s[0]] + s[1..];
    }
  }

  /** No element occurs twice. */
  predicate Distinct<T(==)>(s: seq<T>)
  {
    forall i, j :: 0 <= i < j < |s| ==> s[i] != s[j]
  }

  /** Filtering distributes over concatenation: relative order is kept. */
  lemma {:induction false} FilterConcat<T>(keep: T -> bool, a: seq<T>, b: seq<T>)
    ensures Filter(keep, a + b) == Filter(keep, a) + Filter(keep, b)
    decreases |a|
  {
    if |a| == 0 {
      assert a + b == b;
    } else {
      assert (a + b)[0] == a[0];
      assert (a + b)[1..] == a[1..] + b;
      FilterConcat(keep, a[1..], b);
    }
  }

  /** Filtering never introduces duplicates. */
  lemma {:induction false} FilterDistinct<T>(keep: T -> bool, s: seq<T>)
    requires Distinct(s)
    ensures Distinct(Filter(keep, s))
    decreases |s|
  {
    if |s| > 0 {
      var tail := s[1..];
      assert Distinct(tail) by {
        forall i, j | 0 <= i < j < |tail| ensures tail[i] != tail[j] {
          assert tail[i] == s[i + 1] && tail[j] == s[j + 1];
        }
      }
      FilterDistinct(keep, tail);
      if keep(s[0]) {
        assert s[0] !in tail by {
          forall k | 0 <= k < |tail| ensures tail[k] != s[0] {
            assert tail[k] == s[k + 1];
          }
        }
        var ft := Filter(keep, tail);
        var r := [s[0]] + ft;
        FilterMembers(keep, tail);
        assert s[0] !in ft;
        forall i, j | 0 <= i < j < |r| ensures r[i] != r[j] {
          if i == 0 {
            assert r[j] == ft[j - 1];
          } else {
            assert r[i] == ft[i - 1] && r[j] == ft[j - 1];
          }
        }
      }
    }
  }

  /** A filter that keeps every element is the identity. */
  lemma {:induction false} FilterKeepsAll<T>(keep: T -> bool, s: seq<T>)
    requires forall i :: 0 <= i < |s| ==> keep(s[i])
    ensures Filter(keep, s) == s
    decreases |s|
  {
    if |s| > 0 {
      assert keep(s[0]);
      FilterKeepsAll(keep, s[1..]);
      assert s == [s[0]] + s[1..];
    }
  }

  /**
   * One step of the back-to-front splice: if everything after index `i` is
   * already filtered, deciding on element `i` leaves everything from `i` on
   * filtered.
   */
  lemma SpliceStep<T>(keep: T -> bool, s: seq<T>, i: int, r: seq<T>)
    requires 0 <= i < |s|
    requires r == s[..i + 1] + Filter(keep, s[i + 1..])
    ensures r[i] == s[i]
    ensures (if keep(r[i]) then r else r[..i] + r[i + 1..]) == s[..i] + Filter(keep, s[i..])
  {
  }

  /**
   * Walks `s` from the last index down to the first and splices out every
   * element `keep` rejects; the survivors are exactly `Filter(keep, s)`.
   */
  method SpliceOut<T>(s: seq<T>, keep: T -> bool) returns (r: seq<T>)
    ensures r == Filter(keep, s)
  {
    r := s;
    var i := |s| - 1;
    assert r == s[..i + 1] + Filter(keep, s[i + 1..]) by {
      assert s[..|s|] == s && s[|s|..] == [];
    }
    while i >= 0
      invariant -1 <= i < |s|
      invariant r == s[..i + 1] + Filter(keep, s[i + 1..])
    {
      SpliceStep(keep, s, i, r);
      if !keep(r[i]) {
        r := r[..i] + r[i + 1..];
      }
      i := i - 1;
    }
    assert s[..0] + Filter(keep, s[0..]) == Filter(keep, s) by {
      assert s[..0] == [] && s[0..] == s;
    }
  }

  /** Whether some element satisfies `p`, scanning front to back. */
  method Some<T>(s: seq<T>, p: T -> bool) returns (found: bool)
    ensures found <==> exists i :: 0 <= i < |s| && p(s[i])
  {
    found := false;
    var i := 0;
    while i < |s| && !found
      invariant 0 <= i <= |s|
      invariant found <==> exists k :: 0 <= k < i && p(s[k])
    {
      found := p(s[i]);
      i := i + 1;
    }
  }
}
