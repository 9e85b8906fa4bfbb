/** Sequence helpers for the array operations the handlers use (`Array.prototype.filter`). */
module Seqs {

  /** The elements of `s` that satisfy `p`, in their original order.
      Defined by peeling off the last element; the resulting sequence is the
      same as a front-to-back scan produces. */
  function Filter<T>(s: seq<T>, p: T -> bool): (r: seq<T>)
    ensures |r| <= |s|
    ensures forall k :: 0 <= k < |r| ==> r[k] in s && p(r[k])
    ensures forall j :: 0 <= j < |s| && p(s[j]) ==> s[j] in r
    decreases |s|
  {
    if |s| == 0 then []
    else
      var init := s[..|s| - 1];
      assert s == init + [s[|s| - 1]];
      if p(s[|s| - 1]) then Filter(init, p) + [s[|s| - 1]] else Filter(init, p)
  }

  /** The positions in `s` that `Filter(s, p)` takes its elements from. */
  ghost function MatchPositions<T>(s: seq<T>, p: T -> bool): seq<int>
    decreases |s|
  {
    if |s| == 0 then []
    else if p(s[|s| - 1]) then MatchPositions(s[..|s| - 1], p) + [|s| - 1]
    else MatchPositions(s[..|s| - 1], p)
  }

  /** Every position `MatchPositions` lists is a position of `s` below `|s|`. */
  lemma {:induction false} MatchPositionsBounded<T>(s: seq<T>, p: T -> bool)
    ensures forall k :: 0 <= k < |MatchPositions(s, p)| ==> 0 <= MatchPositions(s, p)[k] < |s|
    decreases |s|
  {
    if |s| > 0 {
      MatchPositionsBounded(s[..|s| - 1], p);
    }
  }

  /** The filter takes its `k`-th element from the `k`-th matching position. */
  lemma {:induction false} FilterPicksMatchPositions<T>(s: seq<T>, p: T -> bool)
    ensures |MatchPositions(s, p)| == |Filter(s, p)|
    ensures forall k :: 0 <= k < |Filter(s, p)| ==>
              0 <= MatchPositions(s, p)[k] < |s| && s[MatchPositions(s, p)[k]] == Filter(s, p)[k]
    decreases |s|
  {
    if |s| > 0 {
      var n := |s| - 1;
      var init := s[..n];
      FilterPicksMatchPositions(init, p);
      var prev, r0 := MatchPositions(init, p), Filter(init, p);
      var idx, r := MatchPositions(s, p), Filter(s, p);
      assert idx == (if p(s[n]) then prev + [n] else prev);
      assert r == (if p(s[n]) then r0 + [s[n]] else r0);
      forall k | 0 <= k < |r| ensures 0 <= idx[k] < |s| && s[idx[k]] == r[k] {
        if k < |r0| {
          assert idx[k] == prev[k] && r[k] == r0[k];
          assert s[idx[k]] == init[prev[k]];
        }
      }
    }
  }

  /** The matching positions are strictly increasing and are exactly the positions
      whose element satisfies `p`: with `FilterPicksMatchPositions`, the filter keeps
      every match, once, in its original order. */
  lemma {:induction false} MatchPositionsExact<T>(s: seq<T>, p: T -> bool)
    ensures forall k, l :: 0 <= k < l < |MatchPositions(s, p)| ==> MatchPositions(s, p)[k] < MatchPositions(s, p)[l]
    ensures forall j :: 0 <= j < |s| ==> (p(s[j]) <==> j in MatchPositions(s, p))
    decreases |s|
  {
    if |s| > 0 {
      var n := |s| - 1;
      var init := s[..n];
      MatchPositionsExact(init, p);
      MatchPositionsBounded(init, p);
      var prev := MatchPositions(init, p);
      var idx := MatchPositions(s, p);
      assert idx == (if p(s[n]) then prev + [n] else prev);
      forall j | 0 <= j < |s| ensures p(s[j]) <==> j in idx {
        if j < n {
          assert s[j] == init[j];
        }
      }
    }
  }

  /** The positions of `s` whose element satisfies `p`. */
  ghost function MatchSet<T>(s: seq<T>, p: T -> bool): set<int>
  {
    set j | 0 <= j < |s| && p(s[j])
  }

  /** The filter's length is the number of positions whose element satisfies `p`. */
  lemma {:induction false} FilterLength<T>(s: seq<T>, p: T -> bool)
    ensures |Filter(s, p)| == |MatchSet(s, p)|
    decreases |s|
  {
    if |s| > 0 {
      var n := |s| - 1;
      var init := s[..n];
      FilterLength(init, p);
      var before := MatchSet(init, p);
      var all := MatchSet(s, p);
      if p(s[n]) {
        assert all == before + {n} by {
          forall j | j in all ensures j in before + {n} {
            if j < n { assert s[j] == init[j]; }
          }
          forall j | j in before + {n} ensures j in all {
            if j < n { assert s[j] == init[j]; }
          }
        }
        assert Filter(s, p) == Filter(init, p) + [s[n]];
      } else {
        assert all == before by {
          forall j | j in all ensures j in before {
            assert j < n;
            assert s[j] == init[j];
          }
          forall j | j in before ensures j in all {
            assert s[j] == init[j];
          }
        }
        assert Filter(s, p) == Filter(init, p);
      }
    }
  }

  /** A filter is empty exactly when no element satisfies `p`. */
  lemma FilterEmpty<T>(s: seq<T>, p: T -> bool)
    ensures Filter(s, p) == [] <==> forall j :: 0 <= j < |s| ==> !p(s[j])
  {
  }
}
