/**
 * Order-preserving filtering of a sequence (what Rust's `Vec::retain`
 * leaves behind) and in-order embedding of one sequence in another.
 */
module Sequences {

  /** `pos` places `sub`, in order, at increasing positions of `s`. */
  ghost predicate Embeds<T>(pos: seq<nat>, sub: seq<T>, s: seq<T>)
  {
    && |pos| == |sub|
    && (forall i, j :: 0 <= i < j < |pos| ==> pos[i] < pos[j])
    && (forall i :: 0 <= i < |pos| ==> pos[i] < |s| && s[pos[i]] == sub[i])
  }

  /** The elements of `s` that satisfy `keep`, in their order in `s`. */
  function Filter<T>(s: seq<T>, keep: T -> bool): (r: seq<T>)
    ensures |r| <= |s|
  {
    if s == [] then []
    else Filter(s[..|s| - 1], keep) + (if keep(s[|s| - 1]) then [s[|s| - 1]] else [])
  }

  /** Filtering one element more. */
  lemma FilterStep<T>(s: seq<T>, keep: T -> bool, i: nat)
    requires i < |s|
    ensures Filter(s[..i + 1], keep) == Filter(s[..i], keep) + (if keep(s[i]) then [s[i]] else [])
  {
    assert s[..i + 1][..i] == s[..i];
  }

  /** An element survives the filter if and only if it is in `s` and satisfies `keep`. */
  lemma {:induction false} FilterMembers<T>(s: seq<T>, keep: T -> bool)
    ensures forall x :: x in Filter(s, keep) <==> x in s && keep(x)
  {
    if s != [] {
      var pre := s[..|s| - 1];
      FilterMembers(pre, keep);
      assert s == pre + [s[|s| - 1]];
    }
  }

  /**
   * The filtered sequence is the subsequence of `s` at exactly the positions
   * whose element satisfies `keep`.
   */
  lemma {:induction false} FilterEmbeds<T>(s: seq<T>, keep: T -> bool) returns (pos: seq<nat>)
    ensures Embeds(pos, Filter(s, keep), s)
    ensures forall i :: 0 <= i < |pos| ==> keep(s[pos[i]])
    ensures forall k :: 0 <= k < |s| && keep(s[k]) ==> k in pos
  {
    if s == [] {
      pos := [];
    } else {
      var n := |s| - 1;
      var pre := s[..n];
      var before := FilterEmbeds(pre, keep);
      assert Filter(s, keep) == Filter(pre, keep) + (if keep(s[n]) then [s[n]] else []);
      forall i | 0 <= i < |before| ensures before[i] < n && s[before[i]] == pre[before[i]] {
      }
      if keep(s[n]) {
        pos := before + [n];
        assert Embeds(pos, Filter(s, keep), s) by {
          forall i | 0 <= i < |pos| ensures pos[i] < |s| && s[pos[i]] == Filter(s, keep)[i] {
            if i < |before| {
              assert pos[i] == before[i];
            }
          }
        }
        forall k | 0 <= k < |s| && keep(s[k]) ensures k in pos {
          if k < n {
            assert pre[k] == s[k];
            assert k in before;
          } else {
            assert pos[|before|] == k;
          }
        }
      } else {
        pos := before;
        forall k | 0 <= k < |s| && keep(s[k]) ensures k in pos {
          assert pre[k] == s[k];
        }
      }
    }
  }

  /** Filtering twice with the same test changes nothing more. */
  lemma {:induction false} FilterIdempotent<T>(s: seq<T>, keep: T -> bool)
    ensures Filter(Filter(s, keep), keep) == Filter(s, keep)
  {
    if s != [] {
      var n := |s| - 1;
      FilterIdempotent(s[..n], keep);
      var f := Filter(s[..n], keep);
      if keep(s[n]) {
        var g := f + [s[n]];
        assert g[..|g| - 1] == f && g[|g| - 1] == s[n];
        assert Filter(s, keep) == g;
        assert Filter(g, keep) == Filter(f, keep) + [s[n]];
      } else {
        assert Filter(s, keep) == f + [] == f;
      }
    }
  }
}
