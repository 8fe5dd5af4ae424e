/** Order facts and extrema over sequences of reals. */
module RealSeq {

  ghost predicate StrictlyIncreasing(s: seq<real>) {
    forall i, j :: 0 <= i < j < |s| ==> s[i] < s[j]
  }

  /** Each entry exceeds its predecessor. */
  ghost predicate StepwiseIncreasing(s: seq<real>) {
    forall i :: 0 < i < |s| ==> s[i - 1] < s[i]
  }

  ghost predicate Within(s: seq<real>, lo: real, hi: real) {
    forall i :: 0 <= i < |s| ==> lo <= s[i] <= hi
  }

  /** Increasing step by step means increasing between any two positions. */
  lemma {:induction false} StepwiseIsStrict(s: seq<real>)
    requires StepwiseIncreasing(s)
    ensures StrictlyIncreasing(s)
  {
    if |s| > 1 {
      var p := s[..|s| - 1];
      assert StepwiseIncreasing(p) by {
        forall i | 0 < i < |p| ensures p[i - 1] < p[i] {
          assert p[i - 1] == s[i - 1] && p[i] == s[i];
        }
      }
      StepwiseIsStrict(p);
      forall i, j | 0 <= i < j < |s| ensures s[i] < s[j] {
        if j < |s| - 1 {
          assert s[i] == p[i] && s[j] == p[j];
        } else if i < j - 1 {
          assert s[i] == p[i] && s[j - 1] == p[j - 1];
        }
      }
    }
  }

  /** The smallest entry, numpy's `nanmin` on a NaN-free array. */
  function Min(s: seq<real>): (m: real)
    requires |s| > 0
    ensures exists i :: 0 <= i < |s| && s[i] == m
    ensures forall i :: 0 <= i < |s| ==> m <= s[i]
  {
    if |s| == 1 then s[0]
    else
      var rest := Min(s[1..]);
      assert forall i :: 1 <= i < |s| ==> s[i] == s[1..][i - 1];
      if s[0] <= rest then s[0] else rest
  }

  /** The largest entry, numpy's `nanmax` on a NaN-free array. */
  function Max(s: seq<real>): (m: real)
    requires |s| > 0
    ensures exists i :: 0 <= i < |s| && s[i] == m
    ensures forall i :: 0 <= i < |s| ==> s[i] <= m
  {
    if |s| == 1 then s[0]
    else
      var rest := Max(s[1..]);
      assert forall i :: 1 <= i < |s| ==> s[i] == s[1..][i - 1];
      if s[0] >= rest then s[0] else rest
  }

  /** An entry that is a lower bound is the minimum. */
  lemma MinIsLowerBoundEntry(s: seq<real>, k: nat)
    requires k < |s|
    requires forall i :: 0 <= i < |s| ==> s[k] <= s[i]
    ensures Min(s) == s[k]
  {
  }

  /** An entry that is an upper bound is the maximum. */
  lemma MaxIsUpperBoundEntry(s: seq<real>, k: nat)
    requires k < |s|
    requires forall i :: 0 <= i < |s| ==> s[i] <= s[k]
    ensures Max(s) == s[k]
  {
  }
}
