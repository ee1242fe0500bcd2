/** The eligibility filter applied to a list of quotes, `list(filter(...))` in
    the search and trending endpoints, with its characterising properties. */
module QuoteFilter {
  import opened Records
  import opened Eligibility

  /** The eligible quotes of `qs`, in their original order. Defined on the last
      element so that every proof below runs over prefixes. */
  function FilterEligible(qs: seq<Record>): (r: seq<Record>)
    ensures |r| <= |qs|
    ensures forall i | 0 <= i < |r| :: IsEligible(r[i])
    ensures forall q | q in r :: q in qs
    ensures forall i | 0 <= i < |qs| && IsEligible(qs[i]) :: qs[i] in r
  {
    if |qs| == 0 then []
    else
      var init := qs[..|qs| - 1];
      var last := qs[|qs| - 1];
      assert forall i | 0 <= i < |init| :: qs[i] == init[i];
      if IsEligible(last) then FilterEligible(init) + [last] else FilterEligible(init)
  }

  /** Positions of `qs` holding an eligible quote. */
  ghost function EligibleIndices(qs: seq<Record>): set<int>
  {
    set i | 0 <= i < |qs| && IsEligible(qs[i])
  }

  /** `a` can be obtained from `b` by deleting elements, keeping the rest in order. */
  ghost predicate IsSubsequence<T>(a: seq<T>, b: seq<T>)
    decreases |b|
  {
    if |a| == 0 then true
    else if |b| == 0 then false
    else
      (a[|a| - 1] == b[|b| - 1] && IsSubsequence(a[..|a| - 1], b[..|b| - 1]))
      || IsSubsequence(a, b[..|b| - 1])
  }

  /** Appending a quote adds its own position to the eligible positions, and
      only when that quote is eligible. */
  lemma EligibleIndicesSnoc(p: seq<Record>, x: Record)
    ensures EligibleIndices(p + [x]) ==
      EligibleIndices(p) + (if IsEligible(x) then {|p|} else {})
    ensures |EligibleIndices(p + [x])| ==
      |EligibleIndices(p)| + (if IsEligible(x) then 1 else 0)
  {
  }

  /** The filter keeps exactly as many quotes as there are eligible positions. */
  lemma {:induction false} FilterLength(qs: seq<Record>)
    ensures |FilterEligible(qs)| == |EligibleIndices(qs)|
  {
    if |qs| > 0 {
      var init := qs[..|qs| - 1];
      FilterLength(init);
      assert qs == init + [qs[|qs| - 1]];
      EligibleIndicesSnoc(init, qs[|qs| - 1]);
    }
  }

  /** The filter output is an order-preserving subsequence of its input. */
  lemma {:induction false} FilterIsSubsequence(qs: seq<Record>)
    ensures IsSubsequence(FilterEligible(qs), qs)
  {
    if |qs| > 0 {
      var init := qs[..|qs| - 1];
      FilterIsSubsequence(init);
      var r := FilterEligible(qs);
      if IsEligible(qs[|qs| - 1]) {
        assert r[..|r| - 1] == FilterEligible(init);
      } else if |r| > 0 {
        assert r == FilterEligible(init);
      }
    }
  }

  /** A subsequence made of eligible quotes only is no longer than the number
      of eligible positions. */
  lemma {:induction false} EligibleSubsequenceBound(r: seq<Record>, qs: seq<Record>)
    requires IsSubsequence(r, qs)
    requires forall i | 0 <= i < |r| :: IsEligible(r[i])
    ensures |r| <= |EligibleIndices(qs)|
    decreases |qs|
  {
    if |r| > 0 {
      var init := qs[..|qs| - 1];
      var last := qs[|qs| - 1];
      assert qs == init + [last];
      EligibleIndicesSnoc(init, last);
      if r[|r| - 1] == last && IsSubsequence(r[..|r| - 1], init) {
        EligibleSubsequenceBound(r[..|r| - 1], init);
      } else {
        EligibleSubsequenceBound(r, init);
      }
    }
  }

  /** The filter output is the ONLY eligible-only subsequence of the input that
      is as long as the number of eligible positions: the filter drops exactly
      the ineligible quotes and keeps the rest in order. */
  lemma {:induction false} FilterUnique(r: seq<Record>, qs: seq<Record>)
    requires IsSubsequence(r, qs)
    requires forall i | 0 <= i < |r| :: IsEligible(r[i])
    requires |r| == |EligibleIndices(qs)|
    ensures r == FilterEligible(qs)
    decreases |qs|
  {
    FilterLength(qs);
    if |r| > 0 {
      var init := qs[..|qs| - 1];
      var last := qs[|qs| - 1];
      assert qs == init + [last];
      EligibleIndicesSnoc(init, last);
      if r[|r| - 1] == last && IsSubsequence(r[..|r| - 1], init) {
        FilterUnique(r[..|r| - 1], init);
        assert r == r[..|r| - 1] + [last];
      } else {
        EligibleSubsequenceBound(r, init);
        FilterUnique(r, init);
      }
    }
  }

  /** On a list of eligible quotes only, the filter changes nothing. */
  lemma {:induction false} FilterKeepsAllEligible(qs: seq<Record>)
    requires forall i | 0 <= i < |qs| :: IsEligible(qs[i])
    ensures FilterEligible(qs) == qs
  {
    if |qs| > 0 {
      var init := qs[..|qs| - 1];
      FilterKeepsAllEligible(init);
      assert qs == init + [qs[|qs| - 1]];
    }
  }

  /** Filtering an already filtered list returns it unchanged. */
  lemma FilterIdempotent(qs: seq<Record>)
    ensures FilterEligible(FilterEligible(qs)) == FilterEligible(qs)
  {
    FilterKeepsAllEligible(FilterEligible(qs));
  }
}
