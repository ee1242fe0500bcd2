/** The `/search` endpoint: keep the eligible search hits, then project each to
    a three-field record `{symbol, name, exchange}`. */
module Search {
  import opened Records
  import opened Eligibility
  import opened QuoteFilter

  /** The record the search endpoint returns for one hit. Its `exchange` is the
      hit's display name `exchDisp`, not the `exchange` code the filter tests. */
  function ProjectHit(q: Record): (r: Record)
    ensures r.Keys == {"symbol", "name", "exchange"}
    ensures r["symbol"] == (if "symbol" in q then q["symbol"] else "")
    ensures r["name"] == (if "shortname" in q then q["shortname"] else "")
    ensures r["exchange"] == (if "exchDisp" in q then q["exchDisp"] else "")
  {
    map["symbol" := Field(q, "symbol"),
        "name" := Field(q, "shortname"),
        "exchange" := Field(q, "exchDisp")]
  }

  /** The projection reads neither the exchange code nor the quote type, so the
      fields the filter tests never leak into the projected record. */
  lemma ProjectionIgnoresFilterFields(q: Record, exchange: string, quoteType: string)
    ensures ProjectHit(q["exchange" := exchange]["quoteType" := quoteType]) == ProjectHit(q)
  {
  }

  /** The body of the search response: the projected eligible hits. */
  function SearchResults(data: Payload): (r: seq<Record>)
    ensures |r| == |FilterEligible(QuotesOf(data))| == |EligibleIndices(QuotesOf(data))|
    ensures forall i | 0 <= i < |r| :: r[i] == ProjectHit(FilterEligible(QuotesOf(data))[i])
    ensures "quotes" !in data ==> r == []
  {
    var kept := FilterEligible(QuotesOf(data));
    FilterLength(QuotesOf(data));
    MapSeq(ProjectHit, kept)
  }

  /** Every search result is the projection of an eligible hit of the payload,
      and every eligible hit contributes its projection. */
  lemma SearchResultsSoundAndComplete(data: Payload)
    ensures forall i | 0 <= i < |SearchResults(data)| ::
      exists q | q in QuotesOf(data) :: IsEligible(q) && SearchResults(data)[i] == ProjectHit(q)
    ensures forall q | q in QuotesOf(data) && IsEligible(q) :: ProjectHit(q) in SearchResults(data)
  {
    var kept := FilterEligible(QuotesOf(data));
    var r := SearchResults(data);
    forall i | 0 <= i < |r|
      ensures exists q | q in QuotesOf(data) :: IsEligible(q) && r[i] == ProjectHit(q)
    {
      assert kept[i] in kept;
    }
    forall q | q in QuotesOf(data) && IsEligible(q)
      ensures ProjectHit(q) in r
    {
      var j :| 0 <= j < |kept| && kept[j] == q;
      assert r[j] == ProjectHit(q);
    }
  }
}
