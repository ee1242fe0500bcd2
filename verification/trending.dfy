/** The `/trending` endpoint: look up the price record of every trending symbol,
    copy its identifying fields into a formatted record, and keep the formatted
    records that pass the eligibility test. */
module Trending {
  import opened Records
  import opened Eligibility
  import opened QuoteFilter

  /** The string fields of the record `get_price` builds from a price record;
      each is copied verbatim, with `''` when the price record lacks it. Since
      `quoteType` and `exchange` are copied unchanged, the formatted record is
      eligible exactly when the price record is. */
  function FormatPrice(price: Record): (r: Record)
    ensures r.Keys == {"symbol", "quoteType", "exchange"}
    ensures r["symbol"] == (if "symbol" in price then price["symbol"] else "")
    ensures r["quoteType"] == (if "quoteType" in price then price["quoteType"] else "")
    ensures r["exchange"] == (if "exchange" in price then price["exchange"] else "")
    ensures IsEligible(r) <==> IsEligible(price)
  {
    map["symbol" := Field(price, "symbol"),
        "quoteType" := Field(price, "quoteType"),
        "exchange" := Field(price, "exchange")]
  }

  /** `get_price(ticker)`: the provider's price record for `ticker`, supplied as
      `priceOf`, formatted. */
  function GetPrice(ticker: string, priceOf: string -> Record): (r: Record)
    ensures r.Keys == {"symbol", "quoteType", "exchange"}
    ensures r["symbol"] == Lookup(priceOf(ticker), "symbol", "")
    ensures r["quoteType"] == Lookup(priceOf(ticker), "quoteType", "")
    ensures r["exchange"] == Lookup(priceOf(ticker), "exchange", "")
    ensures IsEligible(r) <==> IsEligible(priceOf(ticker))
  {
    FormatPrice(priceOf(ticker))
  }

  /** The price records the provider returns for the trending quotes, one per
      quote and in the same order; a quote without `symbol` is looked up as `''`. */
  function PriceRecords(quotes: seq<Record>, priceOf: string -> Record): (r: seq<Record>)
    ensures |r| == |quotes|
    ensures forall i | 0 <= i < |quotes| :: r[i] == priceOf(Field(quotes[i], "symbol"))
  {
    MapSeq((q: Record) => priceOf(Field(q, "symbol")), quotes)
  }

  /** The formatted record of every trending quote, one per quote and in order,
      each looked up by the quote's `symbol` (`''` when absent). */
  function FormattedQuotes(data: Payload, priceOf: string -> Record): (r: seq<Record>)
    ensures |r| == |QuotesOf(data)|
    ensures forall i | 0 <= i < |r| :: r[i] == GetPrice(Field(QuotesOf(data)[i], "symbol"), priceOf)
  {
    MapSeq((q: Record) => GetPrice(Field(q, "symbol"), priceOf), QuotesOf(data))
  }

  /** The body of the trending response: the eligible formatted records. */
  function TrendingResults(data: Payload, priceOf: string -> Record): (r: seq<Record>)
    ensures |r| <= |QuotesOf(data)|
    ensures forall i | 0 <= i < |r| :: IsEligible(r[i])
    ensures forall i | 0 <= i < |r| :: r[i].Keys == {"symbol", "quoteType", "exchange"}
    ensures "quotes" !in data ==> r == []
  {
    var formatted := FormattedQuotes(data, priceOf);
    var r := FilterEligible(formatted);
    assert forall i | 0 <= i < |r| :: r[i] in formatted;
    r
  }

  /** Formatting and filtering commute: filtering the formatted records gives
      the formatted eligible price records. */
  lemma {:induction false} FilterFormatCommute(prices: seq<Record>)
    ensures FilterEligible(MapSeq(FormatPrice, prices)) == MapSeq(FormatPrice, FilterEligible(prices))
  {
    if |prices| > 0 {
      var init := prices[..|prices| - 1];
      var last := prices[|prices| - 1];
      FilterFormatCommute(init);
      var formatted := MapSeq(FormatPrice, prices);
      assert formatted[..|formatted| - 1] == MapSeq(FormatPrice, init);
      if IsEligible(last) {
        assert MapSeq(FormatPrice, FilterEligible(init) + [last])
          == MapSeq(FormatPrice, FilterEligible(init)) + [FormatPrice(last)];
      }
    }
  }

  /** The trending response is the order-preserving list of the formatted
      eligible price records: a formatted record is kept exactly when the price
      record it came from is eligible. */
  lemma TrendingKeepsEligiblePrices(data: Payload, priceOf: string -> Record)
    ensures TrendingResults(data, priceOf)
      == MapSeq(FormatPrice, FilterEligible(PriceRecords(QuotesOf(data), priceOf)))
    ensures |TrendingResults(data, priceOf)| == |EligibleIndices(PriceRecords(QuotesOf(data), priceOf))|
  {
    var prices := PriceRecords(QuotesOf(data), priceOf);
    assert FormattedQuotes(data, priceOf) == MapSeq(FormatPrice, prices);
    FilterFormatCommute(prices);
    FilterLength(prices);
  }

  /** The trending output is an order-preserving subsequence of the formatted
      trending quotes. */
  lemma TrendingIsSubsequence(data: Payload, priceOf: string -> Record)
    ensures IsSubsequence(TrendingResults(data, priceOf), FormattedQuotes(data, priceOf))
  {
    FilterIsSubsequence(FormattedQuotes(data, priceOf));
  }
}
