# Equity filter and field projection of the finance-api gateway

The gateway answers `/search` and `/trending` from the `quotes` list of a
market-data provider's response, keeping only equities listed on NYSE (`NYQ`)
or Nasdaq (`NMS`). `/search` filters the quotes first and then reshapes each
kept quote into a small record. `/trending` goes the other way round: it looks
up the price record of every trending quote's symbol, reshapes each price
record, and then filters the reshaped records, so eligibility is judged on
each symbol's price record and the `quotes` entries themselves are never
tested. This project models that logic in Dafny and proves what it
guarantees:

- `records.dfy` (`Records`): a provider record is a `map<string, string>`; a
  missing field reads as a default, as `dict.get(key, '')` does. A payload is
  reduced to its list-valued fields, and a payload without a `quotes` key
  reads as an empty list.
- `eligibility.dfy` (`Eligibility`): the one eligibility test both endpoints
  use. The trending endpoint writes the test with its two conjuncts swapped;
  that form is modelled too and proved to accept exactly the same records.
- `quote_filter.dfy` (`QuoteFilter`): the filter over a list of quotes. It
  keeps every eligible quote and only those, preserves order, is never longer
  than its input, is idempotent, and is the unique eligible-only subsequence of
  its input as long as the number of eligible positions.
- `search.dfy` (`Search`): the three-field projection `{symbol, name,
  exchange}` of each kept search hit, taken from `symbol`, `shortname` and
  `exchDisp`.
- `trending.dfy` (`Trending`): the string fields the trending endpoint copies
  from each symbol's price record, and the eligibility filter run on the
  copies.

The provider itself is not modelled: the search response is an input
(`Payload`), and the price lookup for a ticker is a function parameter
`priceOf: string -> Record`.

## Model

| member | source | states |
|---|---|---|
| `Records.QuotesOf` | app.py:17 | the quote list, read the same way by the trending endpoint at app.py:45, is the payload's `quotes` list when present and the empty list otherwise |
| `Eligibility.IsEligible` | app.py:18-19 | a quote is eligible exactly when it has an `exchange` field equal to `NYQ` or `NMS` and a `quoteType` field equal to `EQUITY`; a quote lacking either field is ineligible |
| `Eligibility.IsEligibleAsTrending` | app.py:48-49 | the trending endpoint's inline test, with `quoteType` checked first, accepts exactly the quotes the search endpoint's test accepts |
| `QuoteFilter.FilterEligible` | app.py:18-19 | the filter output is no longer than its input, contains only eligible quotes, contains only quotes of the input, and contains every eligible quote of the input |
| `QuoteFilter.FilterLength` | app.py:18-19 | the filter output has exactly as many elements as the input has positions holding an eligible quote |
| `QuoteFilter.FilterIsSubsequence` | app.py:18-19 | the filter output is an order-preserving subsequence of the input |
| `QuoteFilter.FilterUnique` | app.py:18-19 | any order-preserving subsequence of the input made of eligible quotes only and as long as the number of eligible positions is the filter output: the filter drops exactly the ineligible quotes |
| `QuoteFilter.FilterKeepsAllEligible` | app.py:18-19 | a list of eligible quotes passes through the filter unchanged |
| `QuoteFilter.FilterIdempotent` | app.py:18-19 | filtering the filter's own output returns it unchanged |
| `Search.ProjectHit` | app.py:20-24 | a projected search record has exactly the keys `symbol`, `name`, `exchange`, holding the hit's `symbol`, `shortname` and `exchDisp`, each `''` when the hit lacks it |
| `Search.ProjectionIgnoresFilterFields` | app.py:18-24 | the projected record does not depend on the hit's `exchange` code or `quoteType`, the fields the filter tests |
| `Search.SearchResults` | app.py:17-24 | the search response has one record per eligible hit, the i-th built from the i-th eligible hit, and is empty when the provider response has no `quotes` |
| `Search.SearchResultsSoundAndComplete` | app.py:17-24 | every search record is the projection of some eligible hit, and every eligible hit's projection is in the response |
| `Trending.FormatPrice` | app.py:34-40 | the formatted record carries `symbol`, `quoteType` and `exchange` copied from the price record, `''` when absent, and is eligible exactly when the price record is |
| `Trending.GetPrice` | app.py:31-41 | the record for a ticker carries the `symbol`, `quoteType` and `exchange` of that ticker's price record, `''` when absent, and is eligible exactly when that price record is |
| `Trending.PriceRecords` | app.py:32-33 | one price record per trending quote, in order, the i-th being the provider's price record for the i-th quote's `symbol` (`''` when absent), as the trending map at app.py:46-47 requests it |
| `Trending.FormattedQuotes` | app.py:46-47 | one formatted record per trending quote, in order, the i-th being the price record of the i-th quote's `symbol` (`''` when absent) |
| `Trending.TrendingResults` | app.py:45-49 | the trending response is no longer than the trending quote list, holds only eligible records with the copied keys, and is empty when the provider response has no `quotes` |
| `Trending.FilterFormatCommute` | app.py:46-49 | filtering the formatted records equals formatting the eligible price records, in the same order |
| `Trending.TrendingKeepsEligiblePrices` | app.py:44-49 | the trending response is the formatted eligible price records of the trending symbols in their original order, one per eligible price record |
| `Trending.TrendingIsSubsequence` | app.py:46-49 | the trending response is an order-preserving subsequence of the formatted trending quotes |

## Left out

- Flask routing and query-string parsing (app.py:13-15, app.py:29-30, app.py:43) and `jsonify` (app.py:25, app.py:50): HTTP plumbing, not decision logic.
- The provider calls (`yq.search`, `yq.get_trending`, `yq.Ticker(...).price[...]`): foreign code; the search payload is an input and the price lookup is the parameter `priceOf`.
- Trending.FormatPrice: omits the `price`, `change` and `changePercent` fields (app.py:37-39), which are rounded floating-point values; its key set is stated for the string fields only.
- Trending.TrendingResults: its key set `{symbol, quoteType, exchange}` covers the string fields only; the real records also carry the rounded `price`, `change` and `changePercent` fields (app.py:37-39).
- Trending.GetPrice: the price lookup `priceOf` is a fixed function of the ticker, whereas the code makes a fresh provider call per quote (app.py:32-33), so a symbol listed twice could in reality receive two different price records. Its key set `{symbol, quoteType, exchange}` also covers the string fields only: `get_price` additionally builds the rounded `price`, `change` and `changePercent` fields (app.py:37-39).
- Payload shapes other than a list of mappings under `quotes`: a `quotes` value that is not a list (JSON `null`, say) is not representable here, nor is a list element that is not a mapping. The code does not default these to empty: the `filter` and `map` calls (app.py:18-19, app.py:46-47) or the `.get` on an element raise, and the endpoint fails.
- Provider values other than strings: a record's values are all strings here, and a price lookup always yields a record (the source would fail on anything else).
- The market summary endpoint's own reshaping (app.py:58-63): it renames `shortName` to `name`, reads the `raw` price unrounded (app.py:60), and rounds the `raw` change and percent values (app.py:61-62), which is floating-point arithmetic outside the equity filter.
- The other endpoints (screener, history, price, news, quotes, statements, option chain and the other module getters): each passes a provider result straight through or reshapes it with a library whose behaviour is not visible.
- Symbol-list splitting, record merging, news curation and table reshaping: the code does not do these, so they are not modelled.
