/** The single eligibility test shared by the search and trending endpoints:
    a record is a tradable equity on a recognised US exchange. */
module Eligibility {
  import opened Records

  /** Exchange codes the gateway accepts: NYSE (`NYQ`) and Nasdaq (`NMS`). */
  const RecognizedExchanges: seq<string> := ["NYQ", "NMS"]

  /** The instrument type the gateway accepts. */
  const EquityType: string := "EQUITY"

  /** A record is eligible when its exchange is recognised and its quote type is
      equity. A record lacking either field reads it as `''` and is ineligible. */
  function IsEligible(q: Record): (b: bool)
    ensures b <==>
      && "exchange" in q && (q["exchange"] == "NYQ" || q["exchange"] == "NMS")
      && "quoteType" in q && q["quoteType"] == "EQUITY"
  {
    Field(q, "exchange") in RecognizedExchanges && Field(q, "quoteType") == EquityType
  }

  /** The test as the trending endpoint writes it inline, with the two conjuncts
      in the other order; it accepts exactly the records `IsEligible` accepts. */
  function IsEligibleAsTrending(q: Record): (b: bool)
    ensures b <==> IsEligible(q)
  {
    Field(q, "quoteType") == EquityType && Field(q, "exchange") in RecognizedExchanges
  }
}
