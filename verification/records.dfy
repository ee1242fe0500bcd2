/** Provider records as the gateway sees them: string-keyed mappings whose
    absent fields are read with a default, as Python's `dict.get(key, default)`
    does. */
module Records {

  /** One provider record (a search hit, a price record, a formatted quote). */
  type Record = map<string, string>

  /** A provider payload, reduced to its list-valued fields (`quotes`, ...). */
  type Payload = map<string, seq<Record>>

  /** The value stored under `key`, or `default` when the record lacks it. */
  function Lookup(r: Record, key: string, default: string): string
  {
    if key in r then r[key] else default
  }

  /** The value of `key` with the empty string as default: `r.get(key, '')`. */
  function Field(r: Record, key: string): string
  {
    Lookup(r, key, "")
  }

  /** The payload's `quotes` list, or the empty list when the provider sent none:
      `data.get('quotes', [])`. */
  function QuotesOf(data: Payload): (r: seq<Record>)
    ensures "quotes" in data ==> r == data["quotes"]
    ensures "quotes" !in data ==> r == []
  {
    if "quotes" in data then data["quotes"] else []
  }

  /** Applies `f` to every element, keeping order and length (Python's `map`). */
  function MapSeq<A, B>(f: A -> B, s: seq<A>): (r: seq<B>)
    ensures |r| == |s|
    ensures forall i | 0 <= i < |s| :: r[i] == f(s[i])
  {
    seq(|s|, i requires 0 <= i < |s| => f(s[i]))
  }
}
