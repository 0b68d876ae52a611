/** The records that travel from the upstream fare-grid service through the
    cache to the database loader. Only the fields the two programs read are
    kept; everything else in the upstream's JSON is left out. */
module Flights {
  import opened Wrappers
  import opened Prices

  /** A JSON field read by `flight.data.MinPrice`: absent, `null`, a number,
      or some other JSON value (a string, an object, ...). */
  datatype Field = Undefined | Null | Number(n: nat) | OtherValue

  /** `cell.Indirect`: its `Price` (absent is `None`; `0` is falsy) and its
      `TraceRefs` array (absent is `None`). */
  datatype Indirect = Indirect(price: Option<nat>, traceRefs: Option<seq<string>>)

  /** One cell of `PriceGrids.Grid`; a `null` cell is `None` in its row. */
  datatype Cell = Cell(indirect: Option<Indirect>)

  /** The parsed body of a monthly fare-grid response: `MinPrice`, the
      `Traces` object as (trace id, trace string) pairs in key order (an
      absent object has no pairs), and `PriceGrids.Grid` (`None` when either
      property is absent). */
  datatype Payload = Payload(
    minPrice: Field,
    traces: seq<(string, string)>,
    grid: Option<seq<seq<Option<Cell>>>>)

  /** What `fetchRoundtripData` returns: the query and the parsed body,
      `None` when the body parsed to a falsy JSON value. */
  datatype Flight = Flight(
    from: string, to: string,
    monthOutbound: string, monthInbound: string,
    data: Option<Payload>)

  /** A cached flight, `{ ...flight, price }`: the flight together with the
      price its list is ordered by. */
  datatype Entry = Entry(flight: Flight, price: Price)
}
