/** `fetchRoundtripData`: one upstream query, tried at most twice. The network
    is left out: the upstream's answers to the two attempts are parameters. */
module Fetch {
  import opened Wrappers
  import opened Flights

  /** What `body.text()` followed by `JSON.parse` gives: a parsed value
      (`None` when it is falsy), or an exception. */
  datatype Body = Parsed(data: Option<Payload>) | Unparsable

  /** The upstream's answer to one `request(url)`: a status code and a body,
      or an exception thrown by the request itself. */
  datatype Answer = Response(status: int, body: Body) | TransportFailure

  /** The error `fetchRoundtripData` throws after its last attempt. */
  datatype Failure = StatusError(code: int) | TransportError | ParseError

  /** `fetchRoundtripData`'s returned flight, or the error it threw. */
  datatype FetchResult = Fetched(flight: Flight) | Threw(error: Failure)

  /** An attempt that returns: status 200 and a body that parses. */
  predicate Succeeds(a: Answer)
  {
    a.Response? && a.status == 200 && a.body.Parsed?
  }

  /** An attempt that ends in the `catch` block: the request or the parse
      threw. (A non-200 status on the first attempt is retried without
      reaching it.) */
  predicate Throws(a: Answer)
  {
    a.TransportFailure? || (a.status == 200 && a.body.Unparsable?)
  }

  /** The error an attempt that does not succeed stands for. */
  function FailureOf(a: Answer): Failure
  {
    if a.TransportFailure? then TransportError
    else if a.status != 200 then StatusError(a.status)
    else ParseError
  }

  /** The outcome of the two attempts, as a value. */
  function RoundtripResult(from: string, to: string, monthOutbound: string, monthInbound: string,
                           first: Answer, second: Answer): FetchResult
  {
    if Succeeds(first) then Fetched(Flight(from, to, monthOutbound, monthInbound, first.body.data))
    else if Succeeds(second) then Fetched(Flight(from, to, monthOutbound, monthInbound, second.body.data))
    else Threw(FailureOf(second))
  }

  /** The retry loop. `attempts` counts the requests made and `delays` the
      one-second waits. */
  method FetchRoundtripData(from: string, to: string, monthOutbound: string, monthInbound: string,
                            first: Answer, second: Answer)
    returns (r: FetchResult, attempts: nat, delays: nat)
    ensures r == RoundtripResult(from, to, monthOutbound, monthInbound, first, second)
    // at most two requests; the second only when the first did not succeed
    ensures 1 <= attempts <= 2
    ensures attempts == 1 <==> Succeeds(first)
    // a status 200 with a parsed body on either attempt returns that body
    ensures r.Fetched? <==> Succeeds(first) || Succeeds(second)
    ensures Succeeds(first) ==> r.flight.data == first.body.data
    ensures !Succeeds(first) && Succeeds(second) ==> r.flight.data == second.body.data
    ensures r.Fetched? ==>
      && r.flight.from == from && r.flight.to == to
      && r.flight.monthOutbound == monthOutbound && r.flight.monthInbound == monthInbound
    // otherwise the second attempt's error is thrown
    ensures r.Threw? ==> r.error == FailureOf(second)
    // the delay follows an exception on the first attempt, never a bad status
    ensures delays == if Throws(first) then 1 else 0
  {
    attempts, delays := 0, 0;
    while attempts < 2
      invariant attempts <= 1
      invariant attempts == 0 ==> delays == 0
      invariant attempts == 1 ==> !Succeeds(first) && delays == (if Throws(first) then 1 else 0)
    {
      attempts := attempts + 1;
      var answer := if attempts == 1 then first else second;
      match answer {
        case TransportFailure =>
          if attempts >= 2 {
            r := Threw(TransportError);
            return;
          }
          delays := delays + 1;
        case Response(status, body) =>
          if status != 200 {
            if attempts >= 2 {
              r := Threw(StatusError(status));
              return;
            }
            continue;
          }
          match body {
            case Parsed(data) =>
              r := Fetched(Flight(from, to, monthOutbound, monthInbound, data));
              return;
            case Unparsable =>
              if attempts >= 2 {
                r := Threw(ParseError);
                return;
              }
              delays := delays + 1;
          }
      }
    }
    assert false;
  }
}
