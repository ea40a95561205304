/**
 * The slice of `net/http` the client touches, with the network replaced by an
 * oracle: a `Transport` holds the outcomes it will hand out, one per `Do`, and
 * keeps a ghost log of every request it was given, as that request stood when
 * it was sent.
 */
module Http {
  import opened Wrappers

  const StatusOK := 200

  /** A request as it went out: what a test's mock sees. */
  datatype Sent = Sent(verb: string, url: string, header: map<string, string>, body: string)

  /** `*http.Request`: fixed method, URL and body; a header map that is set in place. */
  class Request {
    const verb: string
    const url: string
    const body: string
    var header: map<string, string>

    /** `http.NewRequest` on a URL that parses: no header yet. */
    constructor (verb: string, url: string, body: string)
      ensures this.verb == verb && this.url == url && this.body == body
      ensures header == map[]
    {
      this.verb := verb;
      this.url := url;
      this.body := body;
      header := map[];
    }

    function Snapshot(): Sent
      reads this
    {
      Sent(verb, url, header, body)
    }

    /** `req.Header.Set(key, value)`: replaces whatever `key` held. */
    method Set(key: string, value: string)
      modifies this
      ensures header == old(header)[key := value]
    {
      header := header[key := value];
    }
  }

  /**
   * A response body. `data` is what a plain read returns; `inflated` is what a
   * gzip reader returns once bound to it; `headerFault` is the error
   * `gzip.NewReader`/`Reset` reports for it (none when it starts with a valid gzip
   * header); `readFault` is the error reading it to the end runs into, if any.
   */
  datatype Stream = Stream(data: string, inflated: string, headerFault: Option<string>, readFault: Option<string>)

  datatype Response = Response(status: int, header: map<string, string>, body: Stream)

  /** What one `Do` yields: a transport error (network, cancellation, deadline) or a response. */
  datatype Outcome = Failed(cause: string) | Responded(response: Response)

  /** The error an exhausted oracle reports. */
  const NoResponseLeft := "no response left"

  /** `h.Get(key)`: the value, or "" when the header is absent. */
  function HeaderGet(h: map<string, string>, key: string): (v: string)
    ensures key in h ==> v == h[key]
    ensures key !in h ==> v == ""
  {
    if key in h then h[key] else ""
  }

  /** The outcome the next `Do` yields, and the outcomes left after it. */
  function Next(outcomes: seq<Outcome>): (r: (Outcome, seq<Outcome>))
    ensures |r.1| == if outcomes == [] then 0 else |outcomes| - 1
    ensures outcomes != [] ==> r.0 == outcomes[0] && r.1 == outcomes[1..]
  {
    if outcomes == [] then (Failed(NoResponseLeft), []) else (outcomes[0], outcomes[1..])
  }

  /** The `HTTPClient` the client is given: here an oracle of canned outcomes. */
  class Transport {
    var outcomes: seq<Outcome>
    ghost var sent: seq<Sent>

    constructor (outcomes: seq<Outcome>)
      ensures this.outcomes == outcomes && sent == []
    {
      this.outcomes := outcomes;
      sent := [];
    }

    /** `Do(req)`: logs the request as it stands and hands out the next outcome. */
    method Do(req: Request) returns (outcome: Outcome)
      modifies this
      ensures sent == old(sent) + [req.Snapshot()]
      ensures (outcome, outcomes) == Next(old(outcomes))
    {
      sent := sent + [req.Snapshot()];
      outcome := if outcomes == [] then Failed(NoResponseLeft) else outcomes[0];
      outcomes := if outcomes == [] then [] else outcomes[1..];
    }
  }
}
