/**
 * The data-request pipeline of the client, as functions of the session state
 * and of the outcomes the transport will hand out: the rate budget, the body
 * reader with its shared gzip decompressor, request construction, the status
 * and restriction checks, and the single consent retry. The `Client` class
 * performs these steps in place and is proved to agree with them.
 */
module Pipeline {
  import opened Wrappers
  import opened Text
  import opened Urls
  import opened Http
  import opened Types

  const ApiOrigin := "https://oauth.reddit.com"
  const RateLimitHeader := "x-ratelimit-remaining"
  const ContentEncodingHeader := "Content-Encoding"

  /** The budget a client starts with and is reset to. */
  const FullBudget := 100
  /** Below this the budget is reset. */
  const BudgetFloor := 10

  /** The shared gzip reader: not yet created, or created and reused from then on. */
  datatype Decompressor = Nil | Created

  /** The fields of a client the pipeline reads and writes. */
  datatype Session = Session(
    accessToken: string, loid: string, session: string,
    deviceID: string, userAgent: string,
    rateLimit: int, gzipReader: Decompressor, authenticated: bool)

  /** The result of one call, the session after it, the requests it sent, and the outcomes still unused. */
  datatype Exchange<T> = Exchange(result: Result<T, Error>, after: Session, sent: seq<Sent>, rest: seq<Outcome>)

  /** The outcomes left once `n` sends have drawn from `outs`. */
  function Drop(outs: seq<Outcome>, n: nat): seq<Outcome>
  {
    if n <= |outs| then outs[n..] else []
  }

  /** Credentials, identity and the authentication flag are the same in both. */
  predicate SameIdentity(a: Session, b: Session)
  {
    a.accessToken == b.accessToken && a.loid == b.loid && a.session == b.session &&
    a.deviceID == b.deviceID && a.userAgent == b.userAgent && a.authenticated == b.authenticated
  }

  // ---------------------------------------------------------------------------
  // Rate budget
  // ---------------------------------------------------------------------------

  predicate ValidBudget(b: int)
  {
    BudgetFloor <= b <= FullBudget
  }

  /** One observed rate signal: the budget drops by one, and is refilled when it falls under the floor. */
  function RateStep(budget: int): (r: int)
    ensures r >= BudgetFloor
    ensures r == budget - 1 || r == FullBudget
    ensures budget - 1 >= BudgetFloor ==> r == budget - 1
    ensures budget <= FullBudget + 1 ==> r <= FullBudget
  {
    var b := budget - 1;
    if b < BudgetFloor then FullBudget else b
  }

  /** The budget after `n` rate signals. */
  function RateAfter(budget: int, n: nat): int
  {
    if n == 0 then budget else RateStep(RateAfter(budget, n - 1))
  }

  lemma {:induction false} RateAfterValid(budget: int, n: nat)
    requires ValidBudget(budget)
    ensures ValidBudget(RateAfter(budget, n))
  {
    if n > 0 {
      RateAfterValid(budget, n - 1);
    }
  }

  /** From a full budget the counter runs 100, 99, ..., 10 and then starts over: a cycle of 91. */
  lemma {:induction false} RateCycle(n: nat)
    ensures RateAfter(FullBudget, n) == FullBudget - n % 91
  {
    if n > 0 {
      RateCycle(n - 1);
      var q, m := (n - 1) / 91, (n - 1) % 91;
      if m == 90 {
        RemainderOf(n, q + 1, 0);
      } else {
        RemainderOf(n, q, m + 1);
      }
    }
  }

  lemma RemainderOf(n: int, q: int, r: int)
    requires n == 91 * q + r && 0 <= r < 91
    ensures n % 91 == r
  {
  }

  // ---------------------------------------------------------------------------
  // Reading a body
  // ---------------------------------------------------------------------------

  /** The decompression path is taken iff Content-Encoding mentions "gzip". */
  predicate IsGzipped(resp: Response)
  {
    Contains(HeaderGet(resp.header, ContentEncodingHeader), "gzip")
  }

  /** `io.ReadAll` on a stream that yields `text` unless it faults. */
  function ReadAll(text: string, fault: Option<string>): (r: Result<string, string>)
    ensures r.Success? <==> fault.None?
    ensures r.Success? ==> r.value == text
  {
    if fault.Some? then Failure(fault.value) else Success(text)
  }

  /**
   * `readResponseBody`: the body text (or the error) and the decompressor after
   * reading. The first gzip body creates the decompressor; later ones reset it.
   */
  function ReadBody(gzipReader: Decompressor, resp: Response): (r: (Result<string, string>, Decompressor))
    ensures !IsGzipped(resp) ==> r.1 == gzipReader && r.0 == ReadAll(resp.body.data, resp.body.readFault)
    ensures IsGzipped(resp) && r.0.Success? ==> r.1 == Created && r.0.value == resp.body.inflated
    ensures r.0.Success? <==> resp.body.readFault.None? && (IsGzipped(resp) ==> resp.body.headerFault.None?)
    ensures gzipReader == Created ==> r.1 == Created
  {
    var body := resp.body;
    if IsGzipped(resp) then
      match gzipReader
      case Nil =>
        if body.headerFault.Some? then (Failure("failed to create gzip reader: " + body.headerFault.value), Nil)
        else (ReadAll(body.inflated, body.readFault), Created)
      case Created =>
        if body.headerFault.Some? then (Failure("failed to reset gzip reader: " + body.headerFault.value), Created)
        else (ReadAll(body.inflated, body.readFault), Created)
    else
      (ReadAll(body.data, body.readFault), gzipReader)
  }

  // ---------------------------------------------------------------------------
  // Building the request
  // ---------------------------------------------------------------------------

  /** `params.Set("raw_json", "1")`, on the caller's params or on a fresh map. */
  function WithRawJson(params: Values): (p: Values)
    ensures "raw_json" in p && p["raw_json"] == ["1"]
  {
    params["raw_json" := ["1"]]
  }

  /** The request URL: the query is never empty, so the '?' is always there. */
  function RequestURL(endpoint: string, params: Values): (u: string)
    ensures u == ApiOrigin + endpoint + "?" + Encode(WithRawJson(params))
    ensures Encode(WithRawJson(params)) != ""
  {
    var p := WithRawJson(params);
    var u := ApiOrigin + endpoint;
    EncodeEmpty(p);
    assert |p| > 0 by { assert "raw_json" in p; }
    if |p| > 0 then u + "?" + Encode(p) else u
  }

  /** The headers of a data request, every value taken from the session. */
  function DataHeaders(s: Session): map<string, string>
  {
    map[
      "Authorization" := "Bearer " + s.accessToken,
      "User-Agent" := s.userAgent,
      "x-reddit-loid" := s.loid,
      "x-reddit-session" := s.session,
      "Accept-Encoding" := "gzip"
    ]
  }

  /** The request a data call sends first. */
  function DataRequest(s: Session, endpoint: string, params: Values): Sent
  {
    Sent("GET", RequestURL(endpoint, params), DataHeaders(s), "")
  }

  /** The same request with the consent cookie added. */
  function WithConsent(req: Sent): (r: Sent)
    ensures r.verb == req.verb && r.url == req.url && r.body == req.body
    ensures r.header.Keys == req.header.Keys + {"Cookie"}
    ensures r.header["Cookie"] == ContentWarningAcceptCookie
    ensures forall k | k in req.header && k != "Cookie" :: r.header[k] == req.header[k]
  {
    req.(header := req.header["Cookie" := ContentWarningAcceptCookie])
  }

  /** Whether a data call gets as far as sending: a token is held and the URL parses. */
  predicate Sends(s: Session, endpoint: string)
  {
    s.accessToken != "" && EndpointParses(endpoint)
  }

  /** Whether a 200 body carries a restriction, and which. */
  function RestrictionOf(codec: Json, body: string): (r: Option<string>)
    ensures r.Some? <==> codec.errorResponse(body).Success? && codec.errorResponse(body).value.reason != ""
    ensures r.Some? ==> r.value == codec.errorResponse(body).value.reason && r.value != ""
  {
    match codec.errorResponse(body)
    case Success(e) => if e.reason != "" then Some(e.reason) else None
    case Failure(_) => None
  }

  predicate Recoverable(reason: string)
  {
    reason == "gated" || reason == "quarantined"
  }

  // ---------------------------------------------------------------------------
  // The pipeline
  // ---------------------------------------------------------------------------

  /**
   * `handleRestrictedContent`: "gated" and "quarantined" resend the request once
   * with the consent cookie and return the retry's body as it is; anything else
   * fails without sending.
   */
  function HandleRestricted(s: Session, req: Sent, reason: string, outs: seq<Outcome>): (r: Exchange<string>)
    ensures Recoverable(reason) <==> r.sent != []
    ensures r.sent != [] ==> r.sent == [WithConsent(req)] && r.rest == Next(outs).1
    ensures r.sent == [] ==> r.rest == outs && r.after == s
    ensures reason == "private" ==> r.result == Failure(Private)
    ensures !Recoverable(reason) && reason != "private" ==> r.result == Failure(UnknownRestriction(reason))
    ensures SameIdentity(r.after, s) && r.after.rateLimit == s.rateLimit
    ensures s.gzipReader == Created ==> r.after.gzipReader == Created
  {
    if Recoverable(reason) then
      var retry := WithConsent(req);
      var (outcome, rest) := Next(outs);
      match outcome
      case Failed(cause) => Exchange(Failure(RetryFailed(cause)), s, [retry], rest)
      case Responded(resp) =>
        var (body, gz) := ReadBody(s.gzipReader, resp);
        var s' := s.(gzipReader := gz);
        match body
        case Failure(cause) => Exchange(Failure(RetryReadFailed(cause)), s', [retry], rest)
        case Success(text) => Exchange(Success(text), s', [retry], rest)
    else if reason == "private" then
      Exchange(Failure(Private), s, [], outs)
    else
      Exchange(Failure(UnknownRestriction(reason)), s, [], outs)
  }

  /**
   * What the consent retry returns: its transport error, its read error, or
   * its body unchecked; only the shared decompressor changes.
   */
  lemma RetryOutcome(s: Session, req: Sent, reason: string, outs: seq<Outcome>)
    requires Recoverable(reason)
    ensures var r := HandleRestricted(s, req, reason, outs);
      Next(outs).0.Failed? ==> r.result == Failure(RetryFailed(Next(outs).0.cause)) && r.after == s
    ensures var r := HandleRestricted(s, req, reason, outs);
      Next(outs).0.Responded? ==>
        var read := ReadBody(s.gzipReader, Next(outs).0.response);
        && r.after == s.(gzipReader := read.1)
        && (read.0.Failure? ==> r.result == Failure(RetryReadFailed(read.0.error)))
        && (read.0.Success? ==> r.result == Success(read.0.value))
  {
  }

  /**
   * The steps of `makeAPIRequest` once the first response has arrived: the rate
   * signal, the body read, the status check and the restriction check.
   */
  function Receive(codec: Json, s: Session, req: Sent, resp: Response, rest: seq<Outcome>): (r: Exchange<string>)
    ensures 1 <= |r.sent| <= 2 && r.sent[0] == req
    ensures |r.sent| == 1 ==> r.rest == rest
    ensures |r.sent| == 2 ==> r.sent[1] == WithConsent(req) && r.rest == Next(rest).1
    ensures SameIdentity(r.after, s)
    ensures r.after.rateLimit == (if HeaderGet(resp.header, RateLimitHeader) != "" then RateStep(s.rateLimit) else s.rateLimit)
    ensures s.gzipReader == Created ==> r.after.gzipReader == Created
  {
    var s1 := if HeaderGet(resp.header, RateLimitHeader) != "" then s.(rateLimit := RateStep(s.rateLimit)) else s;
    var (body, gz) := ReadBody(s1.gzipReader, resp);
    var s2 := s1.(gzipReader := gz);
    match body
    case Failure(cause) => Exchange(Failure(ReadFailed(cause)), s2, [req], rest)
    case Success(text) =>
      if resp.status != StatusOK then
        Exchange(Failure(BadStatus(resp.status, text)), s2, [req], rest)
      else
        match RestrictionOf(codec, text)
        case Some(reason) =>
          var x := HandleRestricted(s2, req, reason, rest);
          Exchange(x.result, x.after, [req] + x.sent, x.rest)
        case None => Exchange(Success(text), s2, [req], rest)
  }

  /** Sending the request of `makeAPIRequest` and handling what comes back. */
  function Dispatch(codec: Json, s: Session, req: Sent, outs: seq<Outcome>): (r: Exchange<string>)
    ensures 1 <= |r.sent| <= 2 && r.sent[0] == req && r.rest == Drop(outs, |r.sent|)
    ensures |r.sent| == 2 ==> r.sent[1] == WithConsent(req)
    ensures SameIdentity(r.after, s)
    ensures r.after.rateLimit == s.rateLimit || r.after.rateLimit == RateStep(s.rateLimit)
    ensures s.gzipReader == Created ==> r.after.gzipReader == Created
  {
    var (outcome, rest) := Next(outs);
    match outcome
    case Failed(cause) => Exchange(Failure(RequestFailed(cause)), s, [req], rest)
    case Responded(resp) => Receive(codec, s, req, resp, rest)
  }

  /** `makeAPIRequest(endpoint, params)`. */
  function Fetch(codec: Json, s: Session, endpoint: string, params: Values, outs: seq<Outcome>): (r: Exchange<string>)
    ensures |r.sent| <= 2 && r.rest == Drop(outs, |r.sent|)
    ensures r.sent == [] <==> !Sends(s, endpoint)
    ensures r.sent == [] ==> r.after == s
    ensures s.accessToken == "" ==> r.result == Failure(NoToken)
    ensures r.sent != [] ==> r.sent[0] == DataRequest(s, endpoint, params)
    ensures |r.sent| == 2 ==> r.sent[1] == WithConsent(r.sent[0])
    ensures SameIdentity(r.after, s)
    ensures r.after.rateLimit == s.rateLimit || r.after.rateLimit == RateStep(s.rateLimit)
    ensures ValidBudget(s.rateLimit) ==> ValidBudget(r.after.rateLimit)
    ensures s.gzipReader == Created ==> r.after.gzipReader == Created
  {
    if s.accessToken == "" then
      Exchange(Failure(NoToken), s, [], outs)
    else if !EndpointParses(endpoint) then
      Exchange(Failure(CreateRequest(RequestURL(endpoint, params))), s, [], outs)
    else
      Dispatch(codec, s, DataRequest(s, endpoint, params), outs)
  }

  // ---------------------------------------------------------------------------
  // Properties of one data request
  // ---------------------------------------------------------------------------

  /** Once a request is sent and answered, the call is decided by the response. */
  lemma FetchResponded(codec: Json, s: Session, endpoint: string, params: Values, outs: seq<Outcome>)
    requires Sends(s, endpoint) && Next(outs).0.Responded?
    ensures Fetch(codec, s, endpoint, params, outs) ==
      Receive(codec, s, DataRequest(s, endpoint, params), Next(outs).0.response, Next(outs).1)
  {
  }

  /** A transport error on the first send ends the call: one request, and the session as it was. */
  lemma TransportErrorChangesNothing(codec: Json, s: Session, endpoint: string, params: Values, outs: seq<Outcome>)
    requires Sends(s, endpoint) && Next(outs).0.Failed?
    ensures var r := Fetch(codec, s, endpoint, params, outs);
      r.result == Failure(RequestFailed(Next(outs).0.cause)) && r.after == s && |r.sent| == 1
  {
  }

  /**
   * Once a response arrives the rate signal is consumed before anything else is
   * looked at, whatever the status and whatever the body: the budget steps iff
   * the header is non-empty.
   */
  lemma RateSignalConsumedFirst(codec: Json, s: Session, endpoint: string, params: Values, outs: seq<Outcome>)
    requires Sends(s, endpoint) && Next(outs).0.Responded?
    ensures var r := Fetch(codec, s, endpoint, params, outs);
      var resp := Next(outs).0.response;
      r.after.rateLimit == if HeaderGet(resp.header, RateLimitHeader) != "" then RateStep(s.rateLimit) else s.rateLimit
  {
    FetchResponded(codec, s, endpoint, params, outs);
  }

  /** A body that cannot be read fails the call with the reader's error, after one request. */
  lemma ReadFailureFails(codec: Json, s: Session, endpoint: string, params: Values, outs: seq<Outcome>)
    requires Sends(s, endpoint) && Next(outs).0.Responded?
    requires ReadBody(s.gzipReader, Next(outs).0.response).0.Failure?
    ensures var r := Fetch(codec, s, endpoint, params, outs);
      r.result == Failure(ReadFailed(ReadBody(s.gzipReader, Next(outs).0.response).0.error)) && |r.sent| == 1
  {
    FetchResponded(codec, s, endpoint, params, outs);
  }

  /** A readable response with a status other than 200 fails with that status and its body, after one request. */
  lemma BadStatusFails(codec: Json, s: Session, endpoint: string, params: Values, outs: seq<Outcome>)
    requires Sends(s, endpoint) && Next(outs).0.Responded?
    requires var resp := Next(outs).0.response;
      resp.status != StatusOK && ReadBody(s.gzipReader, resp).0.Success?
    ensures var r := Fetch(codec, s, endpoint, params, outs);
      var resp := Next(outs).0.response;
      r.result == Failure(BadStatus(resp.status, ReadBody(s.gzipReader, resp).0.value)) && |r.sent| == 1
  {
    FetchResponded(codec, s, endpoint, params, outs);
  }

  /** A 200 response carrying no restriction is returned as read, after one request. */
  lemma PlainOkReturnsBody(codec: Json, s: Session, endpoint: string, params: Values, outs: seq<Outcome>)
    requires Sends(s, endpoint) && Next(outs).0.Responded?
    requires var resp := Next(outs).0.response;
      var body := ReadBody(s.gzipReader, resp).0;
      resp.status == StatusOK && body.Success? && RestrictionOf(codec, body.value).None?
    ensures var r := Fetch(codec, s, endpoint, params, outs);
      r.result == Success(ReadBody(s.gzipReader, Next(outs).0.response).0.value) && |r.sent| == 1
  {
    FetchResponded(codec, s, endpoint, params, outs);
  }

  /** A readable 200 response leads to a second request iff it carries a recoverable restriction. */
  lemma RetryIffRecoverable(codec: Json, s: Session, endpoint: string, params: Values, outs: seq<Outcome>)
    requires Sends(s, endpoint) && Next(outs).0.Responded?
    requires var resp := Next(outs).0.response;
      resp.status == StatusOK && ReadBody(s.gzipReader, resp).0.Success?
    ensures var r := Fetch(codec, s, endpoint, params, outs);
      var reason := RestrictionOf(codec, ReadBody(s.gzipReader, Next(outs).0.response).0.value);
      |r.sent| == 2 <==> reason.Some? && Recoverable(reason.value)
  {
    FetchResponded(codec, s, endpoint, params, outs);
    ReceiveRetryIffRecoverable(codec, s, DataRequest(s, endpoint, params), Next(outs).0.response, Next(outs).1);
  }

  lemma ReceiveRetryIffRecoverable(codec: Json, s: Session, req: Sent, resp: Response, rest: seq<Outcome>)
    requires resp.status == StatusOK && ReadBody(s.gzipReader, resp).0.Success?
    ensures var reason := RestrictionOf(codec, ReadBody(s.gzipReader, resp).0.value);
      |Receive(codec, s, req, resp, rest).sent| == 2 <==> reason.Some? && Recoverable(reason.value)
  {
  }

  /** "private" and unknown reasons end the call after the first request, with their own errors. */
  lemma TerminalRestrictions(codec: Json, s: Session, endpoint: string, params: Values, outs: seq<Outcome>)
    requires Sends(s, endpoint) && Next(outs).0.Responded?
    requires var resp := Next(outs).0.response;
      var body := ReadBody(s.gzipReader, resp).0;
      && resp.status == StatusOK && body.Success?
      && RestrictionOf(codec, body.value).Some? && !Recoverable(RestrictionOf(codec, body.value).value)
    ensures var r := Fetch(codec, s, endpoint, params, outs);
      var reason := RestrictionOf(codec, ReadBody(s.gzipReader, Next(outs).0.response).0.value).value;
      && |r.sent| == 1
      && r.result == Failure(if reason == "private" then Private else UnknownRestriction(reason))
  {
    FetchResponded(codec, s, endpoint, params, outs);
  }

  /**
   * The retry's body is the result as it was read: its status, its own
   * restriction and its rate header are not looked at.
   */
  lemma RetryBodyReturnedAsIs(codec: Json, s: Session, endpoint: string, params: Values, outs: seq<Outcome>)
    requires Sends(s, endpoint) && |outs| >= 2 && outs[0].Responded? && outs[1].Responded?
    requires var body := ReadBody(s.gzipReader, outs[0].response);
      && outs[0].response.status == StatusOK && body.0.Success?
      && RestrictionOf(codec, body.0.value).Some? && Recoverable(RestrictionOf(codec, body.0.value).value)
    ensures var r := Fetch(codec, s, endpoint, params, outs);
      var gz := ReadBody(s.gzipReader, outs[0].response).1;
      var retry := ReadBody(gz, outs[1].response).0;
      && |r.sent| == 2 && r.rest == outs[2..]
      && (retry.Success? ==> r.result == Success(retry.value))
      && (retry.Failure? ==> r.result == Failure(RetryReadFailed(retry.error)))
      && r.after.rateLimit == (if HeaderGet(outs[0].response.header, RateLimitHeader) != "" then RateStep(s.rateLimit) else s.rateLimit)
  {
    FetchResponded(codec, s, endpoint, params, outs);
  }
}
