/**
 * Credential acquisition: one POST to the OAuth endpoint with an HTTP Basic
 * credential for the Android client id, spoofed app headers and the scope
 * body; on success the token and the two session identifiers are taken over,
 * on any failure nothing changes.
 */
module Auth {
  import opened Wrappers
  import opened Text
  import opened Urls
  import opened Http
  import opened Types
  import opened Pipeline
  import Base64

  const AuthURL := "https://www.reddit.com/auth/v2/oauth/access-token/loid"

  /** `json.Marshal` of `{"scopes": ["*", "email", "pii"]}`. */
  const AuthBody := "{\"scopes\":[\"*\",\"email\",\"pii\"]}"

  const LoidHeader := "x-reddit-loid"
  const SessionHeader := "x-reddit-session"

  /** The user-id:password pair of section 2 of RFC 7617: the client id and an empty password. */
  function BasicUserPass(clientID: string): string
  {
    clientID + ":"
  }

  /** The value of the Authorization header: "Basic " and the base64 of the user-pass. */
  function BasicAuthorization(clientID: string): string
  {
    "Basic " + Base64.Encode(Utf8String(BasicUserPass(clientID)))
  }

  /**
   * A server decoding the credential gets back the client id, a ':' and nothing
   * after it: the user-id is the client id and the password is empty.
   */
  lemma BasicCredentialDecodes()
    ensures var token := BasicAuthorization(AndroidClientId)[|"Basic "|..];
      var bytes := Utf8String(AndroidClientId);
      && Base64.Decode(token) == Some(bytes + [':' as int])
      && ':' as int !in bytes
  {
    assert IsAscii(AndroidClientId) && ':' !in AndroidClientId;
    UserPassDecodes(AndroidClientId);
  }

  /** For any ASCII user-id free of ':', the base64 of "id:" decodes to the id's bytes and a ':'. */
  lemma UserPassDecodes(id: string)
    requires IsAscii(id) && ':' !in id
    ensures var bytes := Utf8String(id);
      && Base64.Decode(Base64.Encode(Utf8String(id + ":"))) == Some(bytes + [':' as int])
      && ':' as int !in bytes
  {
    Base64.DecodeEncode(Utf8String(id + ":"));
    Utf8Append(id, ":");
    assert Utf8String(":") == Utf8(':') + Utf8String([]) == [':' as int];
    Utf8OfAscii(id);
    var bytes := Utf8String(id);
    assert ':' as int !in bytes by {
      forall i | 0 <= i < |bytes|
        ensures bytes[i] != ':' as int
      {
        assert bytes[i] == id[i] as int;
      }
    }
  }

  /**
   * `fmt.Sprintf("%.3f", rand.Float64()*100)` once the value has been rounded to
   * `milli` thousandths: 0 up to 100000 (a draw close enough to 100 rounds up to it).
   */
  function QosText(milli: nat): (r: string)
    requires milli <= 100_000
    ensures |r| >= 5 && r[|r| - 4] == '.'
  {
    var frac := milli % 1000;
    NatText(milli / 1000) + "." + [DigitChar(frac / 100), DigitChar(frac / 10 % 10), DigitChar(frac % 10)]
  }

  /** The qos text reads back as the thousandths it was made from. */
  lemma QosTextReadsBack(milli: nat)
    requires milli <= 100_000
    ensures var r := QosText(milli);
      && (forall i | 0 <= i < |r| && i != |r| - 4 :: IsDigit(r[i]))
      && 1000 * DigitsValue(r[..|r| - 4]) + DigitsValue(r[|r| - 3..]) == milli
  {
    var r := QosText(milli);
    var frac := milli % 1000;
    assert r[..|r| - 4] == NatText(milli / 1000);
    assert r[|r| - 3..] == [DigitChar(frac / 100), DigitChar(frac / 10 % 10), DigitChar(frac % 10)];
    NatTextRoundTrip(milli / 1000);
    ThreeDigitsValue(frac);
  }

  /** The headers of the authentication request. */
  function AuthHeaders(s: Session, clientID: string, milli: nat): map<string, string>
    requires milli <= 100_000
  {
    map[
      "Authorization" := BasicAuthorization(clientID),
      "User-Agent" := s.userAgent,
      "X-Reddit-Device-Id" := s.deviceID,
      "client-vendor-id" := s.deviceID,
      "Content-Type" := "application/json; charset=UTF-8",
      "x-reddit-retry" := "algo=no-retries",
      "x-reddit-compression" := "1",
      "x-reddit-qos" := QosText(milli),
      "x-reddit-media-codecs" := "available-codecs=video/avc, video/hevc, video/x-vnd.on2.vp9"
    ]
  }

  /** The credential and identity headers of the authentication request. */
  lemma AuthHeadersCarry(s: Session, clientID: string, milli: nat)
    requires milli <= 100_000
    ensures var h := AuthHeaders(s, clientID, milli);
      && h["Authorization"] == "Basic " + Base64.Encode(Utf8String(clientID + ":"))
      && h["User-Agent"] == s.userAgent
      && h["X-Reddit-Device-Id"] == s.deviceID && h["client-vendor-id"] == s.deviceID
      && h["x-reddit-qos"] == QosText(milli)
  {
  }

  function AuthRequest(s: Session, clientID: string, milli: nat): Sent
    requires milli <= 100_000
  {
    Sent("POST", AuthURL, AuthHeaders(s, clientID, milli), AuthBody)
  }

  /** `json.NewDecoder(resp.Body).Decode(&oauthResp)`: the raw body, not inflated. */
  function DecodeOAuth(codec: Json, body: Stream): Result<OAuthResponse, string>
  {
    if body.readFault.Some? then Failure(body.readFault.value) else codec.oauth(body.data)
  }

  /** The session after a successful exchange, as the source writes it: the authentication flag is left as it was. */
  function AdoptAsWritten(s: Session, token: OAuthResponse, resp: Response): Session
  {
    s.(accessToken := token.accessToken,
       loid := HeaderGet(resp.header, LoidHeader),
       session := HeaderGet(resp.header, SessionHeader))
  }

  /**
   * What `Authenticate` makes of the transport's answer, exactly as written:
   * the outcome of the call and the session after it. Success never sets
   * `authenticated`.
   */
  function SettleAsWritten(codec: Json, s: Session, outcome: Outcome): (r: (Result<(), Error>, Session))
    ensures r.1.authenticated == s.authenticated
    ensures r.0.Failure? ==> r.1 == s
    ensures r.0.Success? <==>
      outcome.Responded? && outcome.response.status == StatusOK &&
      DecodeOAuth(codec, outcome.response.body).Success?
    ensures r.0.Success? ==>
      r.1 == AdoptAsWritten(s, DecodeOAuth(codec, outcome.response.body).value, outcome.response)
  {
    match outcome
    case Failed(cause) => (Failure(AuthRequestFailed(cause)), s)
    case Responded(resp) =>
      if resp.status != StatusOK then (Failure(AuthStatus(resp.status)), s)
      else
        match DecodeOAuth(codec, resp.body)
        case Failure(cause) => (Failure(AuthDecodeFailed(cause)), s)
        case Success(token) => (Success(()), AdoptAsWritten(s, token, resp))
  }

  /** What `Authenticate` makes of the transport's answer, as its tests expect it: a success also marks the session authenticated. */
  function Settle(codec: Json, s: Session, outcome: Outcome): (r: (Result<(), Error>, Session))
    ensures r.0.Failure? ==> r.1 == s
    ensures r.0.Success? <==>
      outcome.Responded? && outcome.response.status == StatusOK &&
      DecodeOAuth(codec, outcome.response.body).Success?
    ensures r.0.Success? ==>
      r.1 == s.(accessToken := DecodeOAuth(codec, outcome.response.body).value.accessToken,
                loid := HeaderGet(outcome.response.header, LoidHeader),
                session := HeaderGet(outcome.response.header, SessionHeader),
                authenticated := true)
  {
    var x := SettleAsWritten(codec, s, outcome);
    if x.0.Success? then (x.0, x.1.(authenticated := true)) else x
  }

  /** `Authenticate` exactly as written: one request, whose answer `SettleAsWritten` takes over. */
  function AuthenticateAsWritten(codec: Json, s: Session, clientID: string, milli: nat, outs: seq<Outcome>): (r: Exchange<()>)
    requires milli <= 100_000
    ensures r.sent == [AuthRequest(s, clientID, milli)] && r.rest == Next(outs).1
    ensures r.after.authenticated == s.authenticated
    ensures r.result.Failure? ==> r.after == s
    ensures r.result.Success? <==>
      Next(outs).0.Responded? && Next(outs).0.response.status == StatusOK &&
      DecodeOAuth(codec, Next(outs).0.response.body).Success?
    ensures r.result.Success? ==>
      var resp := Next(outs).0.response;
      r.after == AdoptAsWritten(s, DecodeOAuth(codec, resp.body).value, resp)
  {
    var (outcome, rest) := Next(outs);
    var (result, after) := SettleAsWritten(codec, s, outcome);
    Exchange(result, after, [AuthRequest(s, clientID, milli)], rest)
  }

  /** `Authenticate` as its tests expect it. */
  function Authenticate(codec: Json, s: Session, clientID: string, milli: nat, outs: seq<Outcome>): (r: Exchange<()>)
    requires milli <= 100_000
    ensures r.sent == [AuthRequest(s, clientID, milli)] && r.rest == Next(outs).1
    ensures r.result.Failure? ==> r.after == s
    ensures r.result.Success? <==>
      Next(outs).0.Responded? && Next(outs).0.response.status == StatusOK &&
      DecodeOAuth(codec, Next(outs).0.response.body).Success?
    ensures r.result.Success? ==>
      var resp := Next(outs).0.response;
      r.after == s.(accessToken := DecodeOAuth(codec, resp.body).value.accessToken,
                    loid := HeaderGet(resp.header, LoidHeader),
                    session := HeaderGet(resp.header, SessionHeader),
                    authenticated := true)
  {
    var (outcome, rest) := Next(outs);
    var (result, after) := Settle(codec, s, outcome);
    Exchange(result, after, [AuthRequest(s, clientID, milli)], rest)
  }

  lemma AuthTransportErrorChangesNothing(codec: Json, s: Session, clientID: string, milli: nat, outs: seq<Outcome>)
    requires milli <= 100_000
    requires Next(outs).0.Failed?
    ensures var r := Authenticate(codec, s, clientID, milli, outs);
      r.result == Failure(AuthRequestFailed(Next(outs).0.cause)) && r.after == s && |r.sent| == 1
  {
  }

  lemma AuthBadStatusChangesNothing(codec: Json, s: Session, clientID: string, milli: nat, outs: seq<Outcome>)
    requires milli <= 100_000
    requires Next(outs).0.Responded? && Next(outs).0.response.status != StatusOK
    ensures var r := Authenticate(codec, s, clientID, milli, outs);
      r.result == Failure(AuthStatus(Next(outs).0.response.status)) && r.after == s
  {
  }
}
