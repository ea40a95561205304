/**
 * The client object itself: its fields are updated in place by the request
 * pipeline, the rate counter, the body reader and authentication, and each of
 * its methods is proved to do exactly what the functions of `Pipeline`, `Auth`
 * and `Api` say, on the state it started from and the outcomes the transport
 * holds.
 */
module Client {
  import opened Wrappers
  import opened Text
  import opened Urls
  import opened Http
  import opened Types
  import opened Pipeline
  import Api
  import Auth
  import Base64

  // ---------------------------------------------------------------------------
  // Device identifiers (section 4.4 of RFC 4122)
  // ---------------------------------------------------------------------------

  predicate IsLowerHex(c: char)
  {
    ('0' <= c <= '9') || ('a' <= c <= 'f')
  }

  function HexLower(d: nat): (c: char)
    requires d < 16
    ensures IsLowerHex(c)
  {
    if d < 10 then ('0' as int + d) as char else ('a' as int + d - 10) as char
  }

  /** Two lower-case hex digits per byte, high nibble first. */
  function HexBytes(bs: seq<Byte>): (r: string)
    ensures |r| == 2 * |bs|
    ensures forall i | 0 <= i < |r| :: IsLowerHex(r[i])
  {
    if bs == [] then "" else [HexLower(bs[0] / 16), HexLower(bs[0] % 16)] + HexBytes(bs[1..])
  }

  lemma {:induction false} HexBytesAt(bs: seq<Byte>, i: nat)
    requires i < |bs|
    ensures HexBytes(bs)[2 * i] == HexLower(bs[i] / 16)
  {
    if i > 0 {
      HexBytesAt(bs[1..], i - 1);
    }
  }

  /** The canonical text of 16 bytes: hex groups of 8, 4, 4, 4 and 12 digits joined by '-'. */
  function UuidText(b: seq<Byte>): (r: string)
    requires |b| == 16
  {
    HexBytes(b[..4]) + "-" + HexBytes(b[4..6]) + "-" + HexBytes(b[6..8]) + "-" + HexBytes(b[8..10]) + "-" + HexBytes(b[10..])
  }

  /** `uuid.New().String()` on 16 random bytes: the version and variant bits are forced. */
  function NewUuid(random: seq<Byte>): (r: string)
    requires |random| == 16
  {
    UuidText(random[6 := random[6] % 16 + 0x40][8 := random[8] % 64 + 0x80])
  }

  /** A version-4 UUID text: 36 characters, dashes at 8, 13, 18 and 23, version digit '4', variant digit 8 to b. */
  predicate IsUuidV4(r: string)
  {
    && |r| == 36
    && r[8] == '-' && r[13] == '-' && r[18] == '-' && r[23] == '-'
    && r[14] == '4'
    && r[19] in {'8', '9', 'a', 'b'}
    && forall i | 0 <= i < 36 && i != 8 && i != 13 && i != 18 && i != 23 :: IsLowerHex(r[i])
  }

  lemma NewUuidIsV4(random: seq<Byte>)
    requires |random| == 16
    ensures IsUuidV4(NewUuid(random))
  {
    var b := random[6 := random[6] % 16 + 0x40][8 := random[8] % 64 + 0x80];
    var r := NewUuid(random);
    var g0, g1, g2, g3, g4 := HexBytes(b[..4]), HexBytes(b[4..6]), HexBytes(b[6..8]), HexBytes(b[8..10]), HexBytes(b[10..]);
    assert r == g0 + "-" + g1 + "-" + g2 + "-" + g3 + "-" + g4;
    assert r[14] == g2[0];
    HexBytesAt(b[6..8], 0);
    assert r[19] == g3[0];
    HexBytesAt(b[8..10], 0);
    forall i | 0 <= i < 36 && i != 8 && i != 13 && i != 18 && i != 23
      ensures IsLowerHex(r[i])
    {
      if i < 8 {
        assert r[i] == g0[i];
      } else if i < 13 {
        assert r[i] == g1[i - 9];
      } else if i < 18 {
        assert r[i] == g2[i - 14];
      } else if i < 23 {
        assert r[i] == g3[i - 19];
      } else {
        assert r[i] == g4[i - 24];
      }
    }
  }

  // ---------------------------------------------------------------------------
  // Header shuffling
  // ---------------------------------------------------------------------------

  predicate Distinct(s: seq<string>)
  {
    forall i, j | 0 <= i < j < |s| :: s[i] != s[j]
  }

  /** `for k := range headers`: every key once, in an order the map does not fix. */
  method CollectKeys(headers: map<string, string>) returns (keys: seq<string>)
    ensures Distinct(keys)
    ensures forall k :: k in keys <==> k in headers
    ensures |keys| == |headers|
  {
    keys := [];
    var remaining := headers.Keys;
    while remaining != {}
      invariant remaining <= headers.Keys
      invariant Distinct(keys)
      invariant forall k :: k in keys <==> k in headers && k !in remaining
      invariant |keys| + |remaining| == |headers|
      decreases remaining
    {
      var k :| k in remaining;
      keys := keys + [k];
      remaining := remaining - {k};
    }
  }

  /** `rand.Shuffle`: from the last position down, swap each with a position at or below it. */
  method Shuffle(a: array<string>)
    modifies a
    ensures multiset(a[..]) == multiset(old(a[..]))
  {
    var i := a.Length - 1;
    while i > 0
      invariant i < a.Length
      invariant multiset(a[..]) == multiset(old(a[..]))
      decreases i
    {
      var j :| 0 <= j <= i;
      a[i], a[j] := a[j], a[i];
      i := i - 1;
    }
  }

  /** The keys of `m` that occur in `keys`, each with its value. */
  function Restrict(m: map<string, string>, keys: seq<string>): (r: map<string, string>)
    ensures forall k :: k in r <==> k in keys && k in m
    ensures forall k | k in r :: r[k] == m[k]
  {
    map k | k in keys && k in m :: m[k]
  }

  /** Setting one more key extends the restriction by that key. */
  lemma RestrictStep(base: map<string, string>, m: map<string, string>, keys: seq<string>, i: nat)
    requires i < |keys| && keys[i] in m
    ensures (base + Restrict(m, keys[..i]))[keys[i] := m[keys[i]]] == base + Restrict(m, keys[..i + 1])
  {
    assert keys[..i + 1] == keys[..i] + [keys[i]];
  }

  /** Two arrangements of the same multiset hold the same elements. */
  lemma PermutationSameElements(a: seq<string>, b: seq<string>)
    requires multiset(a) == multiset(b)
    ensures forall k :: k in a <==> k in b
  {
    forall k
      ensures k in a <==> k in b
    {
      assert k in a <==> k in multiset(a);
      assert k in b <==> k in multiset(b);
    }
  }

  /** Restricting a map to all of its keys gives the map. */
  lemma RestrictAll(m: map<string, string>, keys: seq<string>)
    requires forall k :: k in keys <==> k in m
    ensures Restrict(m, keys) == m
  {
  }

  /**
   * `shuffleHeaders`: every header of the map is set on the request, in a
   * shuffled order of its keys; the headers already there under other names
   * stay.
   */
  method ShuffleHeaders(req: Request, headers: map<string, string>)
    modifies req
    ensures req.header == old(req.header) + headers
  {
    var keys := CollectKeys(headers);
    var order := new string[|keys|](i requires 0 <= i < |keys| => keys[i]);
    assert order[..] == keys;
    Shuffle(order);
    ghost var shuffled := order[..];
    PermutationSameElements(shuffled, keys);
    for i := 0 to order.Length
      invariant order[..] == shuffled
      invariant req.header == old(req.header) + Restrict(headers, shuffled[..i])
    {
      RestrictStep(old(req.header), headers, shuffled, i);
      req.Set(order[i], headers[order[i]]);
    }
    TakeAll(shuffled);
    RestrictAll(headers, shuffled);
  }

  lemma TakeAll<T>(s: seq<T>)
    ensures s[..|s|] == s
  {
  }

  lemma AppendAssoc<T>(a: seq<T>, b: seq<T>, c: seq<T>)
    ensures a + b + c == a + (b + c)
  {
  }

  lemma MergeIntoEmpty<K, V>(m: map<K, V>)
    ensures map[] + m == m
  {
  }

  // ---------------------------------------------------------------------------
  // The client
  // ---------------------------------------------------------------------------

  class Client {
    const http: Transport
    const codec: Json
    var accessToken: string
    var loid: string
    var session: string
    const deviceID: string
    const userAgent: string
    /** The package's `ANDROID_CLIENT_ID`, kept beside the session so that proofs about a call need not compute its encoding. */
    const clientID: string
    var rateLimit: int
    var gzipReader: Decompressor
    var authenticated: bool

    /** The fields the pipeline works on. */
    function State(): Session
      reads this
    {
      Session(accessToken, loid, session, deviceID, userAgent, rateLimit, gzipReader, authenticated)
    }

    /** The rate budget stays within its bounds. */
    predicate Valid()
      reads this
    {
      ValidBudget(rateLimit)
    }

    /**
     * `NewClient`: with no transport of its own the client talks to `network`;
     * the device id is a fresh version-4 UUID and the user agent one of the
     * known app versions.
     */
    constructor (httpClient: Transport?, network: seq<Outcome>, codec: Json)
      ensures httpClient != null ==> http == httpClient
      ensures httpClient == null ==> fresh(http) && http.outcomes == network && http.sent == []
      ensures this.codec == codec
      ensures accessToken == "" && loid == "" && session == ""
      ensures rateLimit == FullBudget && gzipReader == Nil && !authenticated
      ensures IsUuidV4(deviceID)
      ensures userAgent in AndroidVersions
      ensures clientID == AndroidClientId
      ensures Valid()
    {
      if httpClient == null {
        http := new Transport(network);
      } else {
        http := httpClient;
      }
      var random: seq<Byte> :| |random| == 16 by {
        assert |seq(16, _ => 0)| == 16;
      }
      NewUuidIsV4(random);
      deviceID := NewUuid(random);
      var pick :| 0 <= pick < |AndroidVersions|;
      userAgent := AndroidVersions[pick];
      this.codec := codec;
      clientID := AndroidClientId;
      accessToken, loid, session := "", "", "";
      rateLimit := FullBudget;
      gzipReader := Nil;
      authenticated := false;
    }

    /** `updateRateLimit`: the header's value is not parsed; one signal is one step. */
    method UpdateRateLimit(rateLimitStr: string)
      requires Valid()
      modifies this`rateLimit
      ensures rateLimit == RateStep(old(rateLimit))
      ensures Valid()
    {
      rateLimit := rateLimit - 1;
      if rateLimit < BudgetFloor {
        rateLimit := FullBudget;
      }
    }

    /** `readResponseBody`: reads one body and creates or resets the shared decompressor. */
    method ReadResponseBody(resp: Response) returns (body: Result<string, string>)
      modifies this`gzipReader
      ensures (body, gzipReader) == ReadBody(old(gzipReader), resp)
    {
      var stream := resp.body;
      if Contains(HeaderGet(resp.header, ContentEncodingHeader), "gzip") {
        if gzipReader == Nil {
          if stream.headerFault.Some? {
            return Failure("failed to create gzip reader: " + stream.headerFault.value);
          }
          gzipReader := Created;
        } else {
          if stream.headerFault.Some? {
            return Failure("failed to reset gzip reader: " + stream.headerFault.value);
          }
        }
        body := ReadAll(stream.inflated, stream.readFault);
      } else {
        body := ReadAll(stream.data, stream.readFault);
      }
    }

    /**
     * `handleRestrictedContent`: a recoverable reason adds the consent cookie to
     * the original request and sends it once more.
     */
    method HandleRestrictedContent(originalReq: Request, reason: string) returns (result: Result<string, Error>)
      modifies this, http, originalReq
      ensures var x := HandleRestricted(old(State()), old(originalReq.Snapshot()), reason, old(http.outcomes));
        && result == x.result && State() == x.after
        && http.sent == old(http.sent) + x.sent && http.outcomes == x.rest
      ensures originalReq.header == if Recoverable(reason) then old(originalReq.header)["Cookie" := ContentWarningAcceptCookie]
                                    else old(originalReq.header)
    {
      if reason == "gated" || reason == "quarantined" {
        originalReq.Set("Cookie", ContentWarningAcceptCookie);
        var outcome := http.Do(originalReq);
        if outcome.Failed? {
          return Failure(RetryFailed(outcome.cause));
        }
        var body := ReadResponseBody(outcome.response);
        if body.Failure? {
          return Failure(RetryReadFailed(body.error));
        }
        return Success(body.value);
      } else if reason == "private" {
        return Failure(Private);
      } else {
        return Failure(UnknownRestriction(reason));
      }
    }

    /**
     * The part of `makeAPIRequest` after the first response has arrived: the rate
     * signal, the body read, the status check and the restriction check.
     */
    method HandleResponse(req: Request, resp: Response, ghost before: seq<Sent>) returns (result: Result<string, Error>)
      requires http.sent == before + [req.Snapshot()]
      requires Valid()
      modifies this, http, req
      ensures var x := Receive(codec, old(State()), old(req.Snapshot()), resp, old(http.outcomes));
        && result == x.result && State() == x.after
        && http.sent == before + x.sent && http.outcomes == x.rest
        && req.header == if |x.sent| == 2 then old(req.header)["Cookie" := ContentWarningAcceptCookie] else old(req.header)
    {
      ghost var s0, first, rest := State(), req.Snapshot(), http.outcomes;
      ghost var x := Receive(codec, s0, first, resp, rest);
      var rateLimitStr := HeaderGet(resp.header, RateLimitHeader);
      if rateLimitStr != "" {
        UpdateRateLimit(rateLimitStr);
      }
      ghost var s1 := State();
      assert s1 == if rateLimitStr != "" then s0.(rateLimit := RateStep(s0.rateLimit)) else s0;
      var body := ReadResponseBody(resp);
      assert (body, gzipReader) == ReadBody(s1.gzipReader, resp);
      assert State() == s1.(gzipReader := gzipReader);
      if body.Failure? {
        assert x == Exchange(Failure(ReadFailed(body.error)), State(), [first], rest);
        return Failure(ReadFailed(body.error));
      }
      if resp.status != StatusOK {
        assert x == Exchange(Failure(BadStatus(resp.status, body.value)), State(), [first], rest);
        return Failure(BadStatus(resp.status, body.value));
      }
      var restriction := RestrictionOf(codec, body.value);
      if restriction.Some? {
        ghost var h := HandleRestricted(State(), first, restriction.value, rest);
        assert x == Exchange(h.result, h.after, [first] + h.sent, h.rest);
        result := HandleRestrictedContent(req, restriction.value);
        AppendAssoc(before, [first], h.sent);
        return;
      }
      assert x == Exchange(Success(body.value), State(), [first], rest);
      return Success(body.value);
    }

    /**
     * The request of `makeAPIRequest`: the URL with `raw_json=1` added to the
     * query, refused when it does not parse, and the headers taken from the
     * session and set in shuffled order.
     */
    method NewDataRequest(endpoint: string, params: Values) returns (r: Result<Request, Error>)
      ensures r.Failure? <==> !EndpointParses(endpoint)
      ensures r.Failure? ==> r.error == CreateRequest(RequestURL(endpoint, params))
      ensures r.Success? ==> fresh(r.value) && r.value.Snapshot() == DataRequest(State(), endpoint, params)
    {
      var p := params["raw_json" := ["1"]];
      var fullURL := ApiOrigin + endpoint;
      if |p| > 0 {
        fullURL := fullURL + "?" + Encode(p);
      }
      assert fullURL == RequestURL(endpoint, params);
      if !EndpointParses(endpoint) {
        return Failure(CreateRequest(fullURL));
      }
      var req := new Request("GET", fullURL, "");
      var headers := map[
        "Authorization" := "Bearer " + accessToken,
        "User-Agent" := userAgent,
        "x-reddit-loid" := loid,
        "x-reddit-session" := session,
        "Accept-Encoding" := "gzip"
      ];
      ShuffleHeaders(req, headers);
      MergeIntoEmpty(headers);
      return Success(req);
    }

    /** The `Do` of `makeAPIRequest` and the handling of its outcome. */
    method Send(req: Request) returns (result: Result<string, Error>)
      requires Valid()
      modifies this, http, req
      ensures var x := Dispatch(codec, old(State()), old(req.Snapshot()), old(http.outcomes));
        && result == x.result && State() == x.after
        && http.sent == old(http.sent) + x.sent && http.outcomes == x.rest
        && req.header == if |x.sent| == 2 then old(req.header)["Cookie" := ContentWarningAcceptCookie] else old(req.header)
    {
      ghost var before := http.sent;
      var outcome := http.Do(req);
      if outcome.Failed? {
        return Failure(RequestFailed(outcome.cause));
      }
      result := HandleResponse(req, outcome.response, before);
    }

    /** `makeAPIRequest`. */
    method MakeAPIRequest(endpoint: string, params: Values) returns (result: Result<string, Error>)
      requires Valid()
      modifies this, http
      ensures var x := Fetch(codec, old(State()), endpoint, params, old(http.outcomes));
        && result == x.result && State() == x.after
        && http.sent == old(http.sent) + x.sent && http.outcomes == x.rest
      ensures Valid()
    {
      if accessToken == "" {
        return Failure(NoToken);
      }
      result := SendData(endpoint, params);
    }

    /** The part of `makeAPIRequest` past the token guard: build the request and send it. */
    method SendData(endpoint: string, params: Values) returns (result: Result<string, Error>)
      requires Valid() && accessToken != ""
      modifies this, http
      ensures var x := Fetch(codec, old(State()), endpoint, params, old(http.outcomes));
        && result == x.result && State() == x.after
        && http.sent == old(http.sent) + x.sent && http.outcomes == x.rest
    {
      var req := NewDataRequest(endpoint, params);
      if req.Failure? {
        return Failure(req.error);
      }
      result := Send(req.value);
    }

    /**
     * The request of `Authenticate`: the scope body posted to the token
     * endpoint with the Basic credential and the app's headers, set in
     * shuffled order; `qos` is the random draw of the qos header.
     */
    method NewAuthRequest(qos: nat) returns (req: Request)
      requires qos <= 100_000
      ensures fresh(req) && req.Snapshot() == Auth.AuthRequest(State(), clientID, qos)
    {
      var auth := Base64.Encode(Utf8String(clientID + ":"));
      var headers := map[
        "Authorization" := "Basic " + auth,
        "User-Agent" := userAgent,
        "X-Reddit-Device-Id" := deviceID,
        "client-vendor-id" := deviceID,
        "Content-Type" := "application/json; charset=UTF-8",
        "x-reddit-retry" := "algo=no-retries",
        "x-reddit-compression" := "1",
        "x-reddit-qos" := Auth.QosText(qos),
        "x-reddit-media-codecs" := "available-codecs=video/avc, video/hevc, video/x-vnd.on2.vp9"
      ];
      req := new Request("POST", Auth.AuthURL, Auth.AuthBody);
      ShuffleHeaders(req, headers);
      MergeIntoEmpty(headers);
    }

    /**
     * `Authenticate`, as its tests expect it: the token and the two session
     * identifiers are taken over and the session is marked authenticated. The
     * qos header carries a random draw, `milli` thousandths of one percent.
     */
    method Authenticate() returns (result: Result<(), Error>, ghost milli: nat)
      requires Valid()
      modifies this, http
      ensures Valid()
      ensures milli <= 100_000
      ensures var x := Auth.Authenticate(codec, old(State()), clientID, milli, old(http.outcomes));
        && result == x.result && State() == x.after
        && http.sent == old(http.sent) + x.sent && http.outcomes == x.rest
    {
      var qos: nat :| qos <= 100_000;
      milli := qos;
      var req := NewAuthRequest(qos);
      var outcome := http.Do(req);
      result := Adopt(outcome);
    }

    /** The tail of `Authenticate`: the checks on the answer and the session fields it takes over. */
    method Adopt(outcome: Outcome) returns (result: Result<(), Error>)
      requires Valid()
      modifies this
      ensures var x := Auth.Settle(codec, old(State()), outcome);
        result == x.0 && State() == x.1
      ensures Valid()
    {
      if outcome.Failed? {
        return Failure(AuthRequestFailed(outcome.cause));
      }
      var resp := outcome.response;
      if resp.status != StatusOK {
        return Failure(AuthStatus(resp.status));
      }
      var oauthResp := Auth.DecodeOAuth(codec, resp.body);
      if oauthResp.Failure? {
        return Failure(AuthDecodeFailed(oauthResp.error));
      }
      accessToken := oauthResp.value.accessToken;
      loid := HeaderGet(resp.header, Auth.LoidHeader);
      session := HeaderGet(resp.header, Auth.SessionHeader);
      authenticated := true;
      return Success(());
    }

    /** `GetSubreddit`. */
    method GetSubreddit(subreddit: string, sort: string) returns (result: Result<SubredditListing, Error>)
      requires Valid()
      modifies this, http
      ensures var x := Api.GetSubreddit(codec, old(State()), subreddit, sort, old(http.outcomes));
        && result == x.result && State() == x.after
        && http.sent == old(http.sent) + x.sent && http.outcomes == x.rest
      ensures Valid()
    {
      if !authenticated {
        return Failure(NotAuthenticated);
      }
      var endpoint := "/r/" + subreddit + "/" + sort + ".json";
      var body := MakeAPIRequest(endpoint, map[]);
      if body.Failure? {
        return Failure(body.error);
      }
      var listing := codec.listing(body.value);
      if listing.Failure? {
        return Failure(DecodeFailed("subreddit listing", listing.error));
      }
      return Success(listing.value);
    }

    /** `GetPost`. */
    method GetPost(subreddit: string, postID: string) returns (result: Result<PostResponse, Error>)
      requires Valid()
      modifies this, http
      ensures var x := Api.GetPost(codec, old(State()), subreddit, postID, old(http.outcomes));
        && result == x.result && State() == x.after
        && http.sent == old(http.sent) + x.sent && http.outcomes == x.rest
      ensures Valid()
    {
      if !authenticated {
        return Failure(NotAuthenticated);
      }
      var endpoint := "/r/" + subreddit + "/comments/" + postID + ".json";
      var body := MakeAPIRequest(endpoint, map[]);
      if body.Failure? {
        return Failure(body.error);
      }
      var post := codec.post(body.value);
      if post.Failure? {
        return Failure(DecodeFailed("post", post.error));
      }
      return Success(post.value);
    }

    /** `GetUser`. */
    method GetUser(username: string) returns (result: Result<UserResponse, Error>)
      requires Valid()
      modifies this, http
      ensures var x := Api.GetUser(codec, old(State()), username, old(http.outcomes));
        && result == x.result && State() == x.after
        && http.sent == old(http.sent) + x.sent && http.outcomes == x.rest
      ensures Valid()
    {
      if !authenticated {
        return Failure(NotAuthenticated);
      }
      var endpoint := "/user/" + username + "/about.json";
      var body := MakeAPIRequest(endpoint, map[]);
      if body.Failure? {
        return Failure(body.error);
      }
      var user := codec.user(body.value);
      if user.Failure? {
        return Failure(DecodeFailed("user", user.error));
      }
      return Success(user.value);
    }

    /** `Search`. */
    method Search(query: string, sort: string, timeframe: string) returns (result: Result<SearchResponse, Error>)
      requires Valid()
      modifies this, http
      ensures var x := Api.Search(codec, old(State()), query, sort, timeframe, old(http.outcomes));
        && result == x.result && State() == x.after
        && http.sent == old(http.sent) + x.sent && http.outcomes == x.rest
      ensures Valid()
    {
      if !authenticated {
        return Failure(NotAuthenticated);
      }
      var params := map["q" := [query], "sort" := [sort], "t" := [timeframe]];
      var body := MakeAPIRequest("/search.json", params);
      if body.Failure? {
        return Failure(body.error);
      }
      var search := codec.search(body.value);
      if search.Failure? {
        return Failure(DecodeFailed("search results", search.error));
      }
      return Success(search.value);
    }
  }
}
