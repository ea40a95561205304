/**
 * The four data operations: a guard on the authentication flag, the endpoint
 * and parameters each one builds, the shared request pipeline, and the decoding
 * of the body into the operation's result shape.
 */
module Api {
  import opened Wrappers
  import opened Text
  import opened Urls
  import opened Http
  import opened Types
  import opened Pipeline

  function SubredditEndpoint(subreddit: string, sort: string): string
  {
    "/r/" + subreddit + "/" + sort + ".json"
  }

  function PostEndpoint(subreddit: string, postID: string): string
  {
    "/r/" + subreddit + "/comments/" + postID + ".json"
  }

  function UserEndpoint(username: string): string
  {
    "/user/" + username + "/about.json"
  }

  const SearchEndpoint := "/search.json"

  /** The query of a search: one value for each of `q`, `sort` and `t`. */
  function SearchParams(query: string, sort: string, timeframe: string): Values
  {
    map["q" := [query], "sort" := [sort], "t" := [timeframe]]
  }

  /**
   * The common shape of the operations: refuse without sending unless the
   * session is authenticated; otherwise run the pipeline, pass its error on as
   * it is, and decode its body, naming `what` failed to decode.
   */
  function Call<T>(codec: Json, s: Session, endpoint: string, params: Values,
                   decode: string -> Result<T, string>, what: string, outs: seq<Outcome>): (r: Exchange<T>)
    ensures !s.authenticated ==> r == Exchange(Failure(NotAuthenticated), s, [], outs)
    ensures s.authenticated ==>
      var x := Fetch(codec, s, endpoint, params, outs);
      && r.after == x.after && r.sent == x.sent && r.rest == x.rest
      && (x.result.Failure? ==> r.result == Failure(x.result.error))
      && (x.result.Success? && decode(x.result.value).Failure? ==>
            r.result == Failure(DecodeFailed(what, decode(x.result.value).error)))
      && (r.result.Success? <==> x.result.Success? && decode(x.result.value).Success?)
      && (r.result.Success? ==> r.result.value == decode(x.result.value).value)
  {
    if !s.authenticated then
      Exchange(Failure(NotAuthenticated), s, [], outs)
    else
      var x := Fetch(codec, s, endpoint, params, outs);
      var result :=
        match x.result
        case Failure(e) => Failure(e)
        case Success(body) =>
          match decode(body)
          case Failure(cause) => Failure(DecodeFailed(what, cause))
          case Success(v) => Success(v);
      Exchange(result, x.after, x.sent, x.rest)
  }

  function GetSubreddit(codec: Json, s: Session, subreddit: string, sort: string, outs: seq<Outcome>): Exchange<SubredditListing>
  {
    Call(codec, s, SubredditEndpoint(subreddit, sort), map[], codec.listing, "subreddit listing", outs)
  }

  function GetPost(codec: Json, s: Session, subreddit: string, postID: string, outs: seq<Outcome>): Exchange<PostResponse>
  {
    Call(codec, s, PostEndpoint(subreddit, postID), map[], codec.post, "post", outs)
  }

  function GetUser(codec: Json, s: Session, username: string, outs: seq<Outcome>): Exchange<UserResponse>
  {
    Call(codec, s, UserEndpoint(username), map[], codec.user, "user", outs)
  }

  function Search(codec: Json, s: Session, query: string, sort: string, timeframe: string, outs: seq<Outcome>): Exchange<SearchResponse>
  {
    Call(codec, s, SearchEndpoint, SearchParams(query, sort, timeframe), codec.search, "search results", outs)
  }

  // ---------------------------------------------------------------------------
  // What the operations send
  // ---------------------------------------------------------------------------

  /** Without the flag, none of the operations sends anything or changes the session. */
  lemma UnauthenticatedSendsNothing(codec: Json, s: Session, a: string, b: string, c: string, outs: seq<Outcome>)
    requires !s.authenticated
    ensures var r := GetSubreddit(codec, s, a, b, outs); r.result == Failure(NotAuthenticated) && r.sent == [] && r.after == s
    ensures var r := GetPost(codec, s, a, b, outs); r.result == Failure(NotAuthenticated) && r.sent == [] && r.after == s
    ensures var r := GetUser(codec, s, a, outs); r.result == Failure(NotAuthenticated) && r.sent == [] && r.after == s
    ensures var r := Search(codec, s, a, b, c, outs); r.result == Failure(NotAuthenticated) && r.sent == [] && r.after == s
  {
  }

  /** The keys and fixed values the operations put in a query need no escaping. */
  lemma KeysUnreserved()
    ensures AllUnreserved("q") && AllUnreserved("raw_json") && AllUnreserved("sort") && AllUnreserved("t")
    ensures AllUnreserved("1")
  {
  }

  lemma RawJsonEncode()
    ensures Encode(map["raw_json" := ["1"]]) == "raw_json=1"
  {
    var p: Values := map["raw_json" := ["1"]];
    assert p.Keys == {"raw_json"};
    SortedElementsUnique(p.Keys, ["raw_json"]);
    KeysUnreserved();
    QueryEscapePlain("raw_json");
    QueryEscapePlain("1");
    PairsOfSingles(p, ["raw_json"], ["1"]);
  }

  /** Called with nil params, the pipeline's query is exactly `raw_json=1`. */
  lemma NilParamsURL(endpoint: string)
    ensures RequestURL(endpoint, map[]) == ApiOrigin + endpoint + "?" + "raw_json=1"
  {
    var p := WithRawJson(map[]);
    assert p == map["raw_json" := ["1"]];
    RawJsonEncode();
  }

  lemma SearchKeysSorted()
    ensures SortedElements({"q", "raw_json", "sort", "t"}) == ["q", "raw_json", "sort", "t"]
  {
    var keys := ["q", "raw_json", "sort", "t"];
    assert Below("q", "raw_json") && Below("raw_json", "sort") && Below("sort", "t");
    BelowTransitive("q", "raw_json", "sort");
    BelowTransitive("q", "sort", "t");
    BelowTransitive("raw_json", "sort", "t");
    assert StrictlySorted(keys);
    SortedElementsUnique({"q", "raw_json", "sort", "t"}, keys);
  }

  lemma SearchPairs(query: string, sort: string, timeframe: string)
    ensures var p: Values := map["q" := [query], "raw_json" := ["1"], "sort" := [sort], "t" := [timeframe]];
      Pairs(p, ["q", "raw_json", "sort", "t"]) == [("q", query), ("raw_json", "1"), ("sort", sort), ("t", timeframe)]
  {
    var p: Values := map["q" := [query], "raw_json" := ["1"], "sort" := [sort], "t" := [timeframe]];
    PairsOfSingles(p, ["q", "raw_json", "sort", "t"], [query, "1", sort, timeframe]);
  }

  lemma SearchJoin(query: string, sort: string, timeframe: string)
    ensures Join([("q", query), ("raw_json", "1"), ("sort", sort), ("t", timeframe)]) ==
      "q=" + QueryEscape(query) + "&raw_json=1&sort=" + QueryEscape(sort) + "&t=" + QueryEscape(timeframe)
  {
    KeysUnreserved();
    JoinFour(("q", query), ("raw_json", "1"), ("sort", sort), ("t", timeframe));
    FieldOfPlainKey("q", query);
    FieldOfPlainKey("raw_json", "1");
    QueryEscapePlain("1");
    FieldOfPlainKey("sort", sort);
    FieldOfPlainKey("t", timeframe);
    SearchSpelling(QueryEscape(query), QueryEscape(sort), QueryEscape(timeframe));
  }

  lemma SearchSpelling(x: string, y: string, z: string)
    ensures "q" + "=" + x + "&" + ("raw_json" + "=" + "1" + "&" + ("sort" + "=" + y + "&" + ("t" + "=" + z)))
        == "q=" + x + "&raw_json=1&sort=" + y + "&t=" + z
  {
  }

  /** A search's query: its three fields and `raw_json=1`, in sorted key order, each value escaped. */
  lemma SearchQuery(query: string, sort: string, timeframe: string)
    ensures Encode(WithRawJson(SearchParams(query, sort, timeframe))) ==
      "q=" + QueryEscape(query) + "&raw_json=1&sort=" + QueryEscape(sort) + "&t=" + QueryEscape(timeframe)
  {
    var p: Values := map["q" := [query], "raw_json" := ["1"], "sort" := [sort], "t" := [timeframe]];
    assert WithRawJson(SearchParams(query, sort, timeframe)) == p;
    assert p.Keys == {"q", "raw_json", "sort", "t"};
    SearchKeysSorted();
    SearchPairs(query, sort, timeframe);
    SearchJoin(query, sort, timeframe);
  }

  /** The fixed parts of the listing and post endpoints need no escaping. */
  lemma ListingLiteralsPlain()
    ensures PlainPath("/r/") && PlainPath("/") && PlainPath(".json") && PlainPath("/comments/")
  {
    assert PlainPath("/r/");
    assert PlainPath("/");
    assert PlainPath(".json");
    assert PlainPath("/comments/");
  }

  /** The fixed parts of the user and search endpoints need no escaping. */
  lemma UserSearchLiteralsPlain()
    ensures PlainPath("/user/") && PlainPath("/about.json") && PlainPath(SearchEndpoint)
  {
    assert PlainPath("/user/");
    assert PlainPath("/about.json");
    assert PlainPath(SearchEndpoint);
  }

  /** The path of a subreddit listing has the segments r, the subreddit, and the sort with ".json". */
  lemma SubredditPath(subreddit: string, sort: string)
    requires PlainSegment(subreddit) && PlainSegment(sort)
    ensures Segments(SubredditEndpoint(subreddit, sort)) == ["", "r", subreddit, sort + ".json"]
  {
    assert SubredditEndpoint(subreddit, sort) == "" + "/" + ("r" + "/" + (subreddit + "/" + (sort + ".json")));
    SegmentsOfFour("", "r", subreddit, sort + ".json");
  }

  lemma SubredditParses(subreddit: string, sort: string)
    requires PlainSegment(subreddit) && PlainSegment(sort)
    ensures EndpointParses(SubredditEndpoint(subreddit, sort))
  {
    var e := SubredditEndpoint(subreddit, sort);
    ListingLiteralsPlain();
    PlainPathConcat("/r/", subreddit);
    PlainPathConcat("/r/" + subreddit, "/");
    PlainPathConcat("/r/" + subreddit + "/", sort);
    PlainPathConcat("/r/" + subreddit + "/" + sort, ".json");
    PlainEndpointParses(e);
  }

  lemma PostPath(subreddit: string, postID: string)
    requires PlainSegment(subreddit) && PlainSegment(postID)
    ensures Segments(PostEndpoint(subreddit, postID)) == ["", "r", subreddit, "comments", postID + ".json"]
  {
    assert PostEndpoint(subreddit, postID) == "" + "/" + ("r" + "/" + (subreddit + "/" + ("comments" + "/" + (postID + ".json"))));
    SegmentsOfFive("", "r", subreddit, "comments", postID + ".json");
  }

  lemma PostParses(subreddit: string, postID: string)
    requires PlainSegment(subreddit) && PlainSegment(postID)
    ensures EndpointParses(PostEndpoint(subreddit, postID))
  {
    var e := PostEndpoint(subreddit, postID);
    ListingLiteralsPlain();
    PlainPathConcat("/r/", subreddit);
    PlainPathConcat("/r/" + subreddit, "/comments/");
    PlainPathConcat("/r/" + subreddit + "/comments/", postID);
    PlainPathConcat("/r/" + subreddit + "/comments/" + postID, ".json");
    PlainEndpointParses(e);
  }

  lemma UserPath(username: string)
    requires PlainSegment(username)
    ensures Segments(UserEndpoint(username)) == ["", "user", username, "about.json"]
  {
    assert UserEndpoint(username) == "" + "/" + ("user" + "/" + (username + "/" + "about.json"));
    SegmentsOfFour("", "user", username, "about.json");
  }

  lemma UserParses(username: string)
    requires PlainSegment(username)
    ensures EndpointParses(UserEndpoint(username))
  {
    var e := UserEndpoint(username);
    UserSearchLiteralsPlain();
    PlainPathConcat("/user/", username);
    PlainPathConcat("/user/" + username, "/about.json");
    PlainEndpointParses(e);
  }

  /** With the flag and a token, a listing call over plain segments first sends the listing URL. */
  lemma GetSubredditSends(codec: Json, s: Session, subreddit: string, sort: string, outs: seq<Outcome>)
    requires s.authenticated && s.accessToken != ""
    requires PlainSegment(subreddit) && PlainSegment(sort)
    ensures var r := GetSubreddit(codec, s, subreddit, sort, outs);
      && 1 <= |r.sent| <= 2
      && r.sent[0] == Sent("GET", ApiOrigin + SubredditEndpoint(subreddit, sort) + "?" + "raw_json=1", DataHeaders(s), "")
  {
    SubredditParses(subreddit, sort);
    NilParamsURL(SubredditEndpoint(subreddit, sort));
  }

  lemma GetPostSends(codec: Json, s: Session, subreddit: string, postID: string, outs: seq<Outcome>)
    requires s.authenticated && s.accessToken != ""
    requires PlainSegment(subreddit) && PlainSegment(postID)
    ensures var r := GetPost(codec, s, subreddit, postID, outs);
      && 1 <= |r.sent| <= 2
      && r.sent[0] == Sent("GET", ApiOrigin + PostEndpoint(subreddit, postID) + "?" + "raw_json=1", DataHeaders(s), "")
  {
    PostParses(subreddit, postID);
    NilParamsURL(PostEndpoint(subreddit, postID));
  }

  lemma GetUserSends(codec: Json, s: Session, username: string, outs: seq<Outcome>)
    requires s.authenticated && s.accessToken != ""
    requires PlainSegment(username)
    ensures var r := GetUser(codec, s, username, outs);
      && 1 <= |r.sent| <= 2
      && r.sent[0] == Sent("GET", ApiOrigin + UserEndpoint(username) + "?" + "raw_json=1", DataHeaders(s), "")
  {
    UserParses(username);
    NilParamsURL(UserEndpoint(username));
  }

  lemma SearchSends(codec: Json, s: Session, query: string, sort: string, timeframe: string, outs: seq<Outcome>)
    requires s.authenticated && s.accessToken != ""
    ensures var r := Search(codec, s, query, sort, timeframe, outs);
      && 1 <= |r.sent| <= 2
      && r.sent[0] == Sent("GET", ApiOrigin + SearchEndpoint + "?" +
                                  ("q=" + QueryEscape(query) + "&raw_json=1&sort=" + QueryEscape(sort) + "&t=" + QueryEscape(timeframe)),
                           DataHeaders(s), "")
  {
    UserSearchLiteralsPlain();
    PlainEndpointParses(SearchEndpoint);
    SearchQuery(query, sort, timeframe);
  }
}
