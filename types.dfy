/**
 * The client's constants, the shapes it decodes responses into, the JSON
 * decoder it relies on, and the errors it returns.
 */
module Types {
  import opened Wrappers
  import opened Text

  const AndroidClientId := "ohXpoqrZYub1kg"

  /** The consent cookie that opts into quarantined and gated communities, URL-encoded. */
  const ContentWarningAcceptCookie :=
    "_options=%7B%22pref_quarantine_optin%22%3A%20true%2C%20%22pref_gated_sr_optin%22%3A%20true%7D"

  /** The user-agent strings a client picks from. */
  const AndroidVersions: seq<string> := [
    "Reddit/2023.46.0/Android 12",
    "Reddit/2023.45.0/Android 11",
    "Reddit/2023.44.0/Android 13",
    "Reddit/2023.43.0/Android 12",
    "Reddit/2023.42.0/Android 11"
  ]

  datatype OAuthResponse = OAuthResponse(accessToken: string, tokenType: string, expiresIn: int, scope: seq<string>)

  /** A post; its floating-point creation time is not modelled. */
  datatype Post = Post(
    id: string, title: string, author: string, subreddit: string,
    score: int, url: string, selfText: string, numComments: int)

  /** A `{kind, data}` child of a listing. */
  datatype Child<T> = Child(kind: string, data: T)

  datatype SubredditListing = SubredditListing(kind: string, children: seq<Child<Post>>, after: string, before: string)

  /** A post response; each child's `data` is untyped JSON, kept as its text. */
  datatype PostResponse = PostResponse(kind: string, children: seq<Child<string>>)

  /** A user's about page; the floating-point creation time is not modelled. */
  datatype UserResponse = UserResponse(kind: string, name: string, linkKarma: int, commentKarma: int)

  datatype SearchResponse = SearchResponse(kind: string, children: seq<Child<Post>>)

  /** The restriction signal: `{"reason": ...}`. */
  datatype ErrorResponse = ErrorResponse(reason: string)

  /**
   * The JSON decoding the client performs, one decoder per target shape. Each
   * yields the decoded value or the decoder's error text. `oauth` reads the first
   * JSON value from a stream (`json.NewDecoder(..).Decode`); the others are
   * `json.Unmarshal` on a whole body.
   */
  datatype Json = Json(
    errorResponse: string -> Result<ErrorResponse, string>,
    oauth: string -> Result<OAuthResponse, string>,
    listing: string -> Result<SubredditListing, string>,
    post: string -> Result<PostResponse, string>,
    user: string -> Result<UserResponse, string>,
    search: string -> Result<SearchResponse, string>)

  /** Every error the client returns, one constructor per place it is made. */
  datatype Error =
    | NotAuthenticated                        // ErrNotAuthenticated, from the data operations' guard; its text is not in the sources modelled, so the message is the identifier's name
    | NoToken                                 // the request pipeline's own guard on the access token
    | CreateRequest(url: string)              // http.NewRequest refused the URL
    | RequestFailed(cause: string)            // transport error on the first send
    | ReadFailed(cause: string)               // reading or inflating the first body failed
    | BadStatus(status: int, body: string)    // non-200 data response
    | RetryFailed(cause: string)              // transport error on the consent retry
    | RetryReadFailed(cause: string)          // reading the retry's body failed
    | Private                                 // restriction reason "private"
    | UnknownRestriction(reason: string)      // any other restriction reason
    | DecodeFailed(what: string, cause: string)
    | AuthRequestFailed(cause: string)
    | AuthStatus(status: int)
    | AuthDecodeFailed(cause: string)

  /** `err.Error()`: the text each error carries. */
  function Message(e: Error): string
  {
    match e
    case NotAuthenticated => "ErrNotAuthenticated"
    case NoToken => "not authenticated"
    case CreateRequest(url) => "failed to create request: parse " + url
    case RequestFailed(cause) => "API request failed: " + cause
    case ReadFailed(cause) => "failed to read response: " + cause
    case BadStatus(status, body) => "API request failed with status " + IntText(status) + ": " + body
    case RetryFailed(cause) => "retry request failed: " + cause
    case RetryReadFailed(cause) => "failed to read retry response: " + cause
    case Private => "content is private and cannot be accessed"
    case UnknownRestriction(reason) => "unknown content restriction: " + reason
    case DecodeFailed(what, cause) => "failed to decode " + what + ": " + cause
    case AuthRequestFailed(cause) => "authentication request failed: " + cause
    case AuthStatus(status) => "authentication failed with status: " + IntText(status)
    case AuthDecodeFailed(cause) => "failed to decode OAuth response: " + cause
  }

  /** An authentication status error ends in the status code, which reads back as that code. */
  lemma AuthStatusNamesCode(status: nat)
    ensures var m := Message(AuthStatus(status));
      var p := "authentication failed with status: ";
      && m[..|p|] == p
      && (forall i | |p| <= i < |m| :: IsDigit(m[i]))
      && DigitsValue(m[|p|..]) == status
  {
    var p := "authentication failed with status: ";
    var m := Message(AuthStatus(status));
    assert m[|p|..] == NatText(status);
    NatTextRoundTrip(status);
  }
}
