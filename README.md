# grapeddit's Reddit client, modelled in Dafny

This project models the core of `internal/redditclient`. That package is a Go client for Reddit's mobile OAuth API, which it reaches by posing as the official Android app. The model covers four parts:

- **Credential acquisition** (`Authenticate`): one POST to the token endpoint with an HTTP Basic credential for the Android client id, the app's spoof headers and a scope body. Success takes over the token and the `x-reddit-loid`/`x-reddit-session` identifiers; any failure leaves the session as it was.
- **The data-request pipeline** (`makeAPIRequest`): the token guard; the URL with `raw_json=1` always added; the Bearer header set, applied in shuffled order; the rate budget; the shared gzip decompressor; the status check; and the restriction check.
- **The restriction state machine** (`handleRestrictedContent`): `gated` and `quarantined` resend the same request exactly once with the consent cookie; `private` and every other reason are terminal.
- **The four data operations** of `api.go`: a guard on the `authenticated` flag, then the endpoint and parameters, the pipeline, and decoding of the body.

The network is an oracle. A `Transport` (`http.dfy`) holds the outcomes it will hand out, each either a transport error or a `(status, headers, body)` response, and takes one per `Do`. It also keeps a ghost log of every request as it stood when it was sent.

The behaviour is stated twice:
- as pure functions of the session and the outcomes (modules `Pipeline`, `Auth` and `Api`), each returning an `Exchange`: the result, the session afterwards, the requests sent and the outcomes left;
- as the `Client` class, whose methods update its fields in place. Its `Authenticate` follows the corrected `Auth.Authenticate`, which sets the `authenticated` flag; the code as written is `Auth.AuthenticateAsWritten` (see "## Findings").

Each class method is proved to produce exactly the function's result, new state, request log and remaining outcomes. The properties are then proved about the functions.

Supporting modules:
- `Urls`: `url.Values.Encode` with sorted keys and `QueryEscape` over UTF-8; the parse check `http.NewRequest` applies to a URL.
- `Base64`: section 4 of RFC 4648, with its decoder and the round trip.
- `Text`: lexicographic order, path segments and decimal text.
- `Types`: the response shapes, the decoder record and the error kinds.

Points where the code's behaviour is easy to misread:
- The code has two guards: `makeAPIRequest` refuses an empty token (`client.go:248`), and the `api.go` operations refuse when the `authenticated` flag is false (`api.go:13`). Both are modelled: `Error.NoToken` and `Error.NotAuthenticated`.
- A failed decompression is reported through `readResponseBody` as "failed to read response" (`client.go:288-291`), modelled as `Error.ReadFailed`.
- The header order is random. The model shuffles nondeterministically and proves only that the final header map does not depend on the order.
- The three core files do not build together as they stand. Neither `Client` struct (`client.go:41-54`, `types.go:25-36`) declares the `authenticated` field that `api.go` reads, and `api.go:19` calls `makeAPIRequest(ctx, …)` while `client.go:247` declares it without a context. The model merges them into one client: it has the struct's fields plus the `authenticated` flag, and `makeAPIRequest` takes no context.

## Model

| member | source | states |
|---|---|---|
| Pipeline.RateStep | internal/redditclient/client.go:335-346 | one rate signal lowers the budget by exactly one, or refills it to 100 when that would drop under 10; the result is never under 10, and never over 100 from a budget of at most 101 |
| Pipeline.RateAfterValid | internal/redditclient/client.go:335-346 | from a budget within 10..100, any number of signals keeps it within 10..100 |
| Pipeline.RateCycle | internal/redditclient/client.go:335-346 | from the initial 100, after n signals the budget is 100 - (n mod 91): it runs 100 down to 10 and starts over |
| Client.Client.UpdateRateLimit | internal/redditclient/client.go:335-346 | the new budget is one rate step from the old one, and stays within 10..100; the header text passed in is ignored |
| Client.Client.constructor | internal/redditclient/client.go:131-145 | a client starts with the given transport or a fresh one, empty credentials, a budget of 100, no decompressor and the flag false; its device id is a version-4 UUID and its user agent one of the known app versions |
| Client.NewUuidIsV4 | internal/redditclient/client.go:136 | a UUID made from 16 random bytes has 36 characters, dashes at 8, 13, 18 and 23, version digit 4, a variant digit from 8 to b, and lower-case hex elsewhere |
| Client.CollectKeys | internal/redditclient/client.go:204-207 | the collected keys are exactly the map's keys, each once |
| Client.Shuffle | internal/redditclient/client.go:209-211 | the shuffled order is a permutation of the keys |
| Client.ShuffleHeaders | internal/redditclient/client.go:203-216 | afterwards every key of the map is set on the request with the map's value, and every other header keeps its value, whatever order the shuffle chose |
| Pipeline.ReadBody | internal/redditclient/client.go:219-244 | the gzip path is taken iff Content-Encoding contains "gzip"; the plain path returns the raw body and leaves the decompressor alone; a successful gzip read returns the inflated text and leaves a decompressor created; a created decompressor stays created; a read succeeds iff the stream has no read fault and, on the gzip path, a valid header |
| Client.Client.ReadResponseBody | internal/redditclient/client.go:219-244 | the body and the decompressor after the read are those of ReadBody on the old decompressor |
| Pipeline.WithRawJson | internal/redditclient/client.go:252-255 | the parameters always hold raw_json with the single value "1" |
| Pipeline.RequestURL | internal/redditclient/client.go:257-260 | the URL is the API origin, the endpoint, '?' and the encoded parameters, and the encoded query is never empty, so the '?' is always there |
| Urls.EncodeEmpty | internal/redditclient/client.go:259 | the encoded query is empty iff every key holds no value |
| Urls.PairsOfSingles | internal/redditclient/client.go:259 | where every key holds one value, the encoded pairs are the keys beside their values, in the order given |
| Text.SortedElements | internal/redditclient/client.go:259 | the keys of a query are listed once each, in strictly increasing lexicographic order |
| Text.SortedElementsUnique | internal/redditclient/client.go:259 | a strictly sorted listing of a set is the only one, so the key order of a query is determined |
| Urls.QueryEscapeIsQueryText | internal/redditclient/client.go:259 | an escaped value holds only unreserved characters, '+' and '%' |
| Urls.QueryEscapeNoSeparators | internal/redditclient/client.go:259 | an escaped value never holds the '=' or '&' that separate a query's fields |
| Urls.QueryEscapePlain | internal/redditclient/client.go:259 | a value made only of unreserved characters is left as it is |
| Urls.Utf8Append | internal/redditclient/auth.go:15 | the UTF-8 bytes of a concatenation are the bytes of its parts, concatenated |
| Urls.PlainEndpointParses | internal/redditclient/client.go:262-265 | an endpoint that begins with '/' and holds no '%', '?', '#' or control character always makes a request |
| Urls.BadEscapeRefused | internal/redditclient/client.go:262-265 | an endpoint path holding a '%' not followed by a hex digit makes no request |
| Urls.Cut | internal/redditclient/client.go:262 | the text before the first separator, the separator and the text after it make up the input again, and the part before holds no separator |
| Client.Client.NewDataRequest | internal/redditclient/client.go:252-275 | the request is refused iff the URL does not parse, with the URL in the error; otherwise it is a fresh GET to the pipeline's URL carrying exactly the five data headers taken from the session |
| Pipeline.WithConsent | internal/redditclient/client.go:311 | the retry has the same verb, URL and body, the consent cookie under Cookie, and every other header unchanged |
| Pipeline.RestrictionOf | internal/redditclient/client.go:298-299 | a restriction is reported iff the body decodes as an error response with a non-empty reason, and the reported restriction is that reason |
| Pipeline.HandleRestricted | internal/redditclient/client.go:307-332 | a retry is sent iff the reason is gated or quarantined, and then exactly once, with the consent cookie; private fails as private and any other reason as unknown, sending nothing and changing nothing; credentials and budget never change |
| Pipeline.RetryOutcome | internal/redditclient/client.go:313-324 | for a recoverable reason, a transport error on the retry fails as a retry failure with the session unchanged; otherwise the retry's body is read with the shared decompressor, a read failure fails as a retry read failure, and a readable body is the result |
| Client.Client.HandleRestrictedContent | internal/redditclient/client.go:307-332 | result, session, request log and remaining outcomes are those of HandleRestricted; the original request gains the consent cookie iff the reason is recoverable |
| Pipeline.Receive | internal/redditclient/client.go:283-303 | once a response is in, one or two requests have been sent, the first being the original and a second only as its consent retry; the budget steps iff the rate header is non-empty; credentials are untouched |
| Client.Client.HandleResponse | internal/redditclient/client.go:283-303 | result, session, request log and remaining outcomes are those of Receive; the request gains the consent cookie iff a retry was sent; the rate budget must be within bounds |
| Pipeline.Dispatch | internal/redditclient/client.go:277-303 | sending consumes one outcome per request sent, one or two; the second is the consent retry of the first; credentials are untouched and the budget steps at most once |
| Client.Client.Send | internal/redditclient/client.go:277-303 | result, session, request log and remaining outcomes are those of Dispatch; the request gains the consent cookie iff a retry was sent |
| Pipeline.Fetch | internal/redditclient/client.go:247-304 | nothing is sent iff the token is empty or the URL does not parse, and then the session is unchanged; with an empty token the error is the token error; otherwise the first request is the data request; at most two are sent, the second being the consent retry; credentials never change; a valid budget stays valid |
| Client.Client.MakeAPIRequest | internal/redditclient/client.go:247-304 | result, session, request log and remaining outcomes are those of Fetch; the rate budget stays within 10..100 |
| Client.Client.SendData | internal/redditclient/client.go:252-304 | with a token held, result, session, request log and remaining outcomes are those of Fetch |
| Pipeline.FetchResponded | internal/redditclient/client.go:277-303 | once the data request is sent and answered, the call is decided by the response alone |
| Pipeline.TransportErrorChangesNothing | internal/redditclient/client.go:277-280 | a transport error fails the call with that error after one request, with the session, budget and decompressor unchanged |
| Pipeline.RateSignalConsumedFirst | internal/redditclient/client.go:284-286 | whatever the status and body, the budget steps iff the response's rate header is non-empty |
| Pipeline.ReadFailureFails | internal/redditclient/client.go:288-291 | a body that cannot be read fails with the reader's error after one request |
| Pipeline.BadStatusFails | internal/redditclient/client.go:293-295 | a readable response with a status other than 200 fails with that status and the body, after one request |
| Pipeline.PlainOkReturnsBody | internal/redditclient/client.go:298-303 | a 200 body with no restriction is returned as read, after one request |
| Pipeline.RetryIffRecoverable | internal/redditclient/client.go:299-301 | a readable 200 response leads to a second request iff it carries the reason gated or quarantined |
| Pipeline.ReceiveRetryIffRecoverable | internal/redditclient/client.go:299-301 | the same iff stated on the answered response |
| Pipeline.TerminalRestrictions | internal/redditclient/client.go:326-330 | private and unknown reasons end the call after the first request, with their own errors |
| Pipeline.RetryBodyReturnedAsIs | internal/redditclient/client.go:313-324 | the retry's body is the result as read, whatever its status or content; only a read failure of the retry fails; the budget reflects only the first response's rate header |
| Base64.Encode | internal/redditclient/auth.go:15 | the encoding has four characters per started group of three bytes |
| Base64.DigitRoundTrip | internal/redditclient/auth.go:15 | each of the 64 digits reads back as its value |
| Base64.DecodeEncode | internal/redditclient/auth.go:15 | decoding the encoding of any bytes gives them back |
| Auth.UserPassDecodes | internal/redditclient/auth.go:15 | for an ASCII user id without ':', the credential decodes to the id's bytes followed by one ':' and nothing more: the password is empty, as section 2 of RFC 7617 reads it |
| Auth.BasicCredentialDecodes | internal/redditclient/auth.go:15 | the Android client id's credential decodes to that id, a ':' and an empty password |
| Auth.QosText | internal/redditclient/auth.go:39 | the qos header has three decimals after a point |
| Auth.QosTextReadsBack | internal/redditclient/auth.go:39 | the qos text is all digits around its point, and reads back as the thousandths it was made from |
| Text.ThreeDigitsValue | internal/redditclient/auth.go:39 | three digits, hundreds first, read back as the number below 1000 they spell |
| Text.NatTextRoundTrip | internal/redditclient/auth.go:52 | the decimal text of a number reads back as that number |
| Types.AuthStatusNamesCode | internal/redditclient/auth.go:52 | the error for a bad authentication status ends in the status code's digits, which read back as that code |
| Auth.AuthHeadersCarry | internal/redditclient/auth.go:31-41 | the authentication request carries "Basic " and the base64 of the client id and ':', the session's user agent, its device id under both device headers, and the qos text |
| Auth.SettleAsWritten | internal/redditclient/auth.go:45-64 | as written: success iff a 200 response decodes; a failure leaves the session unchanged; a success takes over the token, loid and session identifier and changes nothing else; no outcome changes the authentication flag |
| Auth.Settle | internal/redditclient/auth.go:45-64 | success iff a 200 response decodes; on failure the session is unchanged; on success the token, loid and session identifier are taken over, the flag is set, and nothing else changes |
| Auth.AuthenticateAsWritten | internal/redditclient/auth.go:12-65 | as written: exactly one request, the authentication request, and one outcome consumed; success iff a 200 response decodes; a failure changes nothing; a success takes over the token and the two identifiers and changes nothing else; the flag is never changed |
| Auth.Authenticate | internal/redditclient/auth.go:12-65 | exactly one request, the authentication request, and one outcome consumed; success iff a 200 response decodes; a failure changes nothing; a success takes over the token and the two identifiers from the body and the response headers, sets the flag and changes nothing else |
| Auth.AuthTransportErrorChangesNothing | internal/redditclient/auth.go:45-48 | a transport error fails with that error, after one request, with the session unchanged |
| Auth.AuthBadStatusChangesNothing | internal/redditclient/auth.go:51-53 | a status other than 200 fails naming that status, with the session unchanged |
| Client.Client.NewAuthRequest | internal/redditclient/auth.go:15-43 | the request is a fresh POST of the scope body to the token endpoint, carrying exactly the authentication headers |
| Client.Client.Adopt | internal/redditclient/auth.go:45-64 | the result and the new session are those of Settle; the rate budget stays within 10..100 |
| Client.Client.Authenticate | internal/redditclient/auth.go:12-65 | result, session, request log and remaining outcomes are those of Authenticate for the qos value drawn, which lies in 0..100000 |
| Api.Call | internal/redditclient/api.go:12-31 | unauthenticated, the call fails with the flag error, sends nothing and changes nothing; otherwise the pipeline's error comes back unchanged, a decode failure names what failed, and success iff the pipeline and the decoder both succeed |
| Api.UnauthenticatedSendsNothing | internal/redditclient/api.go:13-15 | each of the four operations, unauthenticated, fails with the flag error, sends nothing and leaves the session as it was |
| Api.SubredditPath | internal/redditclient/api.go:17 | the listing path's segments are r, the subreddit, and the sort with ".json" |
| Api.SubredditParses | internal/redditclient/api.go:17 | a listing over plain segments always makes a request |
| Api.PostPath | internal/redditclient/api.go:39 | the post path's segments are r, the subreddit, comments, and the post id with ".json" |
| Api.PostParses | internal/redditclient/api.go:39 | a post over plain segments always makes a request |
| Api.UserPath | internal/redditclient/api.go:60 | the user path's segments are user, the name, and about.json |
| Api.UserParses | internal/redditclient/api.go:60 | a user over a plain name always makes a request |
| Api.RawJsonEncode | internal/redditclient/client.go:252-259 | the parameters of a call with nil params encode to exactly raw_json=1 |
| Api.NilParamsURL | internal/redditclient/api.go:19 | a call with nil params requests the origin, the endpoint and "?raw_json=1" |
| Api.SearchKeysSorted | internal/redditclient/api.go:81-85 | a search's keys go out in the order q, raw_json, sort, t |
| Api.SearchPairs | internal/redditclient/api.go:81-85 | each search key carries its one value |
| Api.SearchJoin | internal/redditclient/api.go:81-87 | the search query is q, raw_json, sort and t, each value escaped, joined by '&' |
| Api.SearchQuery | internal/redditclient/api.go:81-87 | the search query is exactly "q=" + escaped query + "&raw_json=1&sort=" + escaped sort + "&t=" + escaped timeframe |
| Api.GetSubredditSends | internal/redditclient/api.go:17-19 | with the flag and a token, a listing sends one or two requests, the first a GET of the listing URL with the session's data headers |
| Api.GetPostSends | internal/redditclient/api.go:39-41 | the same for a post and its URL |
| Api.GetUserSends | internal/redditclient/api.go:60-62 | the same for a user and its URL |
| Api.SearchSends | internal/redditclient/api.go:81-87 | with the flag and a token, a search sends one or two requests, the first a GET of the search URL with the escaped query |
| Client.Client.GetSubreddit | internal/redditclient/api.go:12-31 | result, session, request log and remaining outcomes are those of the listing operation |
| Client.Client.GetPost | internal/redditclient/api.go:34-52 | the same for the post operation |
| Client.Client.GetUser | internal/redditclient/api.go:55-73 | the same for the user operation |
| Client.Client.Search | internal/redditclient/api.go:76-98 | the same for the search operation |
| Lifecycle.AsWrittenAuthLocksOut | internal/redditclient/auth.go:60-64 | after an authentication as written, from an unauthenticated session, every data operation fails with the flag error and sends nothing, whether or not the authentication succeeded |
| Lifecycle.AsWrittenLockoutExample | internal/redditclient/auth.go:60-64 | on a concrete run the as-written authentication succeeds and stores the token, and the listing that follows still fails with the flag error |
| Lifecycle.CorrectedAuthUnlocks | internal/redditclient/api.go:13-19 | after a successful authentication yielding a non-empty token, a listing sends its URL with the data headers of the new session, whose token is the one the server returned |
| Lifecycle.EmptyTokenRefused | internal/redditclient/client.go:248-250 | a successful authentication that yields an empty token leaves the next listing refused with the token error, unsent |

## Left out

- The transport, `context` cancellation and deadlines are replaced by the outcome oracle. A cancelled or timed-out call is a `Failed` outcome.
- The mutexes `rateLimitLock` and `gzipMutex` are left out: the model is sequential.
- gzip inflation is a library call. A body carries its inflated text and the faults creating or resetting the reader can report; only whether the shared decompressor exists is modelled.
- JSON decoding is a library call. It is the decoder record `Types.Json`, a parameter of every operation. The JSON marshalling of the scope body is the constant `Auth.AuthBody`.
- Header-name canonicalisation (`textproto`) is not modelled: header names are kept as written.
- `url.Parse` is modelled only as far as `http.NewRequest` refuses a data URL: control characters and malformed escapes. The authentication URL is a constant that parses.
- Randomness is a nondeterministic choice: the shuffle, the user-agent pick, the UUID bytes and the qos draw. The qos draw is its value rounded to thousandths, `0..100000`. That headers come out in a different order on different calls is not provable and is not claimed.
- The floating-point `created_utc` fields, `log.Printf`, the error texts' formatting beyond `Types.Message`, and `main.go` are left out.
- Comment trees, `GetComments` and `GetMoreComments` are referenced only by tests and are not part of this model.
- The second copies of `GetSubreddit`, `GetPost`, `GetUser`, `Search` and `Authenticate` in `client.go:147-200` and `client.go:348-419` are left out. The model follows `api.go`, which adds the flag guard, and `auth.go`, which is identical to `client.go:148-200`.
- Client.Client.MakeAPIRequest: the Go code sets `raw_json` in the caller's own params map. The model computes a new map, so that mutation is not modelled. No operation reuses its params after the call.
- Client.Client.MakeAPIRequest: its steps are split into the helper methods `SendData`, `NewDataRequest`, `Send` and `HandleResponse`, each proved against its own function.
- Client.Client.Authenticate: the class follows the corrected `Auth.Authenticate`, which also sets the `authenticated` flag. The code as written, which leaves the flag alone, is `Auth.AuthenticateAsWritten` (see "## Findings"). The `authenticated` field itself is the merge described above: no `Client` struct in the source declares it.
- Pipeline.Fetch: the parse check `Urls.EndpointParses` matches `url.Parse` only for an endpoint that is empty or begins with '/'. Text before the first '/' joins the host `oauth.reddit.com`, and Go's host and port checks on that text are not modelled. For example, ":x" makes an invalid port and " x" an invalid host character, yet the model accepts both. So `Pipeline.Fetch`'s "nothing is sent iff the token is empty or the URL does not parse" holds only for such endpoints. Every endpoint `api.go` builds begins with '/'.
- Pipeline.WithRawJson: the contract states only that `raw_json=1` is present. That the other parameters are kept is visible in the body, but is not stated.
- Client.Client.Authenticate: the Android client id is a package constant in the source. The class keeps it in a `clientID` field that the constructor sets to that constant. The `Auth` functions take it as a parameter, so that proofs about a call need not compute its base64 encoding.
- The json.Marshal error branch of `Authenticate` (`auth.go:20-23`) and its `http.NewRequest` error branch (`auth.go:25-28`) cannot occur for the constant body and URL, so they are left out.
- An exhausted oracle answers `Do` with a transport error. This is a modelling artefact: the source never runs out of network.

## Findings

| source | as written | input that shows it | evidently intended | confidence | as-written member | corrected member |
|---|---|---|---|---|---|---|
| internal/redditclient/auth.go:60-64 | a successful authentication stores the token, loid and session identifier but never sets the `authenticated` flag that every operation in `api.go` checks first | a client that has not authenticated gets a 200 answer that decodes to a token; the next `GetSubreddit` still fails with the not-authenticated error and sends nothing (Lifecycle.AsWrittenLockoutExample, Lifecycle.AsWrittenAuthLocksOut) | success also sets the flag, as `auth_test.go:48` expects; the next listing then goes out with the new Bearer token (Lifecycle.CorrectedAuthUnlocks) | not executed | Auth.AuthenticateAsWritten | Auth.Authenticate |
