/**
 * A client's life across calls: authentication followed by a data operation.
 * With `Authenticate` as written, a session that starts unauthenticated stays
 * so, and every data operation refuses without sending; with the flag set, as
 * the tests expect, the next listing request carries the new token.
 */
module Lifecycle {
  import opened Wrappers
  import opened Urls
  import opened Http
  import opened Types
  import opened Pipeline
  import Auth
  import Api

  /** After an as-written authentication, each data operation refuses and sends nothing, whether or not it succeeded. */
  lemma AsWrittenAuthLocksOut(codec: Json, s: Session, clientID: string, milli: nat, outs: seq<Outcome>,
                              a: string, b: string, c: string)
    requires milli <= 100_000 && !s.authenticated
    ensures var x := Auth.AuthenticateAsWritten(codec, s, clientID, milli, outs);
      && Api.GetSubreddit(codec, x.after, a, b, x.rest) == Exchange(Failure(NotAuthenticated), x.after, [], x.rest)
      && Api.GetPost(codec, x.after, a, b, x.rest) == Exchange(Failure(NotAuthenticated), x.after, [], x.rest)
      && Api.GetUser(codec, x.after, a, x.rest) == Exchange(Failure(NotAuthenticated), x.after, [], x.rest)
      && Api.Search(codec, x.after, a, b, c, x.rest) == Exchange(Failure(NotAuthenticated), x.after, [], x.rest)
  {
    var x := Auth.AuthenticateAsWritten(codec, s, clientID, milli, outs);
    Api.UnauthenticatedSendsNothing(codec, x.after, a, b, c, x.rest);
  }

  /** The token the example server hands out, and a decoder that reads it from any body. */
  const ExampleToken := OAuthResponse("t0k3n", "bearer", 86400, ["*"])

  function ExampleCodec(): Json
  {
    Json(
      _ => Failure("no restriction"),
      _ => Success(ExampleToken),
      _ => Failure("unused"),
      _ => Failure("unused"),
      _ => Failure("unused"),
      _ => Failure("unused"))
  }

  /** A 200 answer whose body decodes to the example token. */
  const ExampleAnswer := Responded(Response(StatusOK, map[], Stream("{}", "", None, None)))

  /**
   * The lockout on one concrete run: the server accepts the credential, the
   * as-written call reports success and stores the token, and the listing that
   * follows still fails with the authentication error.
   */
  lemma AsWrittenLockoutExample(s: Session, clientID: string)
    requires !s.authenticated
    ensures var x := Auth.AuthenticateAsWritten(ExampleCodec(), s, clientID, 0, [ExampleAnswer]);
      && x.result == Success(())
      && x.after.accessToken == ExampleToken.accessToken
      && Api.GetSubreddit(ExampleCodec(), x.after, "golang", "hot", x.rest).result == Failure(NotAuthenticated)
  {
    var x := Auth.AuthenticateAsWritten(ExampleCodec(), s, clientID, 0, [ExampleAnswer]);
    assert Next([ExampleAnswer]).0 == ExampleAnswer;
    assert Auth.DecodeOAuth(ExampleCodec(), ExampleAnswer.response.body) == Success(ExampleToken);
    AsWrittenAuthLocksOut(ExampleCodec(), s, clientID, 0, [ExampleAnswer], "golang", "hot", "");
  }

  /**
   * After a corrected authentication that yields a non-empty token, a listing
   * over plain segments first sends the listing URL with the session's data
   * headers, which carry that token.
   */
  lemma CorrectedAuthUnlocks(codec: Json, s: Session, clientID: string, milli: nat, outs: seq<Outcome>,
                             subreddit: string, sort: string)
    requires milli <= 100_000
    requires PlainSegment(subreddit) && PlainSegment(sort)
    requires var x := Auth.Authenticate(codec, s, clientID, milli, outs);
      x.result.Success? && x.after.accessToken != ""
    ensures var x := Auth.Authenticate(codec, s, clientID, milli, outs);
      var r := Api.GetSubreddit(codec, x.after, subreddit, sort, x.rest);
      && x.after.accessToken == Auth.DecodeOAuth(codec, Next(outs).0.response.body).value.accessToken
      && 1 <= |r.sent| <= 2
      && r.sent[0] == Sent("GET", ApiOrigin + Api.SubredditEndpoint(subreddit, sort) + "?" + "raw_json=1", DataHeaders(x.after), "")
  {
    var x := Auth.Authenticate(codec, s, clientID, milli, outs);
    Api.GetSubredditSends(codec, x.after, subreddit, sort, x.rest);
  }

  /** A corrected authentication whose server hands back an empty token leaves the next listing refused by the pipeline, unsent. */
  lemma EmptyTokenRefused(codec: Json, s: Session, clientID: string, milli: nat, outs: seq<Outcome>,
                          subreddit: string, sort: string)
    requires milli <= 100_000
    requires var x := Auth.Authenticate(codec, s, clientID, milli, outs);
      x.result.Success? && x.after.accessToken == ""
    ensures var x := Auth.Authenticate(codec, s, clientID, milli, outs);
      var r := Api.GetSubreddit(codec, x.after, subreddit, sort, x.rest);
      r.result == Failure(NoToken) && r.sent == [] && r.after == x.after
  {
  }
}
