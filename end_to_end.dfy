/**
 * The web client and the API server together: the header the request
 * interceptor of frontend/lib/api.ts attaches is the one the server's
 * `AuthMiddleware` parses.
 */
module EndToEnd {
  import opened Wrappers
  import Session
  import P = RefreshProtocol
  import M = AuthMiddleware

  /**
   * A token the HTTP transport carries unchanged: printable ASCII or tab
   * only (the browser sends other control characters, which Go's
   * `textproto` refuses, and characters from U+0080 on as single bytes),
   * and no space or tab at either end (which the browser and Go's
   * `textproto` both strip from a header value).
   */
  predicate HeaderSafe(token: string) {
    && (forall i :: 0 <= i < |token| ==> ' ' <= token[i] <= '~' || token[i] == '\t')
    && (|token| > 0 ==> token[0] !in {' ', '\t'} && token[|token| - 1] !in {' ', '\t'})
  }

  /**
   * A stored access token without spaces that the transport carries
   * unchanged reaches the validator as it is, so the request is judged by
   * that token alone; with no token stored, the request goes out without a
   * header and is refused before validation.
   */
  lemma ClientHeaderAuthenticates(items: Session.Items, req: P.Request, validate: string -> Option<M.Claims>)
    requires req.authorization.None?
    ensures var sent := P.Authorize(items, req);
      var header := if sent.authorization.Some? then sent.authorization.value else "";
      && (Session.Truthy(items, Session.AccessKey) && ' ' !in items[Session.AccessKey] && HeaderSafe(items[Session.AccessKey]) ==>
            M.Authenticate(header, validate) ==
              match validate(items[Session.AccessKey])
              case None => M.Abort(401, "Invalid token")
              case Some(c) => M.Continue(c.userId, c.username))
      && (!Session.Truthy(items, Session.AccessKey) ==>
            M.Authenticate(header, validate) == M.Abort(401, "Authorization header required"))
  {
    if Session.Truthy(items, Session.AccessKey) {
      var token := items[Session.AccessKey];
      if ' ' !in token {
        M.BearerRoundTrip(token);
      }
    }
  }

  /**
   * A token holding a space between other characters is sent as it is, but
   * the server refuses its format.
   */
  lemma SpacedTokenRefused(items: Session.Items, req: P.Request, validate: string -> Option<M.Claims>)
    requires Session.Truthy(items, Session.AccessKey) && ' ' in items[Session.AccessKey]
    requires HeaderSafe(items[Session.AccessKey])
    ensures M.Authenticate(P.Authorize(items, req).authorization.value, validate)
      == M.Abort(401, "Invalid authorization header format")
  {
    var token := items[Session.AccessKey];
    M.BearerRoundTrip(token);
    M.AuthenticateVerdicts(Session.Bearer(token), validate);
  }
}
