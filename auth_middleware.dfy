/**
 * `AuthMiddleware` of backend/internal/api/auth.go: a chain of guards over
 * the `Authorization` header. The header scheme follows the Bearer scheme of
 * section 2.1 of RFC 6750, more strictly: the scheme name is case-sensitive
 * and the header is split on single spaces. Token validation
 * (`auth.ValidateAccessToken`) is an oracle passed in as a function.
 */
module AuthMiddleware {
  import opened Wrappers
  import Session

  /** What a valid token carries into the request context. */
  datatype Claims = Claims(userId: nat, username: string)

  /** How the middleware ends: `c.JSON(status, error)` then `Abort`, or `c.Set` then `Next`. */
  datatype Verdict =
    | Abort(status: int, message: string)
    | Continue(userId: nat, username: string)

  const Scheme: string := "Bearer"

  /** Go's `strings.Split(s, sep)` for a one-character separator. */
  function Split(s: string, sep: char): (parts: seq<string>)
    ensures |parts| >= 1
    ensures forall i :: 0 <= i < |parts| ==> sep !in parts[i]
    decreases |s|
  {
    if s == [] then [[]]
    else
      var rest := Split(s[1..], sep);
      if s[0] == sep then [[]] + rest else [[s[0]] + rest[0]] + rest[1..]
  }

  /** `strings.Join(parts, sep)`: the inverse of Split. */
  function Join(parts: seq<string>, sep: char): string
    requires |parts| >= 1
    decreases |parts|
  {
    if |parts| == 1 then parts[0] else parts[0] + [sep] + Join(parts[1..], sep)
  }

  /** Joining the pieces of a split gives back the original string. */
  lemma {:induction false} JoinSplit(s: string, sep: char)
    ensures Join(Split(s, sep), sep) == s
    decreases |s|
  {
    if s != [] {
      JoinSplit(s[1..], sep);
      var rest := Split(s[1..], sep);
      if s[0] == sep {
        assert Split(s, sep)[1..] == rest;
      } else if |rest| == 1 {
        assert Join(Split(s, sep), sep) == [s[0]] + rest[0];
      } else {
        assert Split(s, sep)[1..] == rest[1..];
        assert Join(rest, sep) == rest[0] + [sep] + Join(rest[1..], sep);
      }
    }
  }

  /** Splitting a string that holds no separator gives that one string back. */
  lemma {:induction false} SplitNoSeparator(s: string, sep: char)
    requires sep !in s
    ensures Split(s, sep) == [s]
    decreases |s|
  {
    if s != [] {
      SplitNoSeparator(s[1..], sep);
      assert [s[0]] + s[1..] == s;
    }
  }

  /** A separator after a separator-free word ends the first piece. */
  lemma {:induction false} SplitAfterWord(w: string, sep: char, t: string)
    requires sep !in w
    ensures Split(w + [sep] + t, sep) == [w] + Split(t, sep)
    decreases |w|
  {
    if w == [] {
      assert w + [sep] + t == [sep] + t;
      assert (w + [sep] + t)[1..] == t;
    } else {
      assert (w + [sep] + t)[1..] == w[1..] + [sep] + t;
      SplitAfterWord(w[1..], sep, t);
      assert [w[0]] + w[1..] == w;
    }
  }

  /** The header is `"Bearer " + t` for a token t that holds no space. */
  predicate IsBearerHeader(header: string) {
    |header| >= 7 && header[..7] == Session.Bearer("") && ' ' !in header[7..]
  }

  /**
   * The format guard (`len(parts) != 2 || parts[0] != "Bearer"`): Ok with the
   * token `parts[1]`, or the 401 the guard sends.
   */
  function ParseHeader(header: string): Result<string, Verdict> {
    var parts := Split(header, ' ');
    if |parts| != 2 || parts[0] != Scheme then
      Failure(Abort(401, "Invalid authorization header format"))
    else
      Success(parts[1])
  }

  /** The middleware, with `validate` standing for `auth.ValidateAccessToken(_, secret)`. */
  function Authenticate(header: string, validate: string -> Option<Claims>): Verdict {
    if header == "" then
      Abort(401, "Authorization header required")
    else
      match ParseHeader(header)
      case Failure(v) => v
      case Success(token) =>
        match validate(token)
        case None => Abort(401, "Invalid token")
        case Some(claims) => Continue(claims.userId, claims.username)
  }

  /**
   * The format guard accepts exactly the headers `"Bearer " + t` with no
   * space in t, and hands on exactly t.
   */
  lemma ParseHeaderExact(header: string)
    ensures ParseHeader(header).Success? <==> IsBearerHeader(header)
    ensures ParseHeader(header).Success? ==> ParseHeader(header).value == header[7..]
  {
    var parts := Split(header, ' ');
    if |parts| == 2 && parts[0] == Scheme {
      JoinSplit(header, ' ');
      assert header == "Bearer" + [' '] + parts[1];
      assert header[..7] == Session.Bearer("");
      assert header[7..] == parts[1];
    }
    if IsBearerHeader(header) {
      assert header == "Bearer" + [' '] + header[7..];
      SplitAfterWord("Bearer", ' ', header[7..]);
      SplitNoSeparator(header[7..], ' ');
    }
  }

  /**
   * Every outcome of the middleware, stated on the header's characters: an
   * empty header and a malformed one are refused before validation, the
   * validator sees only the token, and only a valid token continues, with
   * the claims' user id and name.
   */
  lemma AuthenticateVerdicts(header: string, validate: string -> Option<Claims>)
    ensures Authenticate(header, validate) ==
      if header == "" then Abort(401, "Authorization header required")
      else if !IsBearerHeader(header) then Abort(401, "Invalid authorization header format")
      else if validate(header[7..]).None? then Abort(401, "Invalid token")
      else Continue(validate(header[7..]).value.userId, validate(header[7..]).value.username)
  {
    ParseHeaderExact(header);
  }

  /** Two validators that agree on the header's token give the same verdict: nothing else is validated. */
  lemma OnlyTokenIsValidated(header: string, v1: string -> Option<Claims>, v2: string -> Option<Claims>)
    requires IsBearerHeader(header) ==> v1(header[7..]) == v2(header[7..])
    ensures Authenticate(header, v1) == Authenticate(header, v2)
  {
    AuthenticateVerdicts(header, v1);
    AuthenticateVerdicts(header, v2);
  }

  /** The header the web client builds parses back to its token exactly when the token has no space. */
  lemma BearerRoundTrip(token: string)
    ensures ParseHeader(Session.Bearer(token)) == Success(token) <==> ' ' !in token
    ensures ' ' in token ==> ParseHeader(Session.Bearer(token)).Failure?
  {
    var h := Session.Bearer(token);
    ParseHeaderExact(h);
    assert h[..7] == Session.Bearer("") && h[7..] == token;
  }

  /** Lower-case "bearer" is refused: the scheme name is matched case-sensitively. */
  lemma SchemeIsCaseSensitive(token: string, validate: string -> Option<Claims>)
    ensures Authenticate("bearer " + token, validate) == Abort(401, "Invalid authorization header format")
  {
    AuthenticateVerdicts("bearer " + token, validate);
    assert ("bearer " + token)[..7] == "bearer ";
  }
}
