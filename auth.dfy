/**
 * The bearer-token guard. The token is the second space-separated field of
 * the Authorization header (the scheme word is not checked against
 * "Bearer"); the JWT verification is an abstract function parameter.
 */
module Auth {
  import opened Wrappers
  import opened Text
  import opened Http

  /** The decoded token payload, as far as the guards read it. */
  datatype Claims = Claims(id: Option<int>, email: Option<string>, role: Option<string>)

  /** What `jwt.verify` reports to its callback. */
  datatype Verification = Decoded(payload: Claims) | VerifyError(reason: string)

  const NoTokenMessage := "Access denied. No token provided."
  const BadTokenMessage := "Invalid or expired token."

  /**
   * `authHeader && authHeader.split(' ')[1]`, keeping only a truthy result:
   * a token is never empty and never holds a space.
   */
  function ExtractToken(header: Option<string>): (token: Option<string>)
    ensures token.Some? ==> header.Some? && token.value != "" && ' ' !in token.value
  {
    match header
    case None => None
    case Some(h) =>
      var fields := Split(h, ' ');
      SplitJoin(h, ' ');
      if |fields| >= 2 && fields[1] != "" then Some(fields[1]) else None
  }

  /**
   * Whatever the first word, a non-empty second word is taken as the token,
   * and anything after a further space is ignored.
   */
  lemma {:induction false} SecondWordIsToken(scheme: string, token: string, rest: string)
    requires ' ' !in scheme && ' ' !in token && token != ""
    requires rest == "" || rest[0] == ' '
    ensures ExtractToken(Some(scheme + " " + token + rest)) == Some(token)
  {
    assert scheme + " " + token + rest == scheme + [' '] + (token + rest);
    SplitField(scheme, ' ', token + rest);
    if rest == "" {
      assert token + rest == token;
      SplitWithoutSeparator(token, ' ');
    } else {
      assert token + rest == token + [' '] + rest[1..];
      SplitField(token, ' ', rest[1..]);
    }
  }

  /** A header without a second word, or with an empty one ("Bearer "), yields no token. */
  lemma NoSecondWordNoToken(scheme: string)
    requires ' ' !in scheme
    ensures ExtractToken(Some(scheme)) == None
    ensures ExtractToken(Some(scheme + " ")) == None
  {
    SplitWithoutSeparator(scheme, ' ');
    SplitField(scheme, ' ', "");
    assert scheme + " " == scheme + [' '] + "";
  }

  /** Conversely, every extracted token is the second word of its header. */
  lemma TokenIsSecondWord(h: string) returns (scheme: string, rest: string)
    requires ExtractToken(Some(h)).Some?
    ensures ' ' !in scheme && (rest == "" || rest[0] == ' ')
    ensures h == scheme + " " + ExtractToken(Some(h)).value + rest
  {
    var fields := Split(h, ' ');
    SplitJoin(h, ' ');
    scheme := fields[0];
    if |fields| == 2 {
      rest := "";
      assert Join(fields[1..], ' ') == fields[1];
    } else {
      rest := " " + Join(fields[2..], ' ');
      assert fields[1..][1..] == fields[2..];
    }
  }

  /** An incoming request: its Authorization header and the `req.user` slot. */
  class Request {
    const authorization: Option<string>
    var user: Option<Claims>

    constructor (authorization: Option<string>)
      ensures this.authorization == authorization && user.None?
    {
      this.authorization := authorization;
      user := None;
    }
  }

  /**
   * `authenticateToken`: 401 without a token (the verifier is not called),
   * 401 when the verifier rejects the token, and otherwise `req.user` is the
   * decoded payload and `next()` is called. `checked` is the token handed to
   * the verifier, if any.
   */
  method AuthenticateToken(req: Request, verify: string -> Verification) returns (outcome: Outcome, checked: Option<string>)
    modifies req
    ensures ExtractToken(req.authorization).None? ==>
      outcome == Respond(401, NoTokenMessage) && checked.None? && req.user == old(req.user)
    ensures ExtractToken(req.authorization).Some? ==>
      var token := ExtractToken(req.authorization).value;
      && checked == Some(token)
      && match verify(token)
         case VerifyError(_) => outcome == Respond(401, BadTokenMessage) && req.user == old(req.user)
         case Decoded(payload) => outcome == Next && req.user == Some(payload)
  {
    var token := ExtractToken(req.authorization);
    if token.None? {
      return Respond(401, NoTokenMessage), None;
    }
    checked := token;
    match verify(token.value)
    case VerifyError(_) =>
      outcome := Respond(401, BadTokenMessage);
    case Decoded(payload) =>
      req.user := Some(payload);
      outcome := Next;
  }
}
