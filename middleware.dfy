/** `authMiddleware`: turns the `Authorization` header into either a 401
    reply or an authenticated request whose `user` is set before `next()`
    runs. The header is meant to read `Bearer <token>` (section 2.1 of
    RFC 6750), but only the second space-separated field is looked at; the
    scheme word is never checked. */
module AuthMiddleware {
  import opened Js
  import opened Models

  /** What `jwt.verify(token, secret)` does: return the decoded payload,
      whose `user` is the record that was signed, or throw an error with a
      name (`TokenExpiredError`, `JsonWebTokenError`, ...). */
  datatype Verdict = Decoded(user: User) | Thrown(errorName: string)

  /** A JSON reply `{ msg }` with its status code. */
  datatype Reply = Reply(code: int, msg: string)

  /** The middleware either answers the request itself or hands it on to
      the route with an authenticated user. */
  datatype Outcome = Deny(reply: Reply) | Next(user: User)

  const NoToken := Reply(401, "No token, authorization denied")
  const Expired := Reply(401, "Token has expired")
  const NotValid := Reply(401, "Token is not valid")

  /** The presence test on the header and `authHeader.split(' ')[1]`
      followed by the truthiness test on the result. */
  function ExtractToken(header: Option<string>): (token: Option<string>)
    ensures token.Some? ==> token.value != "" && ' ' !in token.value
  {
    if !TruthyString(header) then None
    else
      var fields := Split(header.value, ' ');
      if |fields| < 2 || fields[1] == "" then None else Some(fields[1])
  }

  /** The decision `authMiddleware` takes, given how verification of the
      extracted token turns out. */
  function Authenticate(header: Option<string>, verify: string -> Verdict): (r: Outcome)
    ensures r.Next? <==> ExtractToken(header).Some? && verify(ExtractToken(header).value).Decoded?
    ensures r.Next? ==> r.user == verify(ExtractToken(header).value).user
    ensures r.Deny? ==> r.reply.code == 401
    ensures ExtractToken(header).None? ==> r == Deny(NoToken)
    ensures (ExtractToken(header).Some? && verify(ExtractToken(header).value) == Thrown("TokenExpiredError"))
            ==> r == Deny(Expired)
    ensures r == Deny(NotValid) <==>
              ExtractToken(header).Some? &&
              var v := verify(ExtractToken(header).value);
              v.Thrown? && v.errorName != "TokenExpiredError"
  {
    match ExtractToken(header)
    case None => Deny(NoToken)
    case Some(token) =>
      match verify(token)
      case Decoded(user) => Next(user)
      case Thrown(name) => if name == "TokenExpiredError" then Deny(Expired) else Deny(NotValid)
  }

  /** A header of the form `<scheme> <token>`, optionally followed by more
      space-separated fields, yields `<token>` whatever the scheme is. */
  lemma TokenIsSecondField(scheme: string, token: string, more: seq<string>)
    requires ' ' !in scheme && ' ' !in token && token != ""
    requires forall i :: 0 <= i < |more| ==> ' ' !in more[i]
    ensures ExtractToken(Some(Join([scheme, token] + more, ' '))) == Some(token)
  {
    var fields := [scheme, token] + more;
    var header := Join(fields, ' ');
    SplitJoin(fields, ' ');
    assert |Split(header, ' ')| >= 2;
    assert header != "";
  }

  /** Every extracted token is the second field of the header. */
  lemma TokenComesFromHeader(header: Option<string>)
    requires ExtractToken(header).Some?
    ensures header.Some?
    ensures exists fields: seq<string> ::
              |fields| >= 2 && (forall i :: 0 <= i < |fields| ==> ' ' !in fields[i]) &&
              fields[1] == ExtractToken(header).value && Join(fields, ' ') == header.value
  {
    var fields := Split(header.value, ' ');
    JoinSplit(header.value, ' ');
    assert Join(fields, ' ') == header.value;
  }

  /** A header holding only a scheme word ("Bearer") has no token. */
  lemma SchemeAloneIsRejected(scheme: string, verify: string -> Verdict)
    requires ' ' !in scheme
    ensures Authenticate(Some(scheme), verify) == Deny(NoToken)
  {
    SplitWithoutSeparator(scheme, ' ');
  }

  /** Two spaces after the scheme ("Bearer  x") make the second field
      empty, which is rejected like a missing token. */
  lemma DoubleSpaceIsRejected(scheme: string, rest: string, verify: string -> Verdict)
    requires ' ' !in scheme
    ensures Authenticate(Some(scheme + [' ', ' '] + rest), verify) == Deny(NoToken)
  {
    var h := scheme + [' ', ' '] + rest;
    assert h == scheme + [' '] + ([' '] + rest);
    SplitAtFirstSeparator(scheme, [' '] + rest, ' ');
    SplitAtFirstSeparator([], rest, ' ');
    assert [] + [' '] + rest == [' '] + rest;
  }

  /** `req`, as far as the middleware touches it. */
  class Request {
    /** `req.header('Authorization')`. */
    const authorization: Option<string>
    /** `req.user`, set by the middleware for the routes behind it. */
    var user: Option<User>
    /** How many times the middleware has called `next()` for this request. */
    var nextCalls: nat

    constructor (authorization: Option<string>)
      ensures this.authorization == authorization && user == None && nextCalls == 0
    {
      this.authorization := authorization;
      user := None;
      nextCalls := 0;
    }
  }

  /** `authMiddleware(req, res, next)`: on acceptance it sets `req.user` to
      the decoded user and calls `next()` once, and sends nothing; on
      rejection it sends the 401 reply and leaves the request alone. */
  method Guard(req: Request, verify: string -> Verdict) returns (sent: Option<Reply>)
    modifies req
    ensures var o := Authenticate(req.authorization, verify);
            if o.Next? then
              sent == None && req.user == Some(o.user) && req.nextCalls == old(req.nextCalls) + 1
            else
              sent == Some(o.reply) && req.user == old(req.user) && req.nextCalls == old(req.nextCalls)
  {
    match Authenticate(req.authorization, verify)
    case Deny(reply) =>
      sent := Some(reply);
    case Next(user) =>
      req.user := Some(user);
      req.nextCalls := req.nextCalls + 1;
      sent := None;
  }
}
