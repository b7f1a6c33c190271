/** `protectRoute`, the server middleware that authenticates a request
    from its `Authorization` header before a protected route runs. Token
    verification and the user lookup are the parameters `verify` (the user
    id a token carries, or `None` when verification throws) and
    `findUser`. */
module AuthMiddleware {
  import opened Common

  const Unauthorized := "Unauthorized"
  const TokenNotValid := "Token is not valid"

  /** The value of `header.split(" ")[1]`: the call throws when there is no
      header, and the index is `undefined` when there is no second field. */
  datatype TokenField = Throws | Absent | Present(token: string)

  function ExtractToken(header: Option<string>): (f: TokenField)
    ensures header.None? <==> f.Throws?
    ensures f.Present? ==> ' ' !in f.token
  {
    match header
    case None => Throws
    case Some(h) =>
      var parts := Split(h, ' ');
      if |parts| >= 2 then Present(parts[1]) else Absent
  }

  /** The token is the second space-separated field, whatever the first one
      says: it starts right after the first space and runs to the next
      space or the end; with no space at all there is no token. */
  lemma ExtractTokenIsSecondField(h: string)
    ensures ExtractToken(Some(h)).Absent? <==> ' ' !in h
    ensures ExtractToken(Some(h)).Present? ==>
      var t := ExtractToken(Some(h)).token;
      var i := |Split(h, ' ')[0]|;
      && i + 1 + |t| <= |h|
      && ' ' !in h[..i] && h[i] == ' '
      && t == h[i + 1..i + 1 + |t|]
      && (i + 1 + |t| < |h| ==> h[i + 1 + |t|] == ' ')
  {
    SplitHasSecondField(h, ' ');
    if ' ' in h {
      SplitAfterFirst(h, ' ');
      FirstField(h, ' ');
      var i := |Split(h, ' ')[0]|;
      FirstField(h[i + 1..], ' ');
    }
  }

  /** The scheme word is not checked, and a missing or empty second field
      gives no token. */
  lemma ExtractTokenExamples()
    ensures ExtractToken(Some("Basic abc")) == Present("abc")
    ensures ExtractToken(Some("Bearer")) == Absent
    ensures ExtractToken(Some("Bearer ")) == Present("")
    ensures ExtractToken(None) == Throws
  {
    SplitJoin(["Basic", "abc"], ' ');
    assert Join(["Basic", "abc"], ' ') == "Basic abc";
    SplitJoin(["Bearer", ""], ' ');
    assert Join(["Bearer", ""], ' ') == "Bearer ";
    SplitJoin(["Bearer"], ' ');
  }

  /** What the middleware does with a request. */
  datatype Outcome = Reject(status: int, message: string) | Next(user: User)

  /** The decision `protectRoute` reaches, as one expression. */
  function Decide(header: Option<string>, verify: string -> Option<string>, findUser: string -> Option<User>): (o: Outcome)
    ensures o.Reject? ==> o.status == 401
    ensures o.Reject? ==> o.message == Unauthorized || o.message == TokenNotValid
  {
    match ExtractToken(header)
    case Throws => Reject(401, TokenNotValid)
    case Absent => Reject(401, Unauthorized)
    case Present(token) =>
      if token == "" then Reject(401, Unauthorized)
      else match verify(token)
        case None => Reject(401, TokenNotValid)
        case Some(id) =>
          match findUser(id)
          case None => Reject(401, Unauthorized)
          case Some(user) => Next(user)
  }

  /** The request reaches the route exactly when the token is non-empty,
      verifies, and names a user who exists; the route then sees that
      user. */
  lemma NextOnlyForResolvedUser(header: Option<string>, verify: string -> Option<string>, findUser: string -> Option<User>)
    ensures Decide(header, verify, findUser).Next? <==>
      var f := ExtractToken(header);
      f.Present? && f.token != "" && verify(f.token).Some? && findUser(verify(f.token).value).Some?
    ensures Decide(header, verify, findUser).Next? ==>
      Decide(header, verify, findUser).user == findUser(verify(ExtractToken(header).token).value).value
  {
  }

  /** Each rejection, with the message it carries. */
  lemma RejectionReasons(header: Option<string>, verify: string -> Option<string>, findUser: string -> Option<User>)
    ensures header.None? ==> Decide(header, verify, findUser) == Reject(401, TokenNotValid)
    ensures header.Some? && !TruthyPresent(ExtractToken(header)) ==>
      Decide(header, verify, findUser) == Reject(401, Unauthorized)
    ensures TruthyPresent(ExtractToken(header)) && verify(ExtractToken(header).token).None? ==>
      Decide(header, verify, findUser) == Reject(401, TokenNotValid)
    ensures (TruthyPresent(ExtractToken(header)) && verify(ExtractToken(header).token).Some?
             && findUser(verify(ExtractToken(header).token).value).None?) ==>
      Decide(header, verify, findUser) == Reject(401, Unauthorized)
  {
  }

  /** The extracted token is truthy. */
  predicate TruthyPresent(f: TokenField)
  {
    f.Present? && TruthyString(Some(f.token))
  }

  /** The incoming request: its header and the `user` field the middleware
      fills in. */
  class Request {
    const authorization: Option<string>
    var user: Option<User>

    constructor (authorization: Option<string>)
      ensures this.authorization == authorization && user == None
    {
      this.authorization := authorization;
      user := None;
    }
  }

  /** What the middleware returns: a response sent, or control passed on
      with `next()`. */
  datatype Reply = Respond(status: int, message: string) | CallNext

  /** `protectRoute` step by step: extract, check, verify, look up, then
      set `req.user` and call `next`. */
  method ProtectRoute(req: Request, verify: string -> Option<string>, findUser: string -> Option<User>)
    returns (reply: Reply)
    modifies req
    ensures var o := Decide(req.authorization, verify, findUser);
      && (o.Reject? ==> reply == Respond(o.status, o.message) && req.user == old(req.user))
      && (o.Next? ==> reply == CallNext && req.user == Some(o.user))
  {
    var field := ExtractToken(req.authorization);
    if field.Throws? {
      return Respond(401, TokenNotValid);
    }
    if field.Absent? || field.token == "" {
      return Respond(401, Unauthorized);
    }
    var decoded := verify(field.token);
    if decoded.None? {
      return Respond(401, TokenNotValid);
    }
    var user := findUser(decoded.value);
    if user.None? {
      return Respond(401, Unauthorized);
    }
    req.user := user;
    reply := CallNext;
  }
}
