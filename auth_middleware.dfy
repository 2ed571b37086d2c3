/** middleware/authMiddleware.js: the request guard. The decision is the function `Authenticate`;
    the guard itself writes the principal into the request when the decision lets it through. The
    secret and the clock are parameters, and the header's text is read into a token by `decode`. */
module AuthMiddleware {
  import opened Common
  import opened Text
  import opened RoleModel
  import opened UserModel
  import opened Jwt
  import opened Store
  import opened AuthService

  /** What the guard puts on the request: the user, and its role populated (empty when the role
      is soft-deleted). */
  datatype Principal = Principal(id: Id, user: User, role: Option<Doc<Role>>)

  datatype Outcome = Proceed(principal: Principal) | Reject(error: Error)

  const BearerPrefix := "Bearer "

  /** `req.header('Authorization')?.replace('Bearer ', '')`: the first occurrence of the prefix,
      wherever it is, is removed; a header without it is taken whole. */
  function BearerToken(header: Option<string>): (t: Option<string>)
    ensures header.None? <==> t.None?
    ensures header.Some? && |BearerPrefix| <= |header.value| && header.value[..|BearerPrefix|] == BearerPrefix ==>
      t == Some(header.value[|BearerPrefix|..])
    ensures header.Some? && !Contains(header.value, BearerPrefix) ==> t == header
  {
    match header
    case None => None
    case Some(h) =>
      if |BearerPrefix| <= |h| && h[..|BearerPrefix|] == BearerPrefix then
        ReplaceFirstOfPrefix(h, BearerPrefix, "");
        assert "" + h[|BearerPrefix|..] == h[|BearerPrefix|..];
        Some(ReplaceFirst(h, BearerPrefix, ""))
      else
        Some(ReplaceFirst(h, BearerPrefix, ""))
  }

  /** The role `populate('role')` gives a user: empty when the role is soft-deleted. */
  function PopulatedRole(roles: map<Id, Role>, u: User): (r: Option<Doc<Role>>)
    ensures r.Some? <==> u.role in roles && Visible(roles[u.role])
    ensures r.Some? ==> r.value == Doc(u.role, roles[u.role])
  {
    if u.role in roles && Visible(roles[u.role]) then Some(Doc(u.role, roles[u.role])) else None
  }

  /** The guard's decision. The token's `type` claim is never read. */
  function Authenticate(header: Option<string>, users: map<Id, User>, roles: map<Id, Role>, decode: string -> Token, cfg: Config, now: int)
    : (o: Outcome)
    ensures !Truthy(BearerToken(header)) ==> o == Reject(HttpError(401, "Access token required"))
    ensures Truthy(BearerToken(header)) ==>
      var v := Verify(decode(BearerToken(header).value), cfg.secret, now);
      && (v.Malformed? ==> o == Reject(HttpError(401, "Invalid token")))
      && (v.Expired? ==> o == Reject(HttpError(401, "Token expired")))
      && (v.Verified? && v.claims.userId !in users ==> o == Reject(HttpError(401, "User not found")))
      && (v.Verified? && v.claims.userId in users && !users[v.claims.userId].isActive ==>
            o == Reject(HttpError(401, "User account is inactive")))
    ensures o.Proceed? <==>
      && Truthy(BearerToken(header))
      && var v := Verify(decode(BearerToken(header).value), cfg.secret, now);
      && v.Verified? && v.claims.userId in users && users[v.claims.userId].isActive
    ensures o.Proceed? ==>
      && var id := decode(BearerToken(header).value).claims.userId;
      && o.principal == Principal(id, users[id], PopulatedRole(roles, users[id]))
    ensures o.Reject? ==> o.error.HttpError? && o.error.status == 401
  {
    var token := BearerToken(header);
    if !Truthy(token) then Reject(HttpError(401, "Access token required"))
    else match Verify(decode(token.value), cfg.secret, now)
      case Malformed => Reject(HttpError(401, "Invalid token"))
      case Expired => Reject(HttpError(401, "Token expired"))
      case Verified(c) =>
        if c.userId !in users then Reject(HttpError(401, "User not found"))
        else if !users[c.userId].isActive then Reject(HttpError(401, "User account is inactive"))
        else Proceed(Principal(c.userId, users[c.userId], PopulatedRole(roles, users[c.userId])))
  }

  /** Either token of a pair passes the guard while it is in its lifetime and its user is stored
      and active: the guard does not tell a refresh token from an access token. */
  lemma EitherTokenPassesGuard(users: map<Id, User>, roles: map<Id, Role>, userId: Id, decode: string -> Token, text: string, cfg: Config, issued: int, now: int)
    requires text != "" && userId in users && users[userId].isActive && issued <= now
    ensures var p := GenerateTokens(userId, cfg, issued);
      && (decode(text) == p.refreshToken && now < issued + RefreshLifetime ==>
            Authenticate(Some(BearerPrefix + text), users, roles, decode, cfg, now).Proceed?)
      && (decode(text) == p.accessToken && now < issued + AccessLifetime(cfg) ==>
            Authenticate(Some(BearerPrefix + text), users, roles, decode, cfg, now).Proceed?)
  {
    var h := BearerPrefix + text;
    assert h[..|BearerPrefix|] == BearerPrefix;
    assert h[|BearerPrefix|..] == text;
    GeneratedTokensVerify(userId, cfg, issued, now);
  }

  /** A header that lacks the `Bearer ` prefix is used as the token as it is. */
  lemma BareTokenIsUsedWhole(text: string)
    requires !Contains(text, BearerPrefix)
    ensures BearerToken(Some(text)) == Some(text)
  {
  }

  /** The parts of a request the guard reads and writes. */
  class Request {
    var authorization: Option<string>
    var user: Option<Principal>

    constructor (authorization: Option<string>)
      ensures this.authorization == authorization && user == None
    {
      this.authorization := authorization;
      user := None;
    }
  }

  /** `authMiddleware(req, res, next)`: on success `req.user` is set and `next()` is called with
      no error; otherwise the request is left as it was and `next` gets the error. */
  method Guard(req: Request, db: Db, decode: string -> Token, cfg: Config, now: int) returns (next: Option<Error>)
    modifies req
    ensures req.authorization == old(req.authorization)
    ensures match Authenticate(req.authorization, db.users, db.roles, decode, cfg, now)
      case Proceed(p) => next == None && req.user == Some(p)
      case Reject(e) => next == Some(e) && req.user == old(req.user)
  {
    var o := Authenticate(req.authorization, db.users, db.roles, decode, cfg, now);
    match o
    case Proceed(p) =>
      req.user := Some(p);
      next := None;
    case Reject(e) =>
      next := Some(e);
  }
}
