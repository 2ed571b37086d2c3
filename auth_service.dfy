/** services/AuthService.js: issuing a token pair, registration, login, token renewal and
    logout. The process configuration (secret and access lifetime) and the clock are
    parameters; token text from a client is read into a token by the `decode` parameter. */
module AuthService {
  import opened Common
  import opened RoleModel
  import opened UserModel
  import opened Jwt
  import opened Store

  datatype TokenPair = TokenPair(accessToken: Token, refreshToken: Token)

  /** `generateTokens(userId)`: two tokens signed with the configured secret and bound to the
      same user; only the refresh token carries `type: 'refresh'`. */
  function GenerateTokens(userId: Id, cfg: Config, now: int): (p: TokenPair)
    ensures p.accessToken.Signed? && p.refreshToken.Signed?
    ensures p.accessToken.key == cfg.secret && p.refreshToken.key == cfg.secret
    ensures p.accessToken.claims.userId == userId && p.refreshToken.claims.userId == userId
    ensures p.accessToken.claims.tokenType == None && p.refreshToken.claims.tokenType == Some(RefreshType)
    ensures p.accessToken.claims.exp == now + AccessLifetime(cfg)
    ensures p.refreshToken.claims.exp == now + RefreshLifetime
  {
    TokenPair(Sign(userId, None, cfg.secret, now, AccessLifetime(cfg)),
              Sign(userId, Some(RefreshType), cfg.secret, now, RefreshLifetime))
  }

  /** Both tokens of a pair name the same user when they verify: for as long as each is in its
      lifetime, verifying it gives back that user, and from then on it is expired. */
  lemma GeneratedTokensVerify(userId: Id, cfg: Config, issued: int, now: int)
    requires issued <= now
    ensures var p := GenerateTokens(userId, cfg, issued);
      && Verify(p.accessToken, cfg.secret, now) ==
           (if now < issued + AccessLifetime(cfg) then Verified(p.accessToken.claims) else Expired)
      && Verify(p.refreshToken, cfg.secret, now) ==
           (if now < issued + RefreshLifetime then Verified(p.refreshToken.claims) else Expired)
  {
    SignedVerifiesUntilExpiry(userId, None, cfg.secret, issued, AccessLifetime(cfg), now);
    SignedVerifiesUntilExpiry(userId, Some(RefreshType), cfg.secret, issued, RefreshLifetime, now);
  }

  /** The user a successful registration returns: no password, the role by name. */
  datatype RegisteredUser = RegisteredUser(id: Id, name: string, email: string, phone: string, role: string)
  datatype Registration = Registration(user: RegisteredUser, tokens: TokenPair)

  /** `register({ name, email, phone, password, roleId })`: 400 when any user holds the email or
      the phone; then 400 when the role is not a visible role; then 403 when it is SUPER_ADMIN.
      Otherwise one user is added, with the password hashed, and tokens for the new id come
      back. Any other visible role, ADMIN included, may be chosen. */
  method Register(db: Db, name: string, email: string, phone: string, password: string, roleId: Id, h: Hasher, cfg: Config, now: int)
    returns (r: Result<Registration>)
    requires db.Valid()
    modifies db
    ensures db.Valid()
    ensures db.permissions == old(db.permissions) && db.roles == old(db.roles)
    ensures IdentityTaken(old(db.users), Some(email), Some(phone), None) ==>
      r == Err(HttpError(400, "User with this email or phone already exists"))
    ensures (!IdentityTaken(old(db.users), Some(email), Some(phone), None)
             && !(roleId in db.roles && Visible(db.roles[roleId]))) ==>
      r == Err(HttpError(400, "Invalid role specified"))
    ensures (!IdentityTaken(old(db.users), Some(email), Some(phone), None)
             && roleId in db.roles && Visible(db.roles[roleId]) && db.roles[roleId].name == SuperAdmin) ==>
      r == Err(HttpError(403, "Cannot register with super admin role"))
    ensures r.Ok? <==>
      && !IdentityTaken(old(db.users), Some(email), Some(phone), None)
      && roleId in db.roles && Visible(db.roles[roleId]) && db.roles[roleId].name != SuperAdmin
    ensures r.Ok? ==>
      && var id := old(db.nextId);
      && db.users == old(db.users)[id := NewUser(name, email, phone, password, roleId, None, h)]
      && db.nextId == id + 1
      && r.value.user == RegisteredUser(id, name, email, phone, db.roles[roleId].name)
      && r.value.tokens == GenerateTokens(id, cfg, now)
    ensures r.Err? ==> db.users == old(db.users) && db.nextId == old(db.nextId)
  {
    FindIdentity(db.users, db.nextId, Some(email), Some(phone), None);
    var existing := FindUser(db.users, db.nextId, (d: Doc<User>) => HoldsIdentity(d, Some(email), Some(phone), None));
    if existing.Some? {
      return Err(HttpError(400, "User with this email or phone already exists"));
    }
    FindById(db.roles, db.nextId, roleId);
    var role := FindOne(db.roles, db.nextId, RoleQuery(Some(roleId), None, None));
    if role.None? {
      return Err(HttpError(400, "Invalid role specified"));
    }
    if role.value.record.name == SuperAdmin {
      return Err(HttpError(403, "Cannot register with super admin role"));
    }
    var u := NewUser(name, email, phone, password, roleId, None, h);
    var id := db.InsertUser(u);
    var tokens := GenerateTokens(id, cfg, now);
    r := Ok(Registration(RegisteredUser(id, name, email, phone, role.value.record.name), tokens));
  }

  /** The user a successful login returns: no password, the role populated, which a soft-deleted
      role leaves empty. */
  datatype LoggedInUser = LoggedInUser(id: Id, name: string, email: string, phone: string, role: Option<Doc<Role>>)
  datatype Session = Session(user: LoggedInUser, tokens: TokenPair)

  /** The login lookup: by email when one is given, otherwise by phone. */
  predicate LoginMatches(d: Doc<User>, email: Option<string>, phone: Option<string>) {
    if Truthy(email) then d.record.email == email.value else phone.Some? && d.record.phone == phone.value
  }

  /** `login({ email, phone, password })`. An unknown user and a wrong password are answered in
      the same words. A successful login changes the user's `lastLogin` and nothing else, and
      returns tokens for that user. The lookup needs an email or a phone, as the input validator
      guarantees. */
  method Login(db: Db, email: Option<string>, phone: Option<string>, password: string, h: Hasher, cfg: Config, now: int)
    returns (r: Result<Session>)
    requires db.Valid()
    requires Truthy(email) || phone.Some?
    modifies db
    ensures db.Valid()
    ensures db.permissions == old(db.permissions) && db.roles == old(db.roles) && db.nextId == old(db.nextId)
    ensures r.Err? ==> r.error == HttpError(401, "Invalid credentials") && db.users == old(db.users)
    ensures (forall id :: id in old(db.users) ==> !LoginMatches(Doc(id, old(db.users)[id]), email, phone)) ==> r.Err?
    ensures r.Ok? ==>
      && var id := r.value.user.id;
      && id in old(db.users) && LoginMatches(Doc(id, old(db.users)[id]), email, phone)
      && h.matches(password, old(db.users)[id].password)
      && db.users == old(db.users)[id := old(db.users)[id].(lastLogin := Some(now))]
      && r.value.tokens == GenerateTokens(id, cfg, now)
      && r.value.user.role == (var rid := old(db.users)[id].role;
                               if Visible(db.roles[rid]) then Some(Doc(rid, db.roles[rid])) else None)
    // Emails and phones are unique, so a stored user who gives their own password is let in.
    ensures (exists id :: id in old(db.users) && LoginMatches(Doc(id, old(db.users)[id]), email, phone)
               && h.matches(password, old(db.users)[id].password)) ==> r.Ok?
  {
    var found := FindUser(db.users, db.nextId, (d: Doc<User>) => LoginMatches(d, email, phone));
    if found.None? {
      return Err(HttpError(401, "Invalid credentials"));
    }
    var id, user := found.value.id, found.value.record;
    if !h.matches(password, user.password) {
      forall other | other in db.users && LoginMatches(Doc(other, db.users[other]), email, phone)
        ensures other == id
      {
      }
      return Err(HttpError(401, "Invalid credentials"));
    }
    var updated := user.(lastLogin := Some(now));
    assert !IdentityTaken(db.users, Some(updated.email), Some(updated.phone), Some(id));
    var role := if Visible(db.roles[user.role]) then Some(Doc(user.role, db.roles[user.role])) else None;
    db.ReplaceUser(id, updated);
    r := Ok(Session(LoggedInUser(id, user.name, user.email, user.phone, role), GenerateTokens(id, cfg, now)));
  }

  /** `refreshToken(token)`: "Refresh token required" for a missing or empty token; every other
      failure, a user no longer stored included, is caught and reported as "Invalid refresh
      token"; otherwise a fresh pair for the token's user. */
  function RefreshToken(users: map<Id, User>, token: Option<string>, decode: string -> Token, cfg: Config, now: int): (r: Result<TokenPair>)
    ensures !Truthy(token) ==> r == Err(HttpError(401, "Refresh token required"))
    ensures r.Ok? <==>
      && Truthy(token)
      && Verify(decode(token.value), cfg.secret, now).Verified?
      && decode(token.value).claims.tokenType == Some(RefreshType)
      && decode(token.value).claims.userId in users
    ensures r.Ok? ==> r.value == GenerateTokens(decode(token.value).claims.userId, cfg, now)
    ensures Truthy(token) && r.Err? ==> r.error == HttpError(401, "Invalid refresh token")
  {
    if !Truthy(token) then Err(HttpError(401, "Refresh token required"))
    else match Verify(decode(token.value), cfg.secret, now)
      case Verified(c) =>
        if c.tokenType != Some(RefreshType) then Err(HttpError(401, "Invalid refresh token"))
        else if c.userId !in users then Err(HttpError(401, "Invalid refresh token"))
        else Ok(GenerateTokens(c.userId, cfg, now))
      case _ => Err(HttpError(401, "Invalid refresh token"))
  }

  /** A refresh token from a pair renews the pair for the same user while it is in its
      lifetime and the user is stored; the access token of the pair never does. */
  lemma RefreshRenewsPair(users: map<Id, User>, userId: Id, decode: string -> Token, text: string, cfg: Config, issued: int, now: int)
    requires issued <= now && text != ""
    ensures decode(text) == GenerateTokens(userId, cfg, issued).refreshToken ==>
      RefreshToken(users, Some(text), decode, cfg, now) ==
        if now < issued + RefreshLifetime && userId in users then Ok(GenerateTokens(userId, cfg, now))
        else Err(HttpError(401, "Invalid refresh token"))
    ensures decode(text) == GenerateTokens(userId, cfg, issued).accessToken ==>
      RefreshToken(users, Some(text), decode, cfg, now) == Err(HttpError(401, "Invalid refresh token"))
  {
    GeneratedTokensVerify(userId, cfg, issued, now);
  }

  /** `logout(refreshToken)`: nothing is revoked; every call succeeds with the same message. */
  function Logout(refreshToken: Option<string>): (message: string)
    ensures message == "Logged out successfully"
  {
    "Logged out successfully"
  }
}
