/** services/UserService.js: creating, listing, searching, reading, updating and soft-deleting
    users, over the store. */
module UserService {
  import opened Common
  import opened Text
  import opened Collections
  import opened RoleModel
  import opened UserModel
  import opened Store

  /** `createUser({ name, email, phone, password, roleId })`: 400 when any user has the email or
      the phone, 400 when the role is not a visible role (any visible role will do, SUPER_ADMIN
      included); otherwise the user is stored with the password hashed. `image` is accepted by
      the input validator but is not passed to `User.create`. */
  method CreateUser(db: Db, name: string, email: string, phone: string, password: string, roleId: Id, h: Hasher)
    returns (r: Result<Doc<User>>)
    requires db.Valid()
    modifies db
    ensures db.Valid()
    ensures db.permissions == old(db.permissions) && db.roles == old(db.roles)
    ensures IdentityTaken(old(db.users), Some(email), Some(phone), None) ==>
      r == Err(HttpError(400, "User with this email or phone already exists"))
    ensures !IdentityTaken(old(db.users), Some(email), Some(phone), None) && !(roleId in db.roles && Visible(db.roles[roleId])) ==>
      r == Err(HttpError(400, "Invalid role specified"))
    ensures r.Ok? <==> !IdentityTaken(old(db.users), Some(email), Some(phone), None) && roleId in db.roles && Visible(db.roles[roleId])
    ensures r.Ok? ==>
      && r.value == Doc(old(db.nextId), NewUser(name, email, phone, password, roleId, None, h))
      && db.users == old(db.users)[r.value.id := r.value.record]
      && db.nextId == old(db.nextId) + 1
    ensures r.Err? ==> db.users == old(db.users) && db.nextId == old(db.nextId)
  {
    FindIdentity(db.users, db.nextId, Some(email), Some(phone), None);
    var existing := FindUser(db.users, db.nextId, (d: Doc<User>) => HoldsIdentity(d, Some(email), Some(phone), None));
    if existing.Some? {
      return Err(HttpError(400, "User with this email or phone already exists"));
    }
    FindById(db.roles, db.nextId, roleId);
    var role := FindOne(db.roles, db.nextId, RoleQuery(Some(roleId), None, None));
    if role.None? {
      return Err(HttpError(400, "Invalid role specified"));
    }
    var u := NewUser(name, email, phone, password, roleId, None, h);
    var id := db.InsertUser(u);
    r := Ok(Doc(id, u));
  }

  /** `getAllUsers()`: every user, newest first. */
  method GetAllUsers(db: Db) returns (us: seq<Doc<User>>)
    ensures forall d :: d in us <==> d.id in db.users && d.id < db.nextId && d.record == db.users[d.id]
    ensures DecreasingIds(us)
  {
    us := Descending(db.users, db.nextId);
  }

  /** The filters of `searchUsers`; an absent or empty string and an absent role impose nothing. */
  datatype UserFilter = UserFilter(name: Option<string>, email: Option<string>, roleId: Option<Id>)

  /** The query `searchUsers` builds: the conditions of the filters that are set, joined by "and". */
  predicate FilterMatches(f: UserFilter, u: User) {
    && (Truthy(f.name) ==> ContainsIgnoreCase(u.name, f.name.value))
    && (Truthy(f.email) ==> ContainsIgnoreCase(u.email, f.email.value))
    && (f.roleId.Some? ==> u.role == f.roleId.value)
  }

  /** The users the search's query selects, newest first. */
  function SearchListing(users: map<Id, User>, n: nat, f: UserFilter): (r: seq<Doc<User>>)
    ensures forall d :: d in r <==> d.id in users && d.id < n && d.record == users[d.id] && FilterMatches(f, d.record)
    ensures DecreasingIds(r)
  {
    var all := Descending(users, n);
    FilterKeepsDecreasing(all, (d: Doc<User>) => FilterMatches(f, d.record));
    Filter(all, (d: Doc<User>) => FilterMatches(f, d.record))
  }

  datatype Pagination = Pagination(currentPage: nat, totalPages: nat, totalUsers: nat, limit: nat)
  datatype UserPage = UserPage(users: seq<Doc<User>>, pagination: Pagination)

  /** `searchUsers(filters, page, limit)`: page `page` of the matching users, newest first, and
      the count of all matches. */
  method SearchUsers(db: Db, f: UserFilter, page: nat, limit: nat) returns (res: UserPage)
    requires page >= 1 && limit >= 1
    ensures var all := SearchListing(db.users, db.nextId, f);
      && res.users == Page(all, page, limit)
      && res.pagination == Pagination(page, CeilDiv(|all|, limit), |all|, limit)
    ensures |res.users| <= limit && DecreasingIds(res.users)
    ensures forall d :: d in res.users ==> d.id in db.users && d.record == db.users[d.id] && FilterMatches(f, d.record)
  {
    var all := SearchListing(db.users, db.nextId, f);
    var total := |all|;
    var items := Page(all, page, limit);
    PageOfListing(all, page, limit);
    res := UserPage(items, Pagination(page, CeilDiv(total, limit), total, limit));
  }

  /** Every matching user is on one of the pages from 1 to `totalPages`. */
  lemma SearchPagesCoverMatches(users: map<Id, User>, n: nat, f: UserFilter, limit: nat, i: nat)
    requires limit >= 1 && i < |SearchListing(users, n, f)|
    ensures var all := SearchListing(users, n, f);
      && 1 <= i / limit + 1 <= CeilDiv(|all|, limit)
      && all[i] in Page(all, i / limit + 1, limit)
  {
    var all := SearchListing(users, n, f);
    PageCovers(all, limit, i);
  }

  /** `getUserById(id)`: the stored user, 404 otherwise. */
  method GetUserById(db: Db, id: Id) returns (r: Result<Doc<User>>)
    ensures r.Ok? <==> id in db.users
    ensures r.Ok? ==> r.value == Doc(id, db.users[id])
    ensures r.Err? ==> r.error == HttpError(404, "User not found")
  {
    if id !in db.users {
      return Err(HttpError(404, "User not found"));
    }
    return Ok(Doc(id, db.users[id]));
  }

  /** The fields an update may carry; `None` means the key is absent. */
  datatype UserUpdate = UserUpdate(
    name: Option<string>,
    email: Option<string>,
    phone: Option<string>,
    password: Option<string>,
    roleId: Option<Id>,
    image: Option<string>)

  /** `findByIdAndUpdate(id, { ...updateData, role })` as written: every key present is written,
      falsy or not, and the password as given. The update is not a save, so the user model's
      save-time hashing does not run; the seed script hashes the admin password itself before its
      own `findOneAndUpdate` for the same reason. */
  function ApplyUserUpdateAsWritten(u: User, upd: UserUpdate): (u': User)
    ensures u'.password == (if upd.password.Some? then PasswordHash(upd.password.value) else u.password)
  {
    u.(name := if upd.name.Some? then upd.name.value else u.name,
       email := if upd.email.Some? then upd.email.value else u.email,
       phone := if upd.phone.Some? then upd.phone.value else u.phone,
       password := if upd.password.Some? then PasswordHash(upd.password.value) else u.password,
       role := if upd.roleId.Some? then upd.roleId.value else u.role,
       image := if upd.image.Some? then upd.image else u.image)
  }

  /** A bcrypt-shaped scheme: every digest carries a `$2b$` prefix, and a password matches
      exactly its own digest. */
  function PrefixHasher(): (h: Hasher)
    ensures Sound(h)
  {
    Hasher(s => PasswordHash("$2b$" + s), (s, d) => d == PasswordHash("$2b$" + s))
  }

  /** As written, a password changed through the update no longer logs in: under a sound scheme
      whose digests never equal the password text, `comparePassword` refuses the very password
      that was just set. */
  lemma UpdatedPasswordAsWrittenFailsLogin(u: User, p: string)
    ensures var upd := UserUpdate(None, None, None, Some(p), None, None);
      && Sound(PrefixHasher())
      && !PrefixHasher().matches(p, ApplyUserUpdateAsWritten(u, upd).password)
  {
    var upd := UserUpdate(None, None, None, Some(p), None, None);
    var stored := ApplyUserUpdateAsWritten(u, upd).password;
    assert stored.digest == p;
    assert |("$2b$" + p)| == |p| + 4;
  }

  /** The update as intended: every key present is written, falsy or not, and a password is
      stored hashed, as `User.create` stores it. */
  function ApplyUserUpdate(u: User, upd: UserUpdate, h: Hasher): (u': User)
    ensures u'.name == (if upd.name.Some? then upd.name.value else u.name)
    ensures u'.email == (if upd.email.Some? then upd.email.value else u.email)
    ensures u'.phone == (if upd.phone.Some? then upd.phone.value else u.phone)
    ensures u'.password == (if upd.password.Some? then h.hash(upd.password.value) else u.password)
    ensures u'.role == (if upd.roleId.Some? then upd.roleId.value else u.role)
    ensures u'.image == (if upd.image.Some? then upd.image else u.image)
    ensures u'.isActive == u.isActive && u'.emailVerified == u.emailVerified && u'.phoneVerified == u.phoneVerified
    ensures u'.lastLogin == u.lastLogin && u'.isDeleted == u.isDeleted
    ensures u'.deletedAt == u.deletedAt && u'.deletedBy == u.deletedBy
  {
    u.(name := if upd.name.Some? then upd.name.value else u.name,
       email := if upd.email.Some? then upd.email.value else u.email,
       phone := if upd.phone.Some? then upd.phone.value else u.phone,
       password := if upd.password.Some? then h.hash(upd.password.value) else u.password,
       role := if upd.roleId.Some? then upd.roleId.value else u.role,
       image := if upd.image.Some? then upd.image else u.image)
  }

  /** The intended update and the update as written differ in the password alone. */
  lemma UpdateDiffersOnlyInPassword(u: User, upd: UserUpdate, h: Hasher)
    ensures ApplyUserUpdate(u, upd, h).(password := u.password) == ApplyUserUpdateAsWritten(u, upd).(password := u.password)
    ensures upd.password.None? ==> ApplyUserUpdate(u, upd, h) == ApplyUserUpdateAsWritten(u, upd)
  {
  }

  /** With the update as intended, the user logs in with the password it was just given. */
  lemma UpdatedPasswordMatches(u: User, upd: UserUpdate, h: Hasher)
    requires Sound(h) && upd.password.Some?
    ensures h.matches(upd.password.value, ApplyUserUpdate(u, upd, h).password)
  {
  }

  /** The email and the phone the duplicate check looks for: each one only when truthy. */
  function Probe(o: Option<string>): Option<string> {
    if Truthy(o) then o else None
  }

  /** The duplicate check as written: it sends the query `{ $and: [ { _id: { $ne: id } },
      { $or: [] } ] }`, which MongoDB refuses because `$or` needs at least one clause, so every
      update that supplies an email or a phone fails. */
  function DuplicateCheckAsWritten(upd: UserUpdate): (r: Option<Error>)
    ensures r.Some? <==> Truthy(upd.email) || Truthy(upd.phone)
  {
    if Truthy(upd.email) || Truthy(upd.phone) then Some(Thrown("$and/$or/$nor must be a nonempty array"))
    else None
  }

  /** The duplicate check as intended: refuse only when a different user holds the supplied
      email or the supplied phone. */
  function DuplicateCheck(users: map<Id, User>, id: Id, upd: UserUpdate): (r: Option<Error>)
    ensures r.Some? <==> IdentityTaken(users, Probe(upd.email), Probe(upd.phone), Some(id))
    ensures r.Some? ==> r.value == HttpError(400, "Email or phone already exists")
  {
    if IdentityTaken(users, Probe(upd.email), Probe(upd.phone), Some(id)) then Some(HttpError(400, "Email or phone already exists"))
    else None
  }

  /** Under unique identities, a user repeating its own email and phone passes the intended
      check. */
  lemma DuplicateCheckAcceptsOwnIdentity(users: map<Id, User>, id: Id)
    requires IdentitiesUnique(users) && id in users
    ensures DuplicateCheck(users, id, UserUpdate(None, Some(users[id].email), Some(users[id].phone), None, None, None)).None?
  {
  }

  /** A user repeating its own email is refused by the check as written and accepted by the
      check as intended. */
  lemma DuplicateCheckAsWrittenRefusesOwnEmail(users: map<Id, User>, id: Id)
    requires IdentitiesUnique(users) && id in users && users[id].email != ""
    ensures var upd := UserUpdate(None, Some(users[id].email), None, None, None, None);
      DuplicateCheckAsWritten(upd).Some? && DuplicateCheck(users, id, upd).None?
  {
  }

  /** `updateUser(id, updateData)`, with the duplicate check as intended: 404 for a user not
      stored; 400 when a different user holds a supplied email or phone; 400 when a supplied
      role is not a visible role; otherwise every supplied key is written. The unique indexes
      still refuse a present but empty email or phone that another user holds. */
  method UpdateUser(db: Db, id: Id, upd: UserUpdate, h: Hasher) returns (r: Result<Doc<User>>)
    requires db.Valid()
    modifies db
    ensures db.Valid()
    ensures db.permissions == old(db.permissions) && db.roles == old(db.roles) && db.nextId == old(db.nextId)
    ensures r == Err(HttpError(404, "User not found")) <==> id !in old(db.users)
    ensures id in old(db.users) && IdentityTaken(old(db.users), Probe(upd.email), Probe(upd.phone), Some(id)) ==>
      r == Err(HttpError(400, "Email or phone already exists"))
    ensures (id in old(db.users) && !IdentityTaken(old(db.users), Probe(upd.email), Probe(upd.phone), Some(id))
             && upd.roleId.Some? && !(upd.roleId.value in db.roles && Visible(db.roles[upd.roleId.value]))) ==>
      r == Err(HttpError(400, "Invalid role specified"))
    ensures r.Ok? <==>
      && id in old(db.users)
      && !IdentityTaken(old(db.users), Probe(upd.email), Probe(upd.phone), Some(id))
      && (upd.roleId.Some? ==> upd.roleId.value in db.roles && Visible(db.roles[upd.roleId.value]))
      && !IdentityTaken(old(db.users), upd.email, upd.phone, Some(id))
    ensures r.Ok? ==>
      && r.value == Doc(id, ApplyUserUpdate(old(db.users)[id], upd, h))
      && db.users == old(db.users)[id := r.value.record]
    ensures r.Err? ==> db.users == old(db.users)
  {
    if id !in db.users {
      return Err(HttpError(404, "User not found"));
    }
    if Truthy(upd.email) || Truthy(upd.phone) {
      var duplicate := DuplicateCheck(db.users, id, upd);
      if duplicate.Some? {
        return Err(duplicate.value);
      }
    }
    if upd.roleId.Some? {
      FindById(db.roles, db.nextId, upd.roleId.value);
      var role := FindOne(db.roles, db.nextId, RoleQuery(upd.roleId, None, None));
      if role.None? {
        return Err(HttpError(400, "Invalid role specified"));
      }
    }
    r := FindByIdAndUpdate(db, id, upd, h);
  }

  /** `User.findByIdAndUpdate(id, upd)`: the write, which only the unique indexes on `email` and
      `phone` can refuse. */
  method FindByIdAndUpdate(db: Db, id: Id, upd: UserUpdate, h: Hasher) returns (r: Result<Doc<User>>)
    requires db.Valid() && id in db.users
    requires upd.roleId.Some? ==> upd.roleId.value in db.roles
    modifies db
    ensures db.Valid()
    ensures db.permissions == old(db.permissions) && db.roles == old(db.roles) && db.nextId == old(db.nextId)
    ensures r.Ok? <==> !IdentityTaken(old(db.users), upd.email, upd.phone, Some(id))
    ensures r.Err? ==> r.error.DuplicateKey? && db.users == old(db.users)
    ensures r.Ok? ==>
      && r.value == Doc(id, ApplyUserUpdate(old(db.users)[id], upd, h))
      && db.users == old(db.users)[id := r.value.record]
  {
    if IdentityTaken(db.users, upd.email, None, Some(id)) {
      return Err(DuplicateKey("email"));
    }
    if IdentityTaken(db.users, None, upd.phone, Some(id)) {
      return Err(DuplicateKey("phone"));
    }
    var u := ApplyUserUpdate(db.users[id], upd, h);
    assert !IdentityTaken(db.users, Some(u.email), Some(u.phone), Some(id)) by {
      IdentityOfUpdate(db.users, id, upd, u);
    }
    db.ReplaceUser(id, u);
    r := Ok(Doc(id, u));
  }

  /** The identity an updated user ends up with collides only where a supplied value does: the
      values it keeps are its own, which no other user holds. */
  lemma IdentityOfUpdate(users: map<Id, User>, id: Id, upd: UserUpdate, u: User)
    requires IdentitiesUnique(users) && id in users
    requires u.email == (if upd.email.Some? then upd.email.value else users[id].email)
    requires u.phone == (if upd.phone.Some? then upd.phone.value else users[id].phone)
    requires !IdentityTaken(users, upd.email, None, Some(id)) && !IdentityTaken(users, None, upd.phone, Some(id))
    ensures !IdentityTaken(users, Some(u.email), Some(u.phone), Some(id))
  {
  }

  /** `deleteUser(id, deletedBy)`: 404 for a user not stored, otherwise the user's `softDelete`. */
  method DeleteUser(db: Db, id: Id, deletedBy: Option<Id>, now: int) returns (r: Result<string>)
    requires db.Valid()
    modifies db
    ensures db.Valid()
    ensures db.permissions == old(db.permissions) && db.roles == old(db.roles) && db.nextId == old(db.nextId)
    ensures r.Ok? <==> id in old(db.users)
    ensures r.Err? ==> r.error == HttpError(404, "User not found") && db.users == old(db.users)
    ensures r.Ok? ==>
      && r.value == "User deleted successfully"
      && db.users == old(db.users)[id := SoftDeleteUser(old(db.users)[id], deletedBy, now)]
  {
    if id !in db.users {
      return Err(HttpError(404, "User not found"));
    }
    var u := SoftDeleteUser(db.users[id], deletedBy, now);
    assert !IdentityTaken(db.users, Some(u.email), Some(u.phone), Some(id));
    db.ReplaceUser(id, u);
    return Ok("User deleted successfully");
  }
}
