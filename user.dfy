/** The user record the services read and write. models/User.js is not part of this model: the
    record's fields are the ones the services and the seed script use, its soft-delete marker has
    the role's shape without the protected-name carve-out, and password hashing is opaque. */
module UserModel {
  import opened Common
  import opened Collections

  /** A stored password hash; what it holds is up to the hashing scheme. */
  datatype PasswordHash = PasswordHash(digest: string)

  /** The user model's password hashing: `hash` when a password is stored, `matches` for
      `comparePassword`. Both are opaque; `Sound` is the one property the model relies on. */
  datatype Hasher = Hasher(hash: string -> PasswordHash, matches: (string, PasswordHash) -> bool)

  /** A password always matches its own hash. */
  ghost predicate Sound(h: Hasher) {
    forall s :: h.matches(s, h.hash(s))
  }

  datatype User = User(
    name: string,
    email: string,
    phone: string,
    password: PasswordHash,
    role: Id,
    image: Option<string>,
    isActive: bool,
    emailVerified: bool,
    phoneVerified: bool,
    lastLogin: Option<int>,
    isDeleted: bool,
    deletedAt: Option<int>,
    deletedBy: Option<Id>)

  /** `User.create(...)`: the given fields, the password hashed, and the defaults: active,
      unverified, never logged in, not deleted. */
  function NewUser(name: string, email: string, phone: string, password: string, role: Id, image: Option<string>, h: Hasher): (u: User)
    ensures u.name == name && u.email == email && u.phone == phone && u.role == role && u.image == image
    ensures u.password == h.hash(password)
    ensures u.isActive && !u.emailVerified && !u.phoneVerified && u.lastLogin == None
    ensures !u.isDeleted && u.deletedAt == None && u.deletedBy == None
  {
    User(name, email, phone, h.hash(password), role, image, true, false, false, None, false, None, None)
  }

  /** A new user can log in with the password it was created with. */
  lemma NewUserPasswordMatches(name: string, email: string, phone: string, password: string, role: Id, image: Option<string>, h: Hasher)
    requires Sound(h)
    ensures h.matches(password, NewUser(name, email, phone, password, role, image, h).password)
  {
  }

  /** `user.softDelete(deletedBy)`: the marker is set and nothing else changes. */
  function SoftDeleteUser(u: User, deletedBy: Option<Id>, now: int): (u': User)
    ensures u'.isDeleted && u'.deletedAt == Some(now) && u'.deletedBy == deletedBy
    ensures u'.(isDeleted := u.isDeleted, deletedAt := u.deletedAt, deletedBy := u.deletedBy) == u
  {
    u.(isDeleted := true, deletedAt := Some(now), deletedBy := deletedBy)
  }

  /** The unique indexes on `email` and `phone`. */
  predicate IdentitiesUnique(users: map<Id, User>) {
    forall a, b :: a in users && b in users && a != b ==>
      users[a].email != users[b].email && users[a].phone != users[b].phone
  }

  /** Some user other than `except` holds the given email or the given phone. */
  predicate IdentityTaken(users: map<Id, User>, email: Option<string>, phone: Option<string>, except: Option<Id>) {
    exists id :: id in users && Some(id) != except &&
      ((email.Some? && users[id].email == email.value) || (phone.Some? && users[id].phone == phone.value))
  }

  /** `User.findOne(query)` over the ids below `n`: the first match in natural order. No read
      filter is applied to users. */
  function FindUser(users: map<Id, User>, n: nat, p: Doc<User> -> bool): (r: Option<Doc<User>>)
    ensures r.Some? ==>
      && r.value.id in users && r.value.id < n && r.value.record == users[r.value.id] && p(r.value)
      && forall id :: id in users && id < r.value.id ==> !p(Doc(id, users[id]))
    ensures r.None? ==> forall id :: id in users && id < n ==> !p(Doc(id, users[id]))
  {
    var docs := Ascending(users, n);
    var r := First(docs, p);
    assert forall id :: id in users && id < n ==> Doc(id, users[id]) in docs;
    r
  }

  /** The `$or` of an email and a phone condition, and an id to leave out. */
  predicate HoldsIdentity(d: Doc<User>, email: Option<string>, phone: Option<string>, except: Option<Id>) {
    Some(d.id) != except &&
    ((email.Some? && d.record.email == email.value) || (phone.Some? && d.record.phone == phone.value))
  }

  /** The identity lookup finds a user exactly when the identity is taken. */
  lemma FindIdentity(users: map<Id, User>, n: nat, email: Option<string>, phone: Option<string>, except: Option<Id>)
    requires forall k :: k in users ==> k < n
    ensures FindUser(users, n, (d: Doc<User>) => HoldsIdentity(d, email, phone, except)).Some? <==>
      IdentityTaken(users, email, phone, except)
  {
    var p := (d: Doc<User>) => HoldsIdentity(d, email, phone, except);
    if IdentityTaken(users, email, phone, except) {
      var id :| id in users && Some(id) != except &&
        ((email.Some? && users[id].email == email.value) || (phone.Some? && users[id].phone == phone.value));
      assert p(Doc(id, users[id]));
    }
  }

  /** Adding a user whose email and phone no other user holds keeps the identities unique. */
  lemma AddKeepsIdentitiesUnique(users: map<Id, User>, id: Id, u: User)
    requires IdentitiesUnique(users)
    requires !IdentityTaken(users, Some(u.email), Some(u.phone), Some(id))
    ensures IdentitiesUnique(users[id := u])
  {
    var m := users[id := u];
    forall a, b | a in m && b in m && a != b
      ensures m[a].email != m[b].email && m[a].phone != m[b].phone
    {
      if a == id {
        assert b in users && Some(b) != Some(id);
      } else if b == id {
        assert a in users && Some(a) != Some(id);
      }
    }
  }
}
