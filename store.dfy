/** The three collections the services share, as one store: permissions, roles and users keyed by
    id, and the counter new ids are drawn from. */
module Store {
  import opened Common
  import opened PermissionModel
  import opened RoleModel
  import opened UserModel

  /** What holds of the collections between calls: every id was allocated, every user's role
      and every role's permission refers to a stored document (nothing is ever removed), and
      the unique indexes hold. */
  predicate Consistent(permissions: map<Id, Permission>, roles: map<Id, Role>, users: map<Id, User>, nextId: nat) {
    && (forall id :: id in permissions ==> id < nextId)
    && (forall id :: id in roles ==> id < nextId)
    && (forall id :: id in users ==> id < nextId)
    && (forall u :: u in users ==> users[u].role in roles)
    && (forall r, k :: r in roles && 0 <= k < |roles[r].permissions| ==> roles[r].permissions[k] in permissions)
    && PermissionNamesUnique(permissions)
    && RoleNamesUnique(roles)
    && IdentitiesUnique(users)
  }

  /** Storing role `id` (new or not), with stored permissions and a name no other role holds,
      keeps the collections consistent. */
  lemma PutRole(permissions: map<Id, Permission>, roles: map<Id, Role>, users: map<Id, User>, nextId: nat, id: Id, r: Role)
    requires Consistent(permissions, roles, users, nextId) && id < nextId
    requires forall k :: 0 <= k < |r.permissions| ==> r.permissions[k] in permissions
    requires !NameHeldByOther(roles, r.name, Some(id))
    ensures Consistent(permissions, roles[id := r], users, nextId)
  {
    PutKeepsNamesUnique(roles, id, r);
  }

  /** Storing permission `id` (new or not) under a name no other permission holds keeps the
      collections consistent. */
  lemma PutPermission(permissions: map<Id, Permission>, roles: map<Id, Role>, users: map<Id, User>, nextId: nat, id: Id, p: Permission)
    requires Consistent(permissions, roles, users, nextId) && id < nextId
    requires !PermissionNameHeldByOther(permissions, p.name, Some(id))
    ensures Consistent(permissions[id := p], roles, users, nextId)
  {
    PutKeepsPermissionNamesUnique(permissions, id, p);
  }

  /** Drawing a fresh id keeps the collections consistent. */
  lemma Allocate(permissions: map<Id, Permission>, roles: map<Id, Role>, users: map<Id, User>, nextId: nat)
    requires Consistent(permissions, roles, users, nextId)
    ensures Consistent(permissions, roles, users, nextId + 1)
  {
  }

  /** Storing user `id` (new or not), whose role is stored and whose email and phone no other
      user holds, keeps the collections consistent. */
  lemma PutUser(permissions: map<Id, Permission>, roles: map<Id, Role>, users: map<Id, User>, nextId: nat, id: Id, u: User)
    requires Consistent(permissions, roles, users, nextId) && id < nextId
    requires u.role in roles
    requires !IdentityTaken(users, Some(u.email), Some(u.phone), Some(id))
    ensures Consistent(permissions, roles, users[id := u], nextId)
  {
    AddKeepsIdentitiesUnique(users, id, u);
  }

  class Db {
    var permissions: map<Id, Permission>
    var roles: map<Id, Role>
    var users: map<Id, User>
    var nextId: nat

    ghost predicate Valid()
      reads this
    {
      Consistent(permissions, roles, users, nextId)
    }

    /** An insert of a role whose permissions are stored and whose name no role holds: the
        role is stored under a fresh id. */
    method InsertRole(role: Role) returns (id: Id)
      requires Valid()
      requires forall k :: 0 <= k < |role.permissions| ==> role.permissions[k] in permissions
      requires !NameHeldByOther(roles, role.name, None)
      modifies this
      ensures Valid()
      ensures id == old(nextId) && nextId == old(nextId) + 1
      ensures roles == old(roles)[id := role]
      ensures permissions == old(permissions) && users == old(users)
    {
      id := nextId;
      Allocate(permissions, roles, users, id);
      PutRole(permissions, roles, users, id + 1, id, role);
      roles := roles[id := role];
      nextId := id + 1;
    }

    /** An insert of a permission whose name no permission holds, under a fresh id. */
    method InsertPermission(p: Permission) returns (id: Id)
      requires Valid() && !PermissionNameHeldByOther(permissions, p.name, None)
      modifies this
      ensures Valid()
      ensures id == old(nextId) && nextId == old(nextId) + 1
      ensures permissions == old(permissions)[id := p]
      ensures roles == old(roles) && users == old(users)
    {
      id := nextId;
      Allocate(permissions, roles, users, id);
      PutPermission(permissions, roles, users, id + 1, id, p);
      permissions := permissions[id := p];
      nextId := id + 1;
    }

    /** A write of permission `id` under a name no other permission holds. */
    method ReplacePermission(id: Id, p: Permission)
      requires Valid() && id in permissions
      requires !PermissionNameHeldByOther(permissions, p.name, Some(id))
      modifies this
      ensures Valid()
      ensures permissions == old(permissions)[id := p]
      ensures roles == old(roles) && users == old(users) && nextId == old(nextId)
    {
      PutPermission(permissions, roles, users, nextId, id, p);
      permissions := permissions[id := p];
    }

    /** A write of role `id` whose permissions are stored and whose name no other role holds. */
    method ReplaceRole(id: Id, role: Role)
      requires Valid() && id in roles
      requires forall k :: 0 <= k < |role.permissions| ==> role.permissions[k] in permissions
      requires !NameHeldByOther(roles, role.name, Some(id))
      modifies this
      ensures Valid()
      ensures roles == old(roles)[id := role]
      ensures permissions == old(permissions) && users == old(users) && nextId == old(nextId)
    {
      PutRole(permissions, roles, users, nextId, id, role);
      roles := roles[id := role];
    }

    /** `User.create` of a user whose role is stored and whose email and phone no user holds:
        the user is stored under a fresh id. */
    method InsertUser(u: User) returns (id: Id)
      requires Valid()
      requires u.role in roles && !IdentityTaken(users, Some(u.email), Some(u.phone), None)
      modifies this
      ensures Valid()
      ensures id == old(nextId) && nextId == old(nextId) + 1
      ensures users == old(users)[id := u]
      ensures permissions == old(permissions) && roles == old(roles)
    {
      id := nextId;
      Allocate(permissions, roles, users, id);
      PutUser(permissions, roles, users, id + 1, id, u);
      users := users[id := u];
      nextId := id + 1;
    }

    /** A write of user `id` whose role is stored and whose email and phone no other user holds. */
    method ReplaceUser(id: Id, u: User)
      requires Valid() && id in users
      requires u.role in roles && !IdentityTaken(users, Some(u.email), Some(u.phone), Some(id))
      modifies this
      ensures Valid()
      ensures users == old(users)[id := u]
      ensures permissions == old(permissions) && roles == old(roles) && nextId == old(nextId)
    {
      PutUser(permissions, roles, users, nextId, id, u);
      users := users[id := u];
    }

    /** An empty database. */
    constructor ()
      ensures Valid()
      ensures permissions == map[] && roles == map[] && users == map[] && nextId == 0
    {
      permissions := map[];
      roles := map[];
      users := map[];
      nextId := 0;
    }
  }
}
