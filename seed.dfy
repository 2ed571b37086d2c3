/** scripts/seed.js: the permission catalogue, the three roles built from it, and the admin
    user, each written with an upsert keyed by name (by email for the user). The connection, the
    console output and the closing of the connection are not part of this model. */
module Seed {
  import opened Common
  import opened Text
  import opened Collections
  import opened PermissionModel
  import opened RoleModel
  import opened UserModel
  import opened Store

  /** One collection of the store with the id counter new documents draw from. */
  datatype Collection<T> = Collection(docs: map<Id, T>, nextId: nat)

  /** Every stored id was drawn from the counter. */
  predicate Drawn<T>(c: Collection<T>) {
    forall id :: id in c.docs ==> id < c.nextId
  }

  // ---------------------------------------------------------------- the permission catalogue

  /** Entry `k` of the catalogue, in the order the script lists them. */
  function CatalogueEntry(k: nat): Permission
    requires k < 14
  {
    if k == 0 then Permission("CREATE_USER", "Create new users", "USER", Create)
    else if k == 1 then Permission("READ_USER", "View user details", "USER", Read)
    else if k == 2 then Permission("UPDATE_USER", "Update user information", "USER", Update)
    else if k == 3 then Permission("DELETE_USER", "Delete users", "USER", Delete)
    else if k == 4 then Permission("MANAGE_USER", "Full user management", "USER", Manage)
    else if k == 5 then Permission("CREATE_ROLE", "Create new roles", "ROLE", Create)
    else if k == 6 then Permission("READ_ROLE", "View role details", "ROLE", Read)
    else if k == 7 then Permission("UPDATE_ROLE", "Update role information", "ROLE", Update)
    else if k == 8 then Permission("DELETE_ROLE", "Delete roles", "ROLE", Delete)
    else if k == 9 then Permission("MANAGE_ROLE", "Full role management", "ROLE", Manage)
    else if k == 10 then Permission("READ_PERMISSION", "View permissions", "PERMISSION", Read)
    else if k == 11 then Permission("MANAGE_PERMISSION", "Manage permissions", "PERMISSION", Manage)
    else if k == 12 then Permission("READ_DASHBOARD", "View dashboard", "DASHBOARD", Read)
    else Permission("MANAGE_DASHBOARD", "Manage dashboard", "DASHBOARD", Manage)
  }

  const Catalogue: seq<Permission> := seq(14, k requires 0 <= k < 14 => CatalogueEntry(k))

  function Names(ps: seq<Permission>): (r: seq<string>)
    ensures |r| == |ps| && forall k :: 0 <= k < |ps| ==> r[k] == ps[k].name
  {
    seq(|ps|, k requires 0 <= k < |ps| => ps[k].name)
  }

  /** Fourteen entries under distinct names. */
  lemma CatalogueNamesDistinct()
    ensures |Catalogue| == 14
    ensures NoDuplicates(Names(Catalogue))
  {
    assert forall i, j :: 0 <= i < j < |Catalogue| ==> Catalogue[i].name != Catalogue[j].name;
  }

  /** The only DELETE entries are DELETE_USER and DELETE_ROLE. */
  lemma CatalogueDeletes()
    ensures forall k :: 0 <= k < |Catalogue| && Catalogue[k].action == Delete ==> k == 3 || k == 8
    ensures Contains(Catalogue[3].name, "DELETE") && Catalogue[3].resource == "USER"
    ensures Catalogue[8].resource == "ROLE"
  {
    assert MatchesAt(Catalogue[3].name, "DELETE", 0);
  }

  // ---------------------------------------------------------------- the permission upserts

  /** `Permission.findOneAndUpdate({ name }, …)` looks up the first permission, in natural order,
      with that name. */
  function FindPermissionNamed(c: Collection<Permission>, name: string): (r: Option<Doc<Permission>>)
    ensures r.Some? ==>
      r.value.id in c.docs && r.value.id < c.nextId && r.value.record == c.docs[r.value.id] && r.value.record.name == name
    ensures r.None? ==> forall id :: id in c.docs && id < c.nextId ==> c.docs[id].name != name
  {
    var docs := Ascending(c.docs, c.nextId);
    assert forall id :: id in c.docs && id < c.nextId ==> Doc(id, c.docs[id]) in docs;
    First(docs, (d: Doc<Permission>) => d.record.name == name)
  }

  /** `findOneAndUpdate({ name: p.name }, p, { upsert: true })`: the permission holding the name
      is overwritten with `p`, or `p` is inserted under a fresh id. The catalogue's values are
      already in cast form, so the setters leave both the query and the update as written. */
  function Upserted(c: Collection<Permission>, p: Permission): Collection<Permission> {
    var id := match FindPermissionNamed(c, p.name) case Some(d) => d.id case None => c.nextId;
    Collection(c.docs[id := p], if id == c.nextId then c.nextId + 1 else c.nextId)
  }

  /** Some stored permission is `p` as it is. */
  predicate Holds(c: Collection<Permission>, p: Permission) {
    exists id :: id in c.docs && c.docs[id] == p
  }

  /** An upsert stores `p`, keeps every id and draws at most one new one, and leaves the
      permissions under other names as they were. */
  lemma UpsertedStores(c: Collection<Permission>, p: Permission)
    requires Drawn(c)
    ensures var r := Upserted(c, p);
      && Holds(r, p) && Drawn(r) && c.docs.Keys <= r.docs.Keys && c.nextId <= r.nextId
      && forall id :: id in c.docs && c.docs[id].name != p.name ==> r.docs[id] == c.docs[id]
  {
    var id := match FindPermissionNamed(c, p.name) case Some(d) => d.id case None => c.nextId;
    assert Upserted(c, p).docs[id] == p;
  }

  /** An upsert keeps the names unique. */
  lemma UpsertedKeepsNamesUnique(c: Collection<Permission>, p: Permission)
    requires Drawn(c) && PermissionNamesUnique(c.docs)
    ensures PermissionNamesUnique(Upserted(c, p).docs)
  {
    match FindPermissionNamed(c, p.name)
    case Some(d) => PutKeepsPermissionNamesUnique(c.docs, d.id, p);
    case None => PutKeepsPermissionNamesUnique(c.docs, c.nextId, p);
  }

  /** The permission loop: one upsert per entry, in order. */
  function SeededPermissions(c: Collection<Permission>, ps: seq<Permission>): Collection<Permission>
    decreases |ps|
  {
    if ps == [] then c else SeededPermissions(Upserted(c, ps[0]), ps[1..])
  }

  lemma {:induction false} SeedKeepsNamesUnique(c: Collection<Permission>, ps: seq<Permission>)
    requires Drawn(c) && PermissionNamesUnique(c.docs)
    ensures Drawn(SeededPermissions(c, ps)) && PermissionNamesUnique(SeededPermissions(c, ps).docs)
    decreases |ps|
  {
    if ps != [] {
      UpsertedStores(c, ps[0]);
      UpsertedKeepsNamesUnique(c, ps[0]);
      SeedKeepsNamesUnique(Upserted(c, ps[0]), ps[1..]);
    }
  }

  /** Upserts under other names leave a stored permission as it is. */
  lemma {:induction false} SeedLeavesOthers(c: Collection<Permission>, ps: seq<Permission>, id: Id)
    requires Drawn(c) && id in c.docs
    requires forall q :: q in ps ==> q.name != c.docs[id].name
    ensures id in SeededPermissions(c, ps).docs && SeededPermissions(c, ps).docs[id] == c.docs[id]
    decreases |ps|
  {
    if ps != [] {
      UpsertedStores(c, ps[0]);
      SeedLeavesOthers(Upserted(c, ps[0]), ps[1..], id);
    }
  }

  /** After the loop every entry of a list with distinct names is stored as it is. */
  lemma {:induction false} SeedStoresEach(c: Collection<Permission>, ps: seq<Permission>)
    requires Drawn(c) && NoDuplicates(Names(ps))
    ensures forall k :: 0 <= k < |ps| ==> Holds(SeededPermissions(c, ps), ps[k])
    decreases |ps|
  {
    if ps != [] {
      UpsertedStores(c, ps[0]);
      var c' := Upserted(c, ps[0]);
      var rest := ps[1..];
      HeadNameFresh(ps);
      SeedStoresEach(c', rest);
      var id :| id in c'.docs && c'.docs[id] == ps[0];
      SeedLeavesOthers(c', rest, id);
      var r := SeededPermissions(c, ps);
      assert r == SeededPermissions(c', rest);
      assert id in r.docs && r.docs[id] == ps[0];
      forall k | 1 <= k < |ps| ensures Holds(r, ps[k]) {
        assert ps[k] == rest[k - 1];
      }
    }
  }

  /** Under distinct names, no later entry shares the first one's name. */
  lemma HeadNameFresh(ps: seq<Permission>)
    requires ps != [] && NoDuplicates(Names(ps))
    ensures NoDuplicates(Names(ps[1..]))
    ensures forall q :: q in ps[1..] ==> q.name != ps[0].name
  {
    var rest := ps[1..];
    assert Names(rest) == Names(ps)[1..];
    forall q | q in rest ensures q.name != ps[0].name {
      var k :| 0 <= k < |rest| && rest[k] == q;
      assert Names(ps)[0] != Names(ps)[k + 1];
    }
  }

  /** Once every entry is stored under unique names, running the loop again changes nothing. */
  lemma {:induction false} SeedOfSeeded(t: Collection<Permission>, ps: seq<Permission>)
    requires Drawn(t) && PermissionNamesUnique(t.docs)
    requires forall k :: 0 <= k < |ps| ==> Holds(t, ps[k])
    ensures SeededPermissions(t, ps) == t
    decreases |ps|
  {
    if ps != [] {
      var p := ps[0];
      assert Holds(t, p);
      var id :| id in t.docs && t.docs[id] == p;
      var found := FindPermissionNamed(t, p.name);
      assert found.Some?;
      assert found.value.id == id;
      assert t.docs[id := p] == t.docs;
      assert Upserted(t, p) == t;
      assert forall k :: 0 <= k < |ps[1..]| ==> ps[1..][k] == ps[k + 1];
      SeedOfSeeded(t, ps[1..]);
    }
  }

  /** Re-running the loop over a list with distinct names leaves the store as the first run left
      it: one record per name, and no new ids drawn. */
  lemma SeedTwiceIsSeedOnce(c: Collection<Permission>, ps: seq<Permission>)
    requires Drawn(c) && PermissionNamesUnique(c.docs) && NoDuplicates(Names(ps))
    ensures SeededPermissions(SeededPermissions(c, ps), ps) == SeededPermissions(c, ps)
  {
    var t := SeededPermissions(c, ps);
    SeedKeepsNamesUnique(c, ps);
    SeedStoresEach(c, ps);
    SeedOfSeeded(t, ps);
  }

  /** Re-running the permission seed changes nothing. */
  lemma SeedPermissionsIdempotent(c: Collection<Permission>)
    requires Drawn(c) && PermissionNamesUnique(c.docs)
    ensures SeededPermissions(SeededPermissions(c, Catalogue), Catalogue) == SeededPermissions(c, Catalogue)
  {
    CatalogueNamesDistinct();
    SeedTwiceIsSeedOnce(c, Catalogue);
  }

  /** One catalogue upsert against the store. */
  method UpsertPermission(db: Db, p: Permission)
    requires db.Valid()
    modifies db
    ensures db.Valid()
    ensures Collection(db.permissions, db.nextId) == Upserted(Collection(old(db.permissions), old(db.nextId)), p)
    ensures db.roles == old(db.roles) && db.users == old(db.users)
  {
    var found := FindPermissionNamed(Collection(db.permissions, db.nextId), p.name);
    if found.Some? {
      db.ReplacePermission(found.value.id, p);
    } else {
      var _ := db.InsertPermission(p);
    }
  }

  /** The `for` loop of `seedPermissions()`: the entries upserted one by one, in order. */
  method UpsertPermissions(db: Db, ps: seq<Permission>)
    requires db.Valid()
    modifies db
    ensures db.Valid()
    ensures Collection(db.permissions, db.nextId) == SeededPermissions(Collection(old(db.permissions), old(db.nextId)), ps)
    ensures db.roles == old(db.roles) && db.users == old(db.users)
  {
    ghost var start := Collection(db.permissions, db.nextId);
    var i := 0;
    while i < |ps|
      invariant 0 <= i <= |ps|
      invariant db.Valid()
      invariant SeededPermissions(Collection(db.permissions, db.nextId), ps[i..]) == SeededPermissions(start, ps)
      invariant db.roles == old(db.roles) && db.users == old(db.users)
    {
      assert ps[i..][1..] == ps[i + 1..];
      UpsertPermission(db, ps[i]);
      i := i + 1;
    }
  }

  /** `seedPermissions()`. */
  method SeedPermissions(db: Db)
    requires db.Valid()
    modifies db
    ensures db.Valid()
    ensures Collection(db.permissions, db.nextId) == SeededPermissions(Collection(old(db.permissions), old(db.nextId)), Catalogue)
    ensures db.roles == old(db.roles) && db.users == old(db.users)
  {
    UpsertPermissions(db, Catalogue);
  }

  // ---------------------------------------------------------------- the three roles

  const UserRole := "USER"

  datatype RoleSeed = RoleSeed(name: string, description: string, permissions: seq<Id>)

  function OfResource(all: seq<Doc<Permission>>, resource: string): seq<Doc<Permission>> {
    Filter(all, (d: Doc<Permission>) => d.record.resource == resource)
  }

  function WithAction(s: seq<Doc<Permission>>, a: Action): seq<Doc<Permission>> {
    Filter(s, (d: Doc<Permission>) => d.record.action == a)
  }

  function SuperAdminPermissions(all: seq<Doc<Permission>>): seq<Id> {
    Ids(all)
  }

  function AdminPermissions(all: seq<Doc<Permission>>): seq<Id> {
    Ids(Filter(OfResource(all, "USER"), (d: Doc<Permission>) => !Contains(d.record.name, "DELETE")))
      + Ids(WithAction(OfResource(all, "ROLE"), Read))
      + Ids(WithAction(OfResource(all, "PERMISSION"), Read))
      + Ids(OfResource(all, "DASHBOARD"))
  }

  function UserPermissions(all: seq<Doc<Permission>>): seq<Id> {
    Ids(WithAction(OfResource(all, "PERMISSION"), Read)) + Ids(WithAction(OfResource(all, "DASHBOARD"), Read))
  }

  /** The role list, built from `Permission.find()`. */
  function RoleSeeds(all: seq<Doc<Permission>>): (r: seq<RoleSeed>)
    ensures |r| == 3 && r[0].name == SuperAdmin && r[1].name == Admin && r[2].name == UserRole
  {
    [RoleSeed(SuperAdmin, "Super Administrator with full access", SuperAdminPermissions(all)),
     RoleSeed(Admin, "Administrator with most permissions", AdminPermissions(all)),
     RoleSeed(UserRole, "Regular user with basic permissions", UserPermissions(all))]
  }

  /** An id taken from a filtered listing belongs to a document of the listing that passes the
      filter. */
  lemma InIds(s: seq<Doc<Permission>>, id: Id)
    requires id in Ids(s)
    ensures exists d :: d in s && d.id == id
  {
    var k :| 0 <= k < |s| && Ids(s)[k] == id;
    assert s[k] in s;
  }

  lemma SameIdSameDoc(all: seq<Doc<Permission>>, d: Doc<Permission>, e: Doc<Permission>)
    requires IncreasingIds(all) && d in all && e in all && d.id == e.id
    ensures d == e
  {
    var i :| 0 <= i < |all| && all[i] == d;
    var j :| 0 <= j < |all| && all[j] == e;
    assert i == j;
  }

  /** SUPER_ADMIN receives every permission of the listing. */
  lemma SuperAdminHasAll(all: seq<Doc<Permission>>)
    ensures forall d :: d in all ==> d.id in SuperAdminPermissions(all)
  {
    forall d | d in all ensures d.id in SuperAdminPermissions(all) {
      var k :| 0 <= k < |all| && all[k] == d;
      assert Ids(all)[k] == d.id;
    }
  }

  /** Every id granted to ADMIN is granted to SUPER_ADMIN. */
  lemma AdminWithinSuperAdmin(all: seq<Doc<Permission>>)
    ensures forall id :: id in AdminPermissions(all) ==> id in SuperAdminPermissions(all)
  {
    SuperAdminHasAll(all);
    var p1 := Filter(OfResource(all, "USER"), (d: Doc<Permission>) => !Contains(d.record.name, "DELETE"));
    var p2 := WithAction(OfResource(all, "ROLE"), Read);
    var p3 := WithAction(OfResource(all, "PERMISSION"), Read);
    var p4 := OfResource(all, "DASHBOARD");
    forall id | id in AdminPermissions(all) ensures id in SuperAdminPermissions(all) {
      if id in Ids(p1) { InIds(p1, id); }
      else if id in Ids(p2) { InIds(p2, id); }
      else if id in Ids(p3) { InIds(p3, id); }
      else { InIds(p4, id); }
    }
  }

  /** Every id granted to USER is granted to ADMIN. */
  lemma UserWithinAdmin(all: seq<Doc<Permission>>)
    ensures forall id :: id in UserPermissions(all) ==> id in AdminPermissions(all)
  {
    var p4 := OfResource(all, "DASHBOARD");
    var q := WithAction(p4, Read);
    forall id | id in Ids(q) ensures id in Ids(p4) {
      InIds(q, id);
      var d :| d in q && d.id == id;
      var k :| 0 <= k < |p4| && p4[k] == d;
      assert Ids(p4)[k] == id;
    }
  }

  /** Of the ROLE permissions, ADMIN holds only READ ones. */
  lemma AdminReadsRolesOnly(all: seq<Doc<Permission>>)
    requires IncreasingIds(all)
    ensures forall d :: d in all && d.id in AdminPermissions(all) && d.record.resource == "ROLE" ==> d.record.action == Read
  {
    var p1 := Filter(OfResource(all, "USER"), (d: Doc<Permission>) => !Contains(d.record.name, "DELETE"));
    var p2 := WithAction(OfResource(all, "ROLE"), Read);
    var p3 := WithAction(OfResource(all, "PERMISSION"), Read);
    var p4 := OfResource(all, "DASHBOARD");
    forall d | d in all && d.id in AdminPermissions(all) && d.record.resource == "ROLE" ensures d.record.action == Read {
      var part := if d.id in Ids(p1) then p1 else if d.id in Ids(p2) then p2 else if d.id in Ids(p3) then p3 else p4;
      InIds(part, d.id);
      var e :| e in part && e.id == d.id;
      SameIdSameDoc(all, d, e);
    }
  }

  /** Over a store that holds catalogue entries only, ADMIN holds no DELETE permission. */
  lemma AdminDeletesNothing(all: seq<Doc<Permission>>)
    requires IncreasingIds(all)
    requires forall d :: d in all ==> d.record in Catalogue
    ensures forall d :: d in all && d.id in AdminPermissions(all) ==> d.record.action != Delete
  {
    CatalogueDeletes();
    var p1 := Filter(OfResource(all, "USER"), (d: Doc<Permission>) => !Contains(d.record.name, "DELETE"));
    var p2 := WithAction(OfResource(all, "ROLE"), Read);
    var p3 := WithAction(OfResource(all, "PERMISSION"), Read);
    var p4 := OfResource(all, "DASHBOARD");
    forall d | d in all && d.id in AdminPermissions(all) ensures d.record.action != Delete {
      var part := if d.id in Ids(p1) then p1 else if d.id in Ids(p2) then p2 else if d.id in Ids(p3) then p3 else p4;
      InIds(part, d.id);
      var e :| e in part && e.id == d.id;
      SameIdSameDoc(all, d, e);
    }
  }

  // ---------------------------------------------------------------- the role upserts

  /** The update a role seed sends: the whole seed, `permissions` included. */
  function SeedUpdate(s: RoleSeed): RoleUpdate {
    RoleUpdate(Some(s.name), Some(s.description), Some(s.permissions))
  }

  /** `Role.findOneAndUpdate({ name }, seed, { upsert: true })` once the update hook lets it
      through: the find hook hides soft-deleted roles from the lookup, so the visible role with
      the name is updated; with none, a new role is inserted, which the unique index refuses
      when a soft-deleted role holds the name. */
  function UpsertedRole(c: Collection<Role>, s: RoleSeed): Result<Collection<Role>> {
    match FindOne(c.docs, c.nextId, RoleQuery(None, None, Some(s.name)))
    case Some(d) => Ok(Collection(c.docs[d.id := ApplyUpdate(d.record, SeedUpdate(s))], c.nextId))
    case None =>
      if NameHeldByOther(c.docs, Normalize(s.name), None) then Err(DuplicateKey("name"))
      else Ok(Collection(c.docs[c.nextId := Role(Normalize(s.name), Trim(s.description), s.permissions, false, None, None)], c.nextId + 1))
  }

  /** The collection holds a visible role carrying the seed as the setters cast it. */
  predicate HoldsSeed(c: Collection<Role>, s: RoleSeed) {
    exists id :: id in c.docs && SeedRecord(c.docs[id], s)
  }

  predicate SeedRecord(r: Role, s: RoleSeed) {
    r.name == Normalize(s.name) && r.description == Trim(s.description) && r.permissions == s.permissions && Visible(r)
  }

  /** The upsert of a role seed is refused exactly when soft-deleted roles, and only they, hold
      the name, and then by the unique index. */
  lemma UpsertedRoleRefused(c: Collection<Role>, s: RoleSeed)
    requires Drawn(c)
    ensures UpsertedRole(c, s).Err? <==>
      && NameHeldByOther(c.docs, Normalize(s.name), None)
      && forall id :: id in c.docs && c.docs[id].name == Normalize(s.name) ==> !Visible(c.docs[id])
    ensures UpsertedRole(c, s).Err? ==> UpsertedRole(c, s).error == DuplicateKey("name")
  {
    var q := RoleQuery(None, None, Some(s.name));
    var f := FindOne(c.docs, c.nextId, q);
    if f.None? {
      forall id | id in c.docs && c.docs[id].name == Normalize(s.name) ensures !Visible(c.docs[id]) {
        assert QueryMatches(q, Doc(id, c.docs[id]));
      }
    }
  }

  /** An upsert that goes through stores the seed, leaves roles under other names as they were
      and keeps the names unique. */
  lemma UpsertedRoleStoresSeed(c: Collection<Role>, s: RoleSeed)
    requires Drawn(c) && RoleNamesUnique(c.docs)
    ensures UpsertedRole(c, s).Ok? ==>
      && var r := UpsertedRole(c, s).value;
      && HoldsSeed(r, s) && Drawn(r) && RoleNamesUnique(r.docs) && c.nextId <= r.nextId
      && (NoneDeleted(c) ==> NoneDeleted(r))
      && (forall id :: id in c.docs && c.docs[id].name != Normalize(s.name) ==> id in r.docs && r.docs[id] == c.docs[id])
  {
    var f := FindOne(c.docs, c.nextId, RoleQuery(None, None, Some(s.name)));
    if f.Some? {
      var d := f.value;
      WriteStoresSeed(c, s, d.id, ApplyUpdate(d.record, SeedUpdate(s)));
    } else if !NameHeldByOther(c.docs, Normalize(s.name), None) {
      WriteStoresSeed(c, s, c.nextId, Role(Normalize(s.name), Trim(s.description), s.permissions, false, None, None));
    }
  }

  /** Writing the seed's record under the id that holds its name, or under a fresh id. */
  lemma WriteStoresSeed(c: Collection<Role>, s: RoleSeed, id: Id, w: Role)
    requires Drawn(c) && RoleNamesUnique(c.docs) && SeedRecord(w, s)
    requires id == c.nextId || (id in c.docs && c.docs[id].name == w.name)
    requires id == c.nextId ==> !NameHeldByOther(c.docs, w.name, None)
    ensures var r := Collection(c.docs[id := w], if id == c.nextId then c.nextId + 1 else c.nextId);
      && HoldsSeed(r, s) && Drawn(r) && RoleNamesUnique(r.docs) && (NoneDeleted(c) ==> NoneDeleted(r))
      && (forall x :: x in c.docs && c.docs[x].name != w.name ==> x in r.docs && r.docs[x] == c.docs[x])
  {
    var r := Collection(c.docs[id := w], if id == c.nextId then c.nextId + 1 else c.nextId);
    assert id in r.docs && SeedRecord(r.docs[id], s);
    PutKeepsNamesUnique(c.docs, id, w);
  }

  /** No role of the collection is soft-deleted. */
  predicate NoneDeleted(c: Collection<Role>) {
    forall id :: id in c.docs ==> Visible(c.docs[id])
  }

  /** A collection already holding the seed is left as it is. */
  lemma UpsertedRoleOfHeld(c: Collection<Role>, s: RoleSeed)
    requires Drawn(c) && RoleNamesUnique(c.docs) && HoldsSeed(c, s)
    ensures UpsertedRole(c, s) == Ok(c)
  {
    var id :| id in c.docs && SeedRecord(c.docs[id], s);
    var f := FindOne(c.docs, c.nextId, RoleQuery(None, None, Some(s.name)));
    assert QueryMatches(RoleQuery(None, None, Some(s.name)), Doc(id, c.docs[id]));
    assert f.Some? && f.value.id == id;
    assert c.docs[id := ApplyUpdate(c.docs[id], SeedUpdate(s))] == c.docs;
  }

  /** Where the role loop stopped: the collection as it stands, and the error that ended it. */
  datatype Run<T> = Run(store: Collection<T>, error: Option<Error>)

  /** `Role.findOneAndUpdate({ name }, seed, …)` as the schema's hooks run it: the update hook
      sees the query's `name` and the seed's `permissions` before the upsert. */
  function UpsertedRoleAsWritten(c: Collection<Role>, s: RoleSeed): Result<Collection<Role>> {
    match UpdateHook(RoleQuery(None, None, Some(s.name)), SeedUpdate(s))
    case Some(e) => Err(e)
    case None => UpsertedRole(c, s)
  }

  /** The `for` loop of `seedRoles`: one upsert per seed, in order; the first failure ends the
      loop with the earlier writes kept. `hooked` chooses the upsert as the hooks run it. */
  function SeededRoles(c: Collection<Role>, seeds: seq<RoleSeed>, hooked: bool): Run<Role>
    decreases |seeds|
  {
    if seeds == [] then Run(c, None)
    else match (if hooked then UpsertedRoleAsWritten(c, seeds[0]) else UpsertedRole(c, seeds[0]))
      case Err(e) => Run(c, Some(e))
      case Ok(c') => SeededRoles(c', seeds[1..], hooked)
  }

  /** As the hooks run it, the role seed is refused at its first entry, SUPER_ADMIN, since that
      update carries `permissions`: no role is written and the error ends the run. */
  lemma SeedRolesAsWrittenIsRefused(c: Collection<Role>, all: seq<Doc<Permission>>)
    ensures SeededRoles(c, RoleSeeds(all), true) == Run(c, Some(Thrown("Cannot modify admin role permissions")))
  {
    var seeds := RoleSeeds(all);
    assert IsProtected(seeds[0].name);
  }

  /** The role loop keeps the names unique and draws ids from the counter; the only error that
      can end it is the unique index's. */
  lemma {:induction false} SeededRolesKeepNamesUnique(c: Collection<Role>, seeds: seq<RoleSeed>)
    requires Drawn(c) && RoleNamesUnique(c.docs)
    ensures var run := SeededRoles(c, seeds, false);
      && Drawn(run.store) && RoleNamesUnique(run.store.docs)
      && (run.error.Some? ==> run.error.value == DuplicateKey("name"))
    decreases |seeds|
  {
    if seeds != [] {
      UpsertedRoleRefused(c, seeds[0]);
      UpsertedRoleStoresSeed(c, seeds[0]);
      var u := UpsertedRole(c, seeds[0]);
      if u.Ok? {
        SeededRolesKeepNamesUnique(u.value, seeds[1..]);
      }
    }
  }

  /** Once the role loop ends with no error, every seed whose name no later seed shares is
      stored. */
  lemma {:induction false} SeededRolesStoreEach(c: Collection<Role>, seeds: seq<RoleSeed>)
    requires Drawn(c) && RoleNamesUnique(c.docs)
    requires SeededRoles(c, seeds, false).error.None?
    ensures forall k :: 0 <= k < |seeds| && DistinctFrom(seeds, k) ==> HoldsSeed(SeededRoles(c, seeds, false).store, seeds[k])
    decreases |seeds|
  {
    if seeds != [] {
      UpsertedRoleStoresSeed(c, seeds[0]);
      var c' := UpsertedRole(c, seeds[0]).value;
      var rest := seeds[1..];
      var run := SeededRoles(c, seeds, false);
      assert run == SeededRoles(c', rest, false);
      SeededRolesStoreEach(c', rest);
      forall k | 0 <= k < |seeds| && DistinctFrom(seeds, k) ensures HoldsSeed(run.store, seeds[k]) {
        if k == 0 {
          var id :| id in c'.docs && SeedRecord(c'.docs[id], seeds[0]);
          SeedLeftAlone(c', rest, id);
          assert SeedRecord(run.store.docs[id], seeds[0]);
        } else {
          assert rest[k - 1] == seeds[k];
          assert DistinctFrom(rest, k - 1);
        }
      }
    }
  }

  /** No seed after position `k` is cast to the same name as seed `k`. */
  predicate DistinctFrom(seeds: seq<RoleSeed>, k: nat)
    requires k < |seeds|
  {
    forall j :: k < j < |seeds| ==> Normalize(seeds[j].name) != Normalize(seeds[k].name)
  }

  /** Seeds under other names leave a stored role as it is. */
  lemma {:induction false} SeedLeftAlone(c: Collection<Role>, seeds: seq<RoleSeed>, id: Id)
    requires Drawn(c) && RoleNamesUnique(c.docs) && id in c.docs
    requires forall j :: 0 <= j < |seeds| ==> Normalize(seeds[j].name) != c.docs[id].name
    ensures id in SeededRoles(c, seeds, false).store.docs
    ensures SeededRoles(c, seeds, false).store.docs[id] == c.docs[id]
    decreases |seeds|
  {
    if seeds != [] {
      UpsertedRoleStoresSeed(c, seeds[0]);
      var u := UpsertedRole(c, seeds[0]);
      if u.Ok? {
        SeedLeftAlone(u.value, seeds[1..], id);
      }
    }
  }

  /** Once every seed is held, running the loop again changes nothing. */
  lemma {:induction false} SeededRolesOfHeld(c: Collection<Role>, seeds: seq<RoleSeed>)
    requires Drawn(c) && RoleNamesUnique(c.docs)
    requires forall k :: 0 <= k < |seeds| ==> HoldsSeed(c, seeds[k])
    ensures SeededRoles(c, seeds, false) == Run(c, None)
    decreases |seeds|
  {
    if seeds != [] {
      UpsertedRoleOfHeld(c, seeds[0]);
      SeededRolesOfHeld(c, seeds[1..]);
    }
  }

  /** A name of capitals and underscores is its own cast. */
  lemma CapitalsAreNormal(n: string)
    requires forall i :: 0 <= i < |n| ==> 'A' <= n[i] <= 'Z' || n[i] == '_'
    requires n != [] && n[0] != '_' && n[|n| - 1] != '_'
    ensures Normalize(n) == n
  {
    NormalOfNormal(n);
  }

  lemma SuperAdminIsCast() ensures Normalize(SuperAdmin) == SuperAdmin {
    CapitalsAreNormal(SuperAdmin);
  }

  lemma AdminIsCast() ensures Normalize(Admin) == Admin {
    CapitalsAreNormal(Admin);
  }

  lemma UserRoleIsCast() ensures Normalize(UserRole) == UserRole {
    CapitalsAreNormal(UserRole);
  }

  /** Over roles none of which is soft-deleted, the role loop runs to the end: the unique index
      only refuses a name that soft-deleted roles alone hold. */
  lemma {:induction false} SeededRolesComplete(c: Collection<Role>, seeds: seq<RoleSeed>)
    requires Drawn(c) && RoleNamesUnique(c.docs) && NoneDeleted(c)
    ensures SeededRoles(c, seeds, false).error.None?
    decreases |seeds|
  {
    if seeds != [] {
      UpsertedRoleRefused(c, seeds[0]);
      UpsertedRoleStoresSeed(c, seeds[0]);
      var u := UpsertedRole(c, seeds[0]);
      SeededRolesComplete(u.value, seeds[1..]);
    }
  }

  /** The three seeds are cast to three different names. */
  lemma RoleSeedNamesDistinct(all: seq<Doc<Permission>>)
    ensures forall k :: 0 <= k < 3 ==> DistinctFrom(RoleSeeds(all), k)
  {
    SuperAdminIsCast();
    AdminIsCast();
    UserRoleIsCast();
    SeedNamesDistinct(RoleSeeds(all));
  }

  lemma SeedNamesDistinct(seeds: seq<RoleSeed>)
    requires |seeds| == 3
    requires var a, b, c := Normalize(seeds[0].name), Normalize(seeds[1].name), Normalize(seeds[2].name);
      a != b && a != c && b != c
    ensures forall k :: 0 <= k < 3 ==> DistinctFrom(seeds, k)
  {
    assert DistinctFrom(seeds, 0) by {
      forall j | 0 < j < 3 ensures Normalize(seeds[j].name) != Normalize(seeds[0].name) {
        assert j == 1 || j == 2;
      }
    }
    assert DistinctFrom(seeds, 1) by {
      forall j | 1 < j < 3 ensures Normalize(seeds[j].name) != Normalize(seeds[1].name) {
        assert j == 2;
      }
    }
  }

  /** Re-running a role seed that completed changes nothing. */
  lemma SeedRolesIdempotent(c: Collection<Role>, all: seq<Doc<Permission>>)
    requires Drawn(c) && RoleNamesUnique(c.docs)
    requires SeededRoles(c, RoleSeeds(all), false).error.None?
    ensures var t := SeededRoles(c, RoleSeeds(all), false).store;
      SeededRoles(t, RoleSeeds(all), false) == Run(t, None)
  {
    var seeds := RoleSeeds(all);
    RoleSeedNamesDistinct(all);
    SeededRolesKeepNamesUnique(c, seeds);
    SeededRolesStoreEach(c, seeds);
    SeededRolesOfHeld(SeededRoles(c, seeds, false).store, seeds);
  }

  /** The ids of a listing drawn from the stored permissions, and so the ids every seed lists,
      are stored. */
  lemma SeedPermissionsStored(permissions: map<Id, Permission>, n: nat)
    ensures forall k, j :: 0 <= k < 3 && 0 <= j < |RoleSeeds(Ascending(permissions, n))[k].permissions| ==>
      RoleSeeds(Ascending(permissions, n))[k].permissions[j] in permissions
  {
    var all := Ascending(permissions, n);
    var seeds := RoleSeeds(all);
    SuperAdminHasAll(all);
    AdminWithinSuperAdmin(all);
    UserWithinAdmin(all);
    forall id | id in SuperAdminPermissions(all) ensures id in permissions {
      InIds(all, id);
    }
    forall k, j | 0 <= k < 3 && 0 <= j < |seeds[k].permissions| ensures seeds[k].permissions[j] in permissions {
      assert seeds[k].permissions[j] in seeds[k].permissions;
    }
  }

  /** One role seed upserted into the store. */
  method UpsertRole(db: Db, s: RoleSeed) returns (err: Option<Error>)
    requires db.Valid()
    requires forall k :: 0 <= k < |s.permissions| ==> s.permissions[k] in db.permissions
    modifies db
    ensures db.Valid()
    ensures match UpsertedRole(Collection(old(db.roles), old(db.nextId)), s)
      case Ok(c) => err == None && Collection(db.roles, db.nextId) == c
      case Err(e) => err == Some(e) && db.roles == old(db.roles) && db.nextId == old(db.nextId)
    ensures db.permissions == old(db.permissions) && db.users == old(db.users)
  {
    var found := FindOne(db.roles, db.nextId, RoleQuery(None, None, Some(s.name)));
    if found.Some? {
      var d := found.value;
      var w := ApplyUpdate(d.record, SeedUpdate(s));
      assert !NameHeldByOther(db.roles, w.name, Some(d.id));
      db.ReplaceRole(d.id, w);
    } else if NameHeldByOther(db.roles, Normalize(s.name), None) {
      return Some(DuplicateKey("name"));
    } else {
      var _ := db.InsertRole(Role(Normalize(s.name), Trim(s.description), s.permissions, false, None, None));
    }
    err := None;
  }

  /** `seedRoles()`: the three seeds built from `Permission.find()`, upserted one by one; the
      first failure ends the loop and is passed on. */
  method SeedRoles(db: Db) returns (err: Option<Error>)
    requires db.Valid()
    modifies db
    ensures db.Valid()
    ensures Run(Collection(db.roles, db.nextId), err) ==
      SeededRoles(Collection(old(db.roles), old(db.nextId)), RoleSeeds(Ascending(old(db.permissions), old(db.nextId))), false)
    ensures db.permissions == old(db.permissions) && db.users == old(db.users)
  {
    var seeds := RoleSeeds(Ascending(db.permissions, db.nextId));
    SeedPermissionsStored(db.permissions, db.nextId);
    ghost var goal := SeededRoles(Collection(db.roles, db.nextId), seeds, false);
    var i := 0;
    while i < |seeds|
      invariant 0 <= i <= |seeds|
      invariant db.Valid()
      invariant SeededRoles(Collection(db.roles, db.nextId), seeds[i..], false) == goal
      invariant db.permissions == old(db.permissions) && db.users == old(db.users)
    {
      assert seeds[i..][1..] == seeds[i + 1..];
      err := UpsertRole(db, seeds[i]);
      if err.Some? {
        return;
      }
      i := i + 1;
    }
    err := None;
  }

  // ---------------------------------------------------------------- the admin user

  const AdminName := "Super Admin"
  const AdminEmail := "admin@example.com"
  const AdminPhone := "9999999999"
  const AdminPassword := "admin123"

  /** Reading `_id` of the role the lookup did not find. */
  const NoSuperAdmin := "Cannot read properties of undefined (reading '_id')"

  /** `roles.find(r => r.name === 'SUPER_ADMIN')` over `Role.find()`: the first visible role, in
      natural order, named SUPER_ADMIN. */
  function SuperAdminRoleId(roles: map<Id, Role>, n: nat): (r: Result<Id>)
    ensures r.Ok? ==> r.value in roles && roles[r.value].name == SuperAdmin && Visible(roles[r.value])
    ensures r.Err? <==> forall id :: id in roles && id < n ==> !(roles[id].name == SuperAdmin && Visible(roles[id]))
    ensures r.Err? ==> r.error == Thrown(NoSuperAdmin)
  {
    var docs := Ascending(roles, n);
    assert forall id :: id in roles && id < n ==> Doc(id, roles[id]) in docs;
    match First(docs, (d: Doc<Role>) => Visible(d.record) && d.record.name == SuperAdmin)
    case Some(d) => Ok(d.id)
    case None => Err(Thrown(NoSuperAdmin))
  }

  /** The admin document the upsert writes: the seed's fields over the existing user, or over
      the defaults for a new one. The password is hashed by the seed itself, and the update
      bypasses the model's save hooks, so it is stored as hashed. */
  function AdminRecord(existing: Option<User>, roleId: Id, h: Hasher): (u: User)
    ensures u.name == AdminName && u.email == AdminEmail && u.phone == AdminPhone
    ensures u.password == h.hash(AdminPassword) && u.role == roleId
    ensures u.isActive && u.emailVerified && u.phoneVerified
    ensures existing.Some? ==> u.(name := existing.value.name, email := existing.value.email, phone := existing.value.phone,
                                  password := existing.value.password, role := existing.value.role, isActive := existing.value.isActive,
                                  emailVerified := existing.value.emailVerified, phoneVerified := existing.value.phoneVerified) == existing.value
    ensures existing.None? ==> u.image == None && u.lastLogin == None && !u.isDeleted && u.deletedAt == None && u.deletedBy == None
  {
    var base := match existing case Some(e) => e case None => NewUser(AdminName, AdminEmail, AdminPhone, AdminPassword, roleId, None, h);
    base.(name := AdminName, email := AdminEmail, phone := AdminPhone, password := h.hash(AdminPassword), role := roleId,
          emailVerified := true, phoneVerified := true, isActive := true)
  }

  /** `User.findOneAndUpdate({ email }, adminUser, { upsert: true })`: the user holding the
      admin email is overwritten, or the admin is inserted under a fresh id; the unique index
      on `phone` refuses either when another user holds the admin phone. */
  function SeededAdmin(c: Collection<User>, roleId: Id, h: Hasher): Result<Collection<User>> {
    match FindUser(c.docs, c.nextId, (d: Doc<User>) => d.record.email == AdminEmail)
    case Some(d) =>
      if IdentityTaken(c.docs, None, Some(AdminPhone), Some(d.id)) then Err(DuplicateKey("phone"))
      else Ok(Collection(c.docs[d.id := AdminRecord(Some(d.record), roleId, h)], c.nextId))
    case None =>
      if IdentityTaken(c.docs, None, Some(AdminPhone), None) then Err(DuplicateKey("phone"))
      else Ok(Collection(c.docs[c.nextId := AdminRecord(None, roleId, h)], c.nextId + 1))
  }

  /** The seeded admin: active, verified, holding the given role, and able to log in with the
      seed's password. */
  predicate IsSeededAdmin(u: User, roleId: Id, h: Hasher) {
    u.email == AdminEmail && u.isActive && u.emailVerified && u.phoneVerified && u.role == roleId
      && u.password == h.hash(AdminPassword)
  }

  /** The user the admin upsert looks up by email. */
  function AdminHolder(c: Collection<User>): Option<Doc<User>> {
    FindUser(c.docs, c.nextId, (d: Doc<User>) => d.record.email == AdminEmail)
  }

  /** Where the admin upsert writes: the admin email's holder, or a fresh id. */
  function AdminSlot(c: Collection<User>): Id {
    match AdminHolder(c) case Some(d) => d.id case None => c.nextId
  }

  /** The only user that can hold the admin email is the one the lookup finds, so when the
      upsert goes through, the admin's email and phone are held by no other user. */
  lemma AdminSlotIsFree(c: Collection<User>, roleId: Id, h: Hasher)
    requires Drawn(c) && IdentitiesUnique(c.docs)
    ensures SeededAdmin(c, roleId, h).Ok? ==>
      && var prior := match AdminHolder(c) case Some(d) => Some(d.record) case None => None;
      && SeededAdmin(c, roleId, h).value.docs == c.docs[AdminSlot(c) := AdminRecord(prior, roleId, h)]
      && SeededAdmin(c, roleId, h).value.nextId == (if AdminHolder(c).Some? then c.nextId else c.nextId + 1)
      && !IdentityTaken(c.docs, Some(AdminEmail), Some(AdminPhone), if AdminHolder(c).Some? then Some(AdminSlot(c)) else None)
  {
    var f := AdminHolder(c);
    if f.Some? {
      forall x | x in c.docs && c.docs[x].email == AdminEmail ensures x == f.value.id {}
    }
  }

  /** The admin upsert is refused exactly when a user other than the admin email's holder
      holds the admin phone, and then by the unique index on `phone`. */
  lemma SeededAdminRefused(c: Collection<User>, roleId: Id, h: Hasher)
    requires Drawn(c) && IdentitiesUnique(c.docs)
    ensures SeededAdmin(c, roleId, h).Err? ==> SeededAdmin(c, roleId, h).error == DuplicateKey("phone")
    ensures SeededAdmin(c, roleId, h).Err? <==>
      exists id :: id in c.docs && c.docs[id].phone == AdminPhone && c.docs[id].email != AdminEmail
  {
    var f := AdminHolder(c);
    var except := if f.Some? then Some(f.value.id) else None;
    if f.Some? {
      forall x | x in c.docs && c.docs[x].email == AdminEmail ensures x == f.value.id {}
    }
    if IdentityTaken(c.docs, None, Some(AdminPhone), except) {
      var x :| x in c.docs && Some(x) != except && c.docs[x].phone == AdminPhone;
      assert c.docs[x].email != AdminEmail;
    }
  }

  /** When the admin upsert goes through, the admin is stored, other users are left as they
      were, and the identities stay unique; the seed's password matches what is stored. */
  lemma SeededAdminStoresAdmin(c: Collection<User>, roleId: Id, h: Hasher)
    requires Drawn(c) && IdentitiesUnique(c.docs)
    ensures SeededAdmin(c, roleId, h).Ok? ==>
      && var r := SeededAdmin(c, roleId, h).value;
      && Drawn(r) && IdentitiesUnique(r.docs)
      && AdminSlot(c) in r.docs && IsSeededAdmin(r.docs[AdminSlot(c)], roleId, h)
      && (forall id :: id in c.docs && c.docs[id].email != AdminEmail ==> id in r.docs && r.docs[id] == c.docs[id])
    ensures Sound(h) ==> h.matches(AdminPassword, h.hash(AdminPassword))
  {
    if SeededAdmin(c, roleId, h).Ok? {
      AdminSlotIsFree(c, roleId, h);
      var id := AdminSlot(c);
      var u := AdminRecord(match AdminHolder(c) case Some(d) => Some(d.record) case None => None, roleId, h);
      AddKeepsIdentitiesUnique(c.docs, id, u);
    }
  }

  /** `seedAdminUser(roles)`. */
  method SeedAdminUser(db: Db, h: Hasher) returns (err: Option<Error>)
    requires db.Valid()
    modifies db
    ensures db.Valid()
    ensures match SuperAdminRoleId(old(db.roles), old(db.nextId))
      case Err(e) => err == Some(e) && db.users == old(db.users) && db.nextId == old(db.nextId)
      case Ok(roleId) =>
        match SeededAdmin(Collection(old(db.users), old(db.nextId)), roleId, h)
        case Ok(c) => err == None && Collection(db.users, db.nextId) == c
        case Err(e) => err == Some(e) && db.users == old(db.users) && db.nextId == old(db.nextId)
    ensures db.permissions == old(db.permissions) && db.roles == old(db.roles)
  {
    var roleId := SuperAdminRoleId(db.roles, db.nextId);
    if roleId.Err? {
      return Some(roleId.error);
    }
    var c := Collection(db.users, db.nextId);
    var next := SeededAdmin(c, roleId.value, h);
    if next.Err? {
      return Some(next.error);
    }
    AdminSlotIsFree(c, roleId.value, h);
    var found := AdminHolder(c);
    if found.Some? {
      db.ReplaceUser(found.value.id, AdminRecord(Some(found.value.record), roleId.value, h));
    } else {
      var _ := db.InsertUser(AdminRecord(None, roleId.value, h));
    }
    err := None;
  }

  /** A stored user is the seeded admin and holds the visible SUPER_ADMIN role. */
  predicate AdminSeeded(roles: map<Id, Role>, users: map<Id, User>, h: Hasher) {
    exists roleId, id :: (roleId in roles && roles[roleId].name == SuperAdmin && Visible(roles[roleId])
                          && id in users && IsSeededAdmin(users[id], roleId, h))
  }

  /** Over roles none of which is soft-deleted, the role seed completes and leaves a visible
      SUPER_ADMIN role for the admin user. */
  lemma SeededRolesHoldSuperAdmin(c: Collection<Role>, all: seq<Doc<Permission>>)
    requires Drawn(c) && RoleNamesUnique(c.docs) && NoneDeleted(c)
    ensures SeededRoles(c, RoleSeeds(all), false).error.None?
    ensures var t := SeededRoles(c, RoleSeeds(all), false).store;
      SuperAdminRoleId(t.docs, t.nextId).Ok?
  {
    var seeds := RoleSeeds(all);
    RoleSeedNamesDistinct(all);
    FirstSeedHeld(c, seeds);
    SuperAdminFound(SeededRoles(c, seeds, false).store, seeds[0]);
  }

  lemma FirstSeedHeld(c: Collection<Role>, seeds: seq<RoleSeed>)
    requires Drawn(c) && RoleNamesUnique(c.docs) && NoneDeleted(c)
    requires |seeds| > 0 && DistinctFrom(seeds, 0)
    ensures SeededRoles(c, seeds, false).error.None?
    ensures Drawn(SeededRoles(c, seeds, false).store)
    ensures HoldsSeed(SeededRoles(c, seeds, false).store, seeds[0])
  {
    SeededRolesComplete(c, seeds);
    SeededRolesKeepNamesUnique(c, seeds);
    SeededRolesStoreEach(c, seeds);
  }

  /** A collection holding the SUPER_ADMIN seed has a role to give the admin user. */
  lemma SuperAdminFound(t: Collection<Role>, s: RoleSeed)
    requires Drawn(t) && s.name == SuperAdmin && HoldsSeed(t, s)
    ensures SuperAdminRoleId(t.docs, t.nextId).Ok?
  {
    SuperAdminIsCast();
    var id :| id in t.docs && SeedRecord(t.docs[id], s);
    assert id < t.nextId && t.docs[id].name == SuperAdmin && Visible(t.docs[id]);
  }

  /** `seedDatabase()`: permissions, then roles, then the admin user; the first error ends the
      run and is what the script reports. */
  method SeedDatabase(db: Db, h: Hasher) returns (err: Option<Error>)
    requires db.Valid()
    modifies db
    ensures db.Valid()
    ensures db.permissions == SeededPermissions(Collection(old(db.permissions), old(db.nextId)), Catalogue).docs
    ensures err.None? ==> AdminSeeded(db.roles, db.users, h)
    // With no soft-deleted role and the admin phone held by nobody but the admin email's holder,
    // the run completes.
    ensures (&& NoneDeleted(Collection(old(db.roles), old(db.nextId)))
             && forall id :: id in old(db.users) && old(db.users)[id].phone == AdminPhone ==> old(db.users)[id].email == AdminEmail)
      ==> err.None?
  {
    SeedPermissions(db);
    ghost var roles0 := Collection(db.roles, db.nextId);
    if NoneDeleted(roles0) {
      SeededRolesHoldSuperAdmin(roles0, Ascending(db.permissions, db.nextId));
    }
    err := SeedRoles(db);
    if err.Some? {
      return;
    }
    ghost var before := Collection(db.users, db.nextId);
    var roleId := SuperAdminRoleId(db.roles, db.nextId);
    if roleId.Ok? {
      SeededAdminRefused(before, roleId.value, h);
    }
    err := SeedAdminUser(db, h);
    if err.None? {
      SeededAdminStoresAdmin(before, roleId.value, h);
      var id := AdminSlot(before);
      assert roleId.value in db.roles && id in db.users && IsSeededAdmin(db.users[id], roleId.value, h);
    }
  }
}
