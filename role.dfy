/** The role record of models/Role.js: its schema, the `softDelete` method, the `findActive`
    static and the three kinds of query pre-hook (the deleted filter on every find, the guard on
    `deleteOne`, and the guard on `findOneAndUpdate`/`updateOne`). */
module RoleModel {
  import opened Common
  import opened Text
  import opened Collections

  const SuperAdmin := "SUPER_ADMIN"
  const Admin := "ADMIN"
  const RoleNameMax := 50
  const RoleDescriptionMax := 200

  /** The two names the hooks and `softDelete` protect. */
  predicate IsProtected(name: string) {
    name == SuperAdmin || name == Admin
  }

  datatype Role = Role(
    name: string,
    description: string,
    permissions: seq<Id>,
    isDeleted: bool,
    deletedAt: Option<int>,
    deletedBy: Option<Id>)

  /** What the schema's validators accept: a required, uppercase, trimmed name of at most 50
      characters and a required, trimmed description of at most 200. */
  predicate ValidRole(r: Role) {
    && r.name != "" && IsNormal(r.name) && |r.name| <= RoleNameMax
    && r.description != "" && IsTrimmed(r.description) && |r.description| <= RoleDescriptionMax
  }

  /** The pre-hook on every find-family query: it adds `isDeleted: { $ne: true }`. */
  predicate Visible(r: Role) {
    !r.isDeleted
  }

  /** The name path's validators on a cast value. */
  predicate NameAccepted(n: string) { n != "" && |n| <= RoleNameMax }

  /** The description path's validators on a cast value. */
  predicate DescriptionAccepted(d: string) { d != "" && |d| <= RoleDescriptionMax }

  /** A new role document: the setters cast both inputs, the defaults fill the permission list and
      the soft-delete fields, and the validators run, name first. */
  function NewRole(name: string, description: string): (r: Result<Role>)
    ensures r.Ok? ==> ValidRole(r.value)
    ensures r.Ok? ==>
      && r.value.name == Normalize(name) && r.value.description == Trim(description)
      && r.value.permissions == [] && !r.value.isDeleted
      && r.value.deletedAt == None && r.value.deletedBy == None
    ensures r.Err? <==> !NameAccepted(Normalize(name)) || !DescriptionAccepted(Trim(description))
  {
    NormalizeIsNormal(name);
    var n, d := Normalize(name), Trim(description);
    if !NameAccepted(n) then Err(ValidationFailed("name"))
    else if !DescriptionAccepted(d) then Err(ValidationFailed("description"))
    else Ok(Role(n, d, [], false, None, None))
  }

  /** Uppercasing the name before `Role.create` makes no difference. */
  lemma NewRoleOfUpper(name: string, description: string)
    ensures NewRole(ToUpper(name), description) == NewRole(name, description)
  {
    NormalizeOfUpper(name);
  }

  /** `role.softDelete(deletedBy)`: refused for the protected names before any field is written;
      otherwise the role is marked deleted at `now` by `deletedBy` and nothing else changes. */
  function SoftDelete(r: Role, deletedBy: Option<Id>, now: int): (res: Result<Role>)
    ensures res.Err? <==> IsProtected(r.name)
    ensures res.Err? ==> res.error == Thrown("Cannot delete admin roles")
    ensures res.Ok? ==>
      && res.value.isDeleted && res.value.deletedAt == Some(now) && res.value.deletedBy == deletedBy
      && res.value.name == r.name && res.value.description == r.description
      && res.value.permissions == r.permissions
  {
    if IsProtected(r.name) then Err(Thrown("Cannot delete admin roles"))
    else Ok(r.(isDeleted := true, deletedAt := Some(now), deletedBy := deletedBy))
  }

  /** A soft-deleted role drops out of every default read. */
  lemma SoftDeleteHides(r: Role, deletedBy: Option<Id>, now: int)
    requires SoftDelete(r, deletedBy, now).Ok?
    ensures !Visible(SoftDelete(r, deletedBy, now).value)
  {
  }

  /** The query shapes the core issues against roles: `_id` equal to, `_id` `$ne`, and `name`. */
  datatype RoleQuery = RoleQuery(id: Option<Id>, notId: Option<Id>, name: Option<string>)

  /** A query on `name` is compared with the stored value after the path's setters cast it. */
  predicate QueryMatches(q: RoleQuery, d: Doc<Role>) {
    && (q.id.Some? ==> d.id == q.id.value)
    && (q.notId.Some? ==> d.id != q.notId.value)
    && (q.name.Some? ==> d.record.name == Normalize(q.name.value))
  }

  /** `Role.findOne(query)` (and `findById`) over the ids below `n`: the first visible match in
      natural order. */
  function FindOne(roles: map<Id, Role>, n: nat, q: RoleQuery): (r: Option<Doc<Role>>)
    ensures r.Some? ==>
      && r.value.id in roles && r.value.id < n && r.value.record == roles[r.value.id]
      && QueryMatches(q, r.value) && Visible(r.value.record)
    ensures r.None? ==>
      forall id :: id in roles && id < n ==> !(QueryMatches(q, Doc(id, roles[id])) && Visible(roles[id]))
  {
    var docs := Ascending(roles, n);
    var r := First(docs, (d: Doc<Role>) => QueryMatches(q, d) && Visible(d.record));
    assert r.None? ==> forall id :: id in roles && id < n ==> Doc(id, roles[id]) in docs;
    r
  }

  /** `findById(id)` finds the role exactly when it is stored and not soft-deleted. */
  lemma FindById(roles: map<Id, Role>, n: nat, id: Id)
    requires forall k :: k in roles ==> k < n
    ensures FindOne(roles, n, RoleQuery(Some(id), None, None)) ==
      if id in roles && Visible(roles[id]) then Some(Doc(id, roles[id])) else None
  {
  }

  /** Some role other than `except` that a default read sees already has the name `name`. */
  predicate NameInUse(roles: map<Id, Role>, name: string, except: Option<Id>) {
    exists id :: id in roles && Some(id) != except && Visible(roles[id]) && roles[id].name == name
  }

  /** `findOne({ name, _id: { $ne: except } })` finds something exactly when the name is in use. */
  lemma FindByName(roles: map<Id, Role>, n: nat, name: string, except: Option<Id>)
    requires forall k :: k in roles ==> k < n
    ensures FindOne(roles, n, RoleQuery(None, except, Some(name))).Some? <==> NameInUse(roles, Normalize(name), except)
  {
  }

  /** `Role.find(query)` over a listing, with the deleted filter of the find pre-hook. */
  function Find(docs: seq<Doc<Role>>, q: RoleQuery): (r: seq<Doc<Role>>)
    ensures forall d :: d in r <==> d in docs && QueryMatches(q, d) && !d.record.isDeleted
  {
    Filter(docs, (d: Doc<Role>) => QueryMatches(q, d) && Visible(d.record))
  }

  /** `Role.findActive(filter)`: the filter plus `isDeleted: false`, plus the find pre-hook. */
  function FindActive(docs: seq<Doc<Role>>, q: RoleQuery): (r: seq<Doc<Role>>)
    ensures forall d :: d in r ==> d in docs && QueryMatches(q, d) && d.record.isDeleted == false
  {
    Filter(docs, (d: Doc<Role>) => QueryMatches(q, d) && d.record.isDeleted == false && Visible(d.record))
  }

  /** Since `isDeleted` is a boolean, `findActive` and a plain find return the same roles. */
  lemma FindActiveIsFind(docs: seq<Doc<Role>>, q: RoleQuery)
    ensures FindActive(docs, q) == Find(docs, q)
  {
    FilterCongruent(docs,
      (d: Doc<Role>) => QueryMatches(q, d) && d.record.isDeleted == false && Visible(d.record),
      (d: Doc<Role>) => QueryMatches(q, d) && Visible(d.record));
  }

  /** The `deleteOne` pre-hook: it refuses a query whose `name` is exactly one of the protected
      names, as written in the query. */
  function DeleteOneHook(q: RoleQuery): (r: Option<Error>)
    ensures r.Some? <==> q.name.Some? && IsProtected(q.name.value)
    ensures r.Some? ==> r.value == Thrown("Cannot delete admin roles")
  {
    if q.name.Some? && IsProtected(q.name.value) then Some(Thrown("Cannot delete admin roles")) else None
  }

  /** The fields of a role update; `None` means the update does not mention the path. */
  datatype RoleUpdate = RoleUpdate(name: Option<string>, description: Option<string>, permissions: Option<seq<Id>>)

  /** The `findOneAndUpdate` and `updateOne` pre-hooks: they refuse an update that carries
      `permissions` when the query's `name` is a protected name. */
  function UpdateHook(q: RoleQuery, u: RoleUpdate): (r: Option<Error>)
    ensures r.Some? <==> q.name.Some? && IsProtected(q.name.value) && u.permissions.Some?
    ensures r.Some? ==> r.value == Thrown("Cannot modify admin role permissions")
  {
    if q.name.Some? && IsProtected(q.name.value) && u.permissions.Some? then
      Some(Thrown("Cannot modify admin role permissions"))
    else None
  }

  /** The hooks look at the query's `name` only, so a query by id alone always passes both. */
  lemma IdQueriesPassHooks(id: Id, u: RoleUpdate)
    ensures UpdateHook(RoleQuery(Some(id), None, None), u) == None
    ensures DeleteOneHook(RoleQuery(Some(id), None, None)) == None
  {
  }

  /** The hooks compare the name as written in the query, before casting: a lower-case spelling
      passes the `deleteOne` hook although it selects the SUPER_ADMIN document. */
  lemma DeleteHookIsCaseSensitive()
    ensures DeleteOneHook(RoleQuery(None, None, Some("super_admin"))) == None
    ensures Normalize("super_admin") == SuperAdmin
  {
    assert ToUpper("super_admin") == SuperAdmin;
    NormalOfNormal(SuperAdmin);
  }

  /** An update's paths after casting: `$set` of each path the update mentions. */
  function ApplyUpdate(r: Role, u: RoleUpdate): (r': Role)
    ensures r'.name == (if u.name.Some? then Normalize(u.name.value) else r.name)
    ensures r'.description == (if u.description.Some? then Trim(u.description.value) else r.description)
    ensures r'.permissions == (if u.permissions.Some? then u.permissions.value else r.permissions)
    ensures r'.isDeleted == r.isDeleted && r'.deletedAt == r.deletedAt && r'.deletedBy == r.deletedBy
  {
    r.(name := if u.name.Some? then Normalize(u.name.value) else r.name,
       description := if u.description.Some? then Trim(u.description.value) else r.description,
       permissions := if u.permissions.Some? then u.permissions.value else r.permissions)
  }

  /** `runValidators: true` on an update: only the paths the update mentions are validated. */
  function ValidateUpdate(u: RoleUpdate): (r: Option<Error>)
    ensures r.None? <==>
      && (u.name.Some? ==> NameAccepted(Normalize(u.name.value)))
      && (u.description.Some? ==> DescriptionAccepted(Trim(u.description.value)))
  {
    if u.name.Some? && !NameAccepted(Normalize(u.name.value)) then Some(ValidationFailed("name"))
    else if u.description.Some? && !DescriptionAccepted(Trim(u.description.value)) then Some(ValidationFailed("description"))
    else None
  }

  /** A validated update keeps a valid role valid. */
  lemma ValidatedUpdateKeepsValid(r: Role, u: RoleUpdate)
    requires ValidRole(r) && ValidateUpdate(u).None?
    ensures ValidRole(ApplyUpdate(r, u))
  {
    if u.name.Some? { NormalizeIsNormal(u.name.value); }
  }

  /** The unique index on `name` covers every document, soft-deleted ones included: is `name`
      held by a role other than `except`? */
  predicate NameHeldByOther(roles: map<Id, Role>, name: string, except: Option<Id>) {
    exists id :: id in roles && Some(id) != except && roles[id].name == name
  }

  predicate RoleNamesUnique(roles: map<Id, Role>) {
    forall a, b :: a in roles && b in roles && a != b ==> roles[a].name != roles[b].name
  }

  /** Writing role `id` with a name no other role holds keeps the names unique. */
  lemma PutKeepsNamesUnique(roles: map<Id, Role>, id: Id, r: Role)
    requires RoleNamesUnique(roles)
    requires !NameHeldByOther(roles, r.name, Some(id))
    ensures RoleNamesUnique(roles[id := r])
  {
    var m := roles[id := r];
    forall a, b | a in m && b in m && a != b
      ensures m[a].name != m[b].name
    {
      if a == id {
        assert b in roles && Some(b) != Some(id);
      } else if b == id {
        assert a in roles && Some(a) != Some(id);
      }
    }
  }

  /** Under unique names, no role but `id` itself holds the name of role `id`. */
  lemma OwnNameIsFree(roles: map<Id, Role>, id: Id)
    requires RoleNamesUnique(roles) && id in roles
    ensures !NameHeldByOther(roles, roles[id].name, Some(id))
  {
  }
}
