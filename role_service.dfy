/** services/RoleService.js: creating, listing, searching, reading, updating, soft-deleting roles
    and replacing a role's permission list, over the store. */
module RoleService {
  import opened Common
  import opened Text
  import opened Collections
  import opened PermissionModel
  import opened RoleModel
  import opened Store

  /** `createRole({ name, description })`: refused when a visible role already has the name;
      otherwise the new role is stored under a fresh id. The schema's validators and then the
      unique index (which also sees soft-deleted roles) can still refuse the insert. */
  method CreateRole(db: Db, name: string, description: string) returns (r: Result<Doc<Role>>)
    requires db.Valid()
    modifies db
    ensures db.Valid()
    ensures db.permissions == old(db.permissions) && db.users == old(db.users)
    ensures r == Err(HttpError(400, "Role already exists")) <==> NameInUse(old(db.roles), Normalize(name), None)
    ensures r.Ok? <==>
      && !NameInUse(old(db.roles), Normalize(name), None)
      && NewRole(name, description).Ok?
      && !NameHeldByOther(old(db.roles), Normalize(name), None)
    ensures !NameInUse(old(db.roles), Normalize(name), None) && NewRole(name, description).Err? ==>
      r == Err(NewRole(name, description).error)
    ensures (!NameInUse(old(db.roles), Normalize(name), None) && NewRole(name, description).Ok?
             && NameHeldByOther(old(db.roles), Normalize(name), None)) ==>
      r == Err(DuplicateKey("name"))
    ensures r.Ok? ==>
      && r.value == Doc(old(db.nextId), NewRole(name, description).value)
      && r.value.record.name == Normalize(name)
      && ValidRole(r.value.record)
      && db.roles == old(db.roles)[r.value.id := r.value.record]
      && db.nextId == old(db.nextId) + 1
    ensures r.Err? ==> db.roles == old(db.roles) && db.nextId == old(db.nextId)
  {
    var upper := ToUpper(name);
    NormalizeOfUpper(name);
    FindByName(db.roles, db.nextId, upper, None);
    var existing := FindOne(db.roles, db.nextId, RoleQuery(None, None, Some(upper)));
    if existing.Some? {
      return Err(HttpError(400, "Role already exists"));
    }
    NewRoleOfUpper(name, description);
    var created := NewRole(upper, description);
    if created.Err? {
      return Err(created.error);
    }
    var role := created.value;
    if NameHeldByOther(db.roles, role.name, None) {
      return Err(DuplicateKey("name"));
    }
    var id := db.InsertRole(role);
    r := Ok(Doc(id, role));
  }

  /** `getAllRoles()`: every visible role, newest first. */
  method GetAllRoles(db: Db) returns (rs: seq<Doc<Role>>)
    ensures forall d :: d in rs <==> d.id in db.roles && d.record == db.roles[d.id] && d.id < db.nextId && Visible(d.record)
    ensures DecreasingIds(rs)
  {
    var all := Descending(db.roles, db.nextId);
    rs := Find(all, RoleQuery(None, None, None));
    FilterKeepsDecreasing(all, (d: Doc<Role>) => QueryMatches(RoleQuery(None, None, None), d) && Visible(d.record));
  }

  /** The search's name condition: none when the filter is absent or empty, otherwise a
      case-insensitive substring match. */
  predicate NameFilterMatches(filter: Option<string>, r: Role) {
    !Truthy(filter) || ContainsIgnoreCase(r.name, filter.value)
  }

  /** The roles `Role.find(query)` returns for a search, newest first: the visible roles the
      name condition selects. */
  function SearchListing(roles: map<Id, Role>, n: nat, filter: Option<string>): (r: seq<Doc<Role>>)
    ensures forall d :: d in r <==> d.id in roles && d.id < n && d.record == roles[d.id] && Visible(d.record) && NameFilterMatches(filter, d.record)
    ensures DecreasingIds(r)
  {
    var all := Descending(roles, n);
    FilterKeepsDecreasing(all, (d: Doc<Role>) => NameFilterMatches(filter, d.record) && Visible(d.record));
    Filter(all, (d: Doc<Role>) => NameFilterMatches(filter, d.record) && Visible(d.record))
  }

  /** `Role.countDocuments(query)` as written: the find pre-hook does not apply to
      `countDocuments`, so soft-deleted roles the name condition selects are counted too. */
  function CountAsWritten(roles: map<Id, Role>, n: nat, filter: Option<string>): nat {
    |Filter(Descending(roles, n), (d: Doc<Role>) => NameFilterMatches(filter, d.record))|
  }

  /** The count as written never falls short of the listing, and agrees with it while no role
      has been soft-deleted. */
  lemma CountAsWrittenBounds(roles: map<Id, Role>, n: nat, filter: Option<string>)
    ensures CountAsWritten(roles, n, filter) >= |SearchListing(roles, n, filter)|
    ensures (forall id :: id in roles ==> Visible(roles[id])) ==>
      CountAsWritten(roles, n, filter) == |SearchListing(roles, n, filter)|
  {
    var all := Descending(roles, n);
    var p := (d: Doc<Role>) => NameFilterMatches(filter, d.record) && Visible(d.record);
    var q := (d: Doc<Role>) => NameFilterMatches(filter, d.record);
    FilterStrongerIsShorter(all, p, q);
    if forall id :: id in roles ==> Visible(roles[id]) {
      FilterCongruent(all, p, q);
    }
  }

  /** One soft-deleted role is enough for the count as written to disagree with the listing. */
  lemma CountAsWrittenIncludesDeleted()
    ensures var roles := map[0 := Role("EDITOR", "Edits content", [], true, Some(0), None)];
      CountAsWritten(roles, 1, None) == 1 && |SearchListing(roles, 1, None)| == 0
  {
    var roles := map[0 := Role("EDITOR", "Edits content", [], true, Some(0), None)];
    assert Descending(roles, 1) == [Doc(0, roles[0])];
  }

  datatype Pagination = Pagination(currentPage: nat, totalPages: nat, totalRecords: nat, limit: nat)
  datatype RolePage = RolePage(roles: seq<Doc<Role>>, pagination: Pagination)

  /** `searchRoles({ name }, page, limit)`, with `totalRecords` counting the roles the listing
      holds: page `page` of the matching visible roles, newest first. */
  method SearchRoles(db: Db, filter: Option<string>, page: nat, limit: nat) returns (res: RolePage)
    requires page >= 1 && limit >= 1
    ensures var all := SearchListing(db.roles, db.nextId, filter);
      && res.roles == Page(all, page, limit)
      && res.pagination == Pagination(page, CeilDiv(|all|, limit), |all|, limit)
    ensures |res.roles| <= limit && DecreasingIds(res.roles)
    ensures forall d :: d in res.roles ==>
      d.id in db.roles && d.record == db.roles[d.id] && Visible(d.record) && NameFilterMatches(filter, d.record)
  {
    var all := SearchListing(db.roles, db.nextId, filter);
    var total := |all|;
    var items := Page(all, page, limit);
    PageOfListing(all, page, limit);
    res := RolePage(items, Pagination(page, CeilDiv(total, limit), total, limit));
  }

  /** Every matching role is on one of the pages from 1 to `totalPages`. */
  lemma SearchPagesCoverMatches(roles: map<Id, Role>, n: nat, filter: Option<string>, limit: nat, i: nat)
    requires limit >= 1 && i < |SearchListing(roles, n, filter)|
    ensures var all := SearchListing(roles, n, filter);
      && 1 <= i / limit + 1 <= CeilDiv(|all|, limit)
      && all[i] in Page(all, i / limit + 1, limit)
  {
    var all := SearchListing(roles, n, filter);
    PageCovers(all, limit, i);
  }

  /** `getRoleById(id)`: the role when it is stored and not soft-deleted, 404 otherwise. */
  method GetRoleById(db: Db, id: Id) returns (r: Result<Doc<Role>>)
    requires db.Valid()
    ensures r.Ok? <==> id in db.roles && Visible(db.roles[id])
    ensures r.Ok? ==> r.value == Doc(id, db.roles[id])
    ensures r.Err? ==> r.error == HttpError(404, "Role not found")
  {
    FindById(db.roles, db.nextId, id);
    var found := FindOne(db.roles, db.nextId, RoleQuery(Some(id), None, None));
    if found.None? {
      return Err(HttpError(404, "Role not found"));
    }
    return Ok(found.value);
  }

  /** The update `updateRole` sends: the uppercased name when truthy, the description when
      truthy, never the permissions. */
  function UpdateOf(name: Option<string>, description: Option<string>): RoleUpdate {
    RoleUpdate(if Truthy(name) then Some(ToUpper(name.value)) else None, if Truthy(description) then description else None, None)
  }

  /** `updateRole(id, { name, description })`: 404 for a role a default read does not see;
      "Role name already exists" when the new name is that of a different visible role;
      otherwise `findByIdAndUpdate` with the validators on, which only the validators and the
      unique index can refuse. Permissions and the soft-delete fields are never touched, and
      nothing here protects the reserved names. */
  method UpdateRole(db: Db, id: Id, name: Option<string>, description: Option<string>) returns (r: Result<Doc<Role>>)
    requires db.Valid()
    modifies db
    ensures db.Valid()
    ensures db.permissions == old(db.permissions) && db.users == old(db.users) && db.nextId == old(db.nextId)
    ensures r == Err(HttpError(404, "Role not found")) <==> !(id in old(db.roles) && Visible(old(db.roles)[id]))
    ensures (id in old(db.roles) && Visible(old(db.roles)[id]) && Truthy(name)
             && NameInUse(old(db.roles), Normalize(name.value), Some(id))) ==>
      r == Err(HttpError(400, "Role name already exists"))
    ensures r.Ok? <==>
      && id in old(db.roles) && Visible(old(db.roles)[id])
      && ValidateUpdate(UpdateOf(name, description)).None?
      && (Truthy(name) ==> !NameHeldByOther(old(db.roles), Normalize(name.value), Some(id)))
    ensures r.Ok? ==>
      && r.value.id == id
      && r.value.record == ApplyUpdate(old(db.roles)[id], UpdateOf(name, description))
      && db.roles == old(db.roles)[id := r.value.record]
    ensures r.Err? ==> db.roles == old(db.roles)
    ensures r.Ok? && ValidRole(old(db.roles)[id]) ==> ValidRole(r.value.record)
    // Renaming a role to the name it already has is not a conflict.
    ensures (id in old(db.roles) && Visible(old(db.roles)[id]) && Truthy(name)
             && Normalize(name.value) == old(db.roles)[id].name && ValidateUpdate(UpdateOf(name, description)).None?) ==>
      r.Ok?
  {
    FindById(db.roles, db.nextId, id);
    var found := FindOne(db.roles, db.nextId, RoleQuery(Some(id), None, None));
    if found.None? {
      return Err(HttpError(404, "Role not found"));
    }
    OwnNameIsFree(db.roles, id);
    if Truthy(name) {
      var upper := ToUpper(name.value);
      NormalizeOfUpper(name.value);
      FindByName(db.roles, db.nextId, upper, Some(id));
      var clash := FindOne(db.roles, db.nextId, RoleQuery(None, Some(id), Some(upper)));
      if clash.Some? {
        return Err(HttpError(400, "Role name already exists"));
      }
    }
    if Truthy(name) {
      NormalizeOfUpper(name.value);
    }
    r := FindByIdAndUpdate(db, id, UpdateOf(name, description));
  }

  /** `Role.findByIdAndUpdate(id, u, { new: true, runValidators: true })` on a visible role:
      the update pre-hook (which a query by id always passes), the validators of the paths `u`
      sets, then the unique index on `name`. */
  method FindByIdAndUpdate(db: Db, id: Id, u: RoleUpdate) returns (r: Result<Doc<Role>>)
    requires db.Valid() && id in db.roles && Visible(db.roles[id]) && u.permissions.None?
    modifies db
    ensures db.Valid()
    ensures db.permissions == old(db.permissions) && db.users == old(db.users) && db.nextId == old(db.nextId)
    ensures r.Ok? <==>
      && ValidateUpdate(u).None?
      && (u.name.Some? ==> !NameHeldByOther(old(db.roles), Normalize(u.name.value), Some(id)))
    ensures r.Err? ==> r.error != HttpError(404, "Role not found") && r.error != HttpError(400, "Role name already exists")
    ensures r.Ok? ==>
      && r.value == Doc(id, ApplyUpdate(old(db.roles)[id], u))
      && db.roles == old(db.roles)[id := r.value.record]
    ensures r.Err? ==> db.roles == old(db.roles)
    ensures r.Ok? && ValidRole(old(db.roles)[id]) ==> ValidRole(r.value.record)
  {
    // The update pre-hook runs, and passes: it looks at the query's `name`, which a query by id
    // does not have.
    IdQueriesPassHooks(id, u);
    var invalid := ValidateUpdate(u);
    if invalid.Some? {
      return Err(invalid.value);
    }
    if u.name.Some? && NameHeldByOther(db.roles, Normalize(u.name.value), Some(id)) {
      return Err(DuplicateKey("name"));
    }
    var updated := ApplyUpdate(db.roles[id], u);
    if ValidRole(db.roles[id]) {
      ValidatedUpdateKeepsValid(db.roles[id], u);
    }
    db.ReplaceRole(id, updated);
    r := Ok(Doc(id, updated));
  }

  /** `deleteRole(id, deletedBy)`: 404 for a role a default read does not see, otherwise the
      role's `softDelete`, which refuses the reserved names. */
  method DeleteRole(db: Db, id: Id, deletedBy: Option<Id>, now: int) returns (r: Result<string>)
    requires db.Valid()
    modifies db
    ensures db.Valid()
    ensures db.permissions == old(db.permissions) && db.users == old(db.users) && db.nextId == old(db.nextId)
    ensures !(id in old(db.roles) && Visible(old(db.roles)[id])) ==>
      r == Err(HttpError(404, "Role not found")) && db.roles == old(db.roles)
    ensures id in old(db.roles) && Visible(old(db.roles)[id]) && IsProtected(old(db.roles)[id].name) ==>
      r == Err(Thrown("Cannot delete admin roles")) && db.roles == old(db.roles)
    ensures r.Ok? <==> id in old(db.roles) && Visible(old(db.roles)[id]) && !IsProtected(old(db.roles)[id].name)
    ensures r.Ok? ==>
      && r.value == "Role deleted successfully"
      && db.roles == old(db.roles)[id := SoftDelete(old(db.roles)[id], deletedBy, now).value]
      && !Visible(db.roles[id])
    ensures r.Ok? && ValidRole(old(db.roles)[id]) ==> ValidRole(db.roles[id])
  {
    FindById(db.roles, db.nextId, id);
    var found := FindOne(db.roles, db.nextId, RoleQuery(Some(id), None, None));
    if found.None? {
      return Err(HttpError(404, "Role not found"));
    }
    var deleted := SoftDelete(found.value.record, deletedBy, now);
    if deleted.Err? {
      return Err(deleted.error);
    }
    SoftDeleteHides(found.value.record, deletedBy, now);
    OwnNameIsFree(db.roles, id);
    db.ReplaceRole(id, deleted.value);
    return Ok("Role deleted successfully");
  }

  /** How many documents `Permission.find({ _id: { $in: ids } })` returns: each stored
      permission whose id occurs in `ids`, once. */
  function FoundCount(permissions: map<Id, Permission>, ids: seq<Id>): nat {
    |permissions.Keys * Elements(ids)|
  }

  predicate AllStored(permissions: map<Id, Permission>, ids: seq<Id>) {
    forall k :: 0 <= k < |ids| ==> ids[k] in permissions
  }

  /** The count check passes exactly when every id names a stored permission and no id repeats. */
  lemma FoundCountCheck(permissions: map<Id, Permission>, ids: seq<Id>)
    ensures FoundCount(permissions, ids) == |ids| <==> AllStored(permissions, ids) && NoDuplicates(ids)
  {
    var named := Elements(ids);
    var found := permissions.Keys * named;
    DistinctCount(ids);
    assert found <= named;
    assert |named| == |found| + |named - found| by {
      assert named == found + (named - found);
      assert found * (named - found) == {};
    }
    if AllStored(permissions, ids) {
      forall x | x in named ensures x in found {
        var k :| 0 <= k < |ids| && ids[k] == x;
      }
      assert found == named;
      if NoDuplicates(ids) {
        assert |named| == |ids|;
      }
    }
    if |found| == |ids| {
      assert |named| == |ids|;
      assert NoDuplicates(ids);
      assert named - found == {};
      forall k | 0 <= k < |ids| ensures ids[k] in permissions {
        assert ids[k] in named;
        assert ids[k] in found;
      }
    }
  }

  /** `setPermissions(id, permissionIds)`: 404 for a role a default read does not see; 400 when
      the lookup finds fewer documents than ids were given; otherwise the role's list becomes
      exactly `permissionIds`, written through `save()`, which no hook guards. */
  method SetPermissions(db: Db, id: Id, permissionIds: seq<Id>) returns (r: Result<Doc<Role>>)
    requires db.Valid()
    modifies db
    ensures db.Valid()
    ensures db.permissions == old(db.permissions) && db.users == old(db.users) && db.nextId == old(db.nextId)
    ensures !(id in old(db.roles) && Visible(old(db.roles)[id])) ==>
      r == Err(HttpError(404, "Role not found"))
    ensures id in old(db.roles) && Visible(old(db.roles)[id]) && !(AllStored(old(db.permissions), permissionIds) && NoDuplicates(permissionIds)) ==>
      r == Err(HttpError(400, "One or more permissions not found"))
    ensures r.Ok? <==>
      id in old(db.roles) && Visible(old(db.roles)[id]) && AllStored(old(db.permissions), permissionIds) && NoDuplicates(permissionIds)
    ensures r.Ok? ==>
      && r.value == Doc(id, old(db.roles)[id].(permissions := permissionIds))
      && db.roles == old(db.roles)[id := r.value.record]
    ensures r.Err? ==> db.roles == old(db.roles)
    ensures r.Ok? && ValidRole(old(db.roles)[id]) ==> ValidRole(r.value.record)
  {
    FindById(db.roles, db.nextId, id);
    var found := FindOne(db.roles, db.nextId, RoleQuery(Some(id), None, None));
    if found.None? {
      return Err(HttpError(404, "Role not found"));
    }
    FoundCountCheck(db.permissions, permissionIds);
    if FoundCount(db.permissions, permissionIds) != |permissionIds| {
      return Err(HttpError(400, "One or more permissions not found"));
    }
    var role := found.value.record.(permissions := permissionIds);
    OwnNameIsFree(db.roles, id);
    db.ReplaceRole(id, role);
    FindById(db.roles, db.nextId, id);
    var reread := FindOne(db.roles, db.nextId, RoleQuery(Some(id), None, None));
    return Ok(reread.value);
  }
}
