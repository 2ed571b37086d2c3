/** services/PermissionService.js: the sorted permission catalogue and a user's effective
    permissions. Both only read the store. */
module PermissionService {
  import opened Common
  import opened Text
  import opened Collections
  import opened PermissionModel
  import opened RoleModel
  import opened UserModel

  /** `sort({ resource: 1, action: 1 })`: by resource, then by action, both compared as strings.
      Documents with the same key keep their natural (insertion) order. */
  predicate Precedes(a: Doc<Permission>, b: Doc<Permission>) {
    if a.record.resource != b.record.resource then StrLe(a.record.resource, b.record.resource)
    else if ActionName(a.record.action) != ActionName(b.record.action) then
      StrLe(ActionName(a.record.action), ActionName(b.record.action))
    else a.id <= b.id
  }

  lemma PrecedesTotal(a: Doc<Permission>, b: Doc<Permission>)
    ensures Precedes(a, b) || Precedes(b, a)
  {
    StrLeTotal(a.record.resource, b.record.resource);
    StrLeTotal(ActionName(a.record.action), ActionName(b.record.action));
  }

  lemma PrecedesTransitive(a: Doc<Permission>, b: Doc<Permission>, c: Doc<Permission>)
    requires Precedes(a, b) && Precedes(b, c)
    ensures Precedes(a, c)
  {
    var ra, rb, rc := a.record.resource, b.record.resource, c.record.resource;
    var xa, xb, xc := ActionName(a.record.action), ActionName(b.record.action), ActionName(c.record.action);
    if ra != rb && rb != rc {
      StrLeTransitive(ra, rb, rc);
      if ra == rc {
        StrLeAntisymmetric(ra, rb);
      }
    } else if ra == rb && rb == rc && xa != xb && xb != xc {
      StrLeTransitive(xa, xb, xc);
      if xa == xc {
        StrLeAntisymmetric(xa, xb);
      }
    }
  }

  predicate Sorted(s: seq<Doc<Permission>>) {
    forall j, k :: 0 <= j < k < |s| ==> Precedes(s[j], s[k])
  }

  /** Inserting `d` in front of the first entry it precedes. */
  function Insert(d: Doc<Permission>, s: seq<Doc<Permission>>): (r: seq<Doc<Permission>>)
    ensures multiset(r) == multiset(s) + multiset{d}
  {
    if s == [] then [d]
    else if Precedes(d, s[0]) then [d] + s
    else
      assert s == [s[0]] + s[1..];
      [s[0]] + Insert(d, s[1..])
  }

  lemma {:induction false} InsertSorted(d: Doc<Permission>, s: seq<Doc<Permission>>)
    requires Sorted(s)
    ensures Sorted(Insert(d, s))
  {
    if s == [] {
    } else if Precedes(d, s[0]) {
      forall k | 0 <= k < |s| ensures Precedes(d, s[k]) {
        if k > 0 {
          PrecedesTransitive(d, s[0], s[k]);
        }
      }
      SortedCons(d, s);
    } else {
      PrecedesTotal(d, s[0]);
      InsertSorted(d, s[1..]);
      var tail := Insert(d, s[1..]);
      forall k | 0 <= k < |tail| ensures Precedes(s[0], tail[k]) {
        assert tail[k] in multiset(tail);
        if tail[k] != d {
          assert tail[k] in s[1..];
        }
      }
      SortedCons(s[0], tail);
    }
  }

  /** An entry that precedes every entry of a sorted sequence can go in front of it. */
  lemma SortedCons(h: Doc<Permission>, t: seq<Doc<Permission>>)
    requires Sorted(t) && forall k :: 0 <= k < |t| ==> Precedes(h, t[k])
    ensures Sorted([h] + t)
  {
    var r := [h] + t;
    forall j, k | 0 <= j < k < |r| ensures Precedes(r[j], r[k]) {
      if j == 0 {
        assert r[k] == t[k - 1];
      } else {
        assert r[j] == t[j - 1] && r[k] == t[k - 1];
      }
    }
  }

  /** Insertion sort by `Precedes`. */
  function SortByKey(s: seq<Doc<Permission>>): (r: seq<Doc<Permission>>)
    ensures multiset(r) == multiset(s)
  {
    if s == [] then []
    else
      assert s == [s[0]] + s[1..];
      Insert(s[0], SortByKey(s[1..]))
  }

  lemma {:induction false} SortByKeySorted(s: seq<Doc<Permission>>)
    ensures Sorted(SortByKey(s))
  {
    if s != [] {
      SortByKeySorted(s[1..]);
      InsertSorted(s[0], SortByKey(s[1..]));
    }
  }

  /** `getAllPermissions()`: every stored permission exactly once, ordered by resource, then by
      action; permissions with the same resource and action in the order they were stored. */
  function GetAllPermissions(permissions: map<Id, Permission>, n: nat): (r: seq<Doc<Permission>>)
    ensures forall d :: d in r <==> d.id < n && d.id in permissions && d.record == permissions[d.id]
    ensures multiset(r) == multiset(Ascending(permissions, n))
    ensures forall j, k :: 0 <= j < k < |r| ==>
      var a, b := r[j].record, r[k].record;
      && StrLe(a.resource, b.resource)
      && (a.resource == b.resource ==> StrLe(ActionName(a.action), ActionName(b.action)))
      && (a.resource == b.resource && a.action == b.action ==> r[j].id < r[k].id)
  {
    var all := Ascending(permissions, n);
    var r := SortByKey(all);
    SortByKeySorted(all);
    assert forall d :: d in r <==> d in multiset(all);
    NoDuplicateDocs(all, r);
    r
  }

  /** A sorted listing of documents with distinct ids names no document twice, so equal keys come
      out ordered by strictly increasing ids. */
  lemma NoDuplicateDocs(all: seq<Doc<Permission>>, r: seq<Doc<Permission>>)
    requires IncreasingIds(all) && multiset(r) == multiset(all) && Sorted(r)
    ensures forall j, k :: 0 <= j < k < |r| ==>
      var a, b := r[j].record, r[k].record;
      && StrLe(a.resource, b.resource)
      && (a.resource == b.resource ==> StrLe(ActionName(a.action), ActionName(b.action)))
      && (a.resource == b.resource && a.action == b.action ==> r[j].id < r[k].id)
  {
    forall j, k | 0 <= j < k < |r|
      ensures
        var a, b := r[j].record, r[k].record;
        && StrLe(a.resource, b.resource)
        && (a.resource == b.resource ==> StrLe(ActionName(a.action), ActionName(b.action)))
        && (a.resource == b.resource && a.action == b.action ==> r[j].id < r[k].id)
    {
      var a, b := r[j].record, r[k].record;
      assert Precedes(r[j], r[k]);
      StrLeTotal(a.resource, a.resource);
      StrLeTotal(ActionName(a.action), ActionName(a.action));
      if a.resource == b.resource && ActionName(a.action) == ActionName(b.action) && r[j].id == r[k].id {
        assert r[j] in multiset(all) && r[k] in multiset(all);
        var x :| 0 <= x < |all| && all[x] == r[j];
        var y :| 0 <= y < |all| && all[y] == r[k];
        assert x == y;
        DocCountIsOne(all, x);
        SameAtTwoPositions(r, j, k);
        assert false;
      }
    }
  }

  /** A document occurs once in a listing of distinct ids. */
  lemma DocCountIsOne(all: seq<Doc<Permission>>, x: nat)
    requires IncreasingIds(all) && x < |all|
    ensures multiset(all)[all[x]] == 1
  {
    var d := all[x];
    assert all == all[..x] + [d] + all[x + 1..];
    assert d !in all[..x] && d !in all[x + 1..] by {
      forall y | 0 <= y < |all| && all[y] == d ensures y == x {}
    }
    assert multiset(all) == multiset(all[..x]) + multiset{d} + multiset(all[x + 1..]);
  }

  /** An entry at two positions of a sequence occurs at least twice. */
  lemma SameAtTwoPositions(r: seq<Doc<Permission>>, j: nat, k: nat)
    requires j < k < |r| && r[j] == r[k]
    ensures multiset(r)[r[j]] >= 2
  {
    assert r == r[..j] + [r[j]] + r[j + 1..k] + [r[k]] + r[k + 1..];
    assert multiset(r) == multiset(r[..j]) + multiset{r[j]} + multiset(r[j + 1..k]) + multiset{r[k]} + multiset(r[k + 1..]);
  }

  /** `populate('permissions')`: the listed ids in their order, less the ones no permission is
      stored under (a repeated id is populated each time). */
  function Populate(ids: seq<Id>, permissions: map<Id, Permission>): (r: seq<Doc<Permission>>)
    ensures forall d :: d in r <==> d.id in ids && d.id in permissions && d.record == permissions[d.id]
    ensures (forall k :: 0 <= k < |ids| ==> ids[k] in permissions) ==> Ids(r) == ids
    ensures |r| <= |ids|
  {
    if ids == [] then []
    else (if ids[0] in permissions then [Doc(ids[0], permissions[ids[0]])] else []) + Populate(ids[1..], permissions)
  }

  datatype UserSummary = UserSummary(id: Id, name: string, email: string, role: string)
  datatype UserPermissions = UserPermissions(user: UserSummary, permissions: seq<Doc<Permission>>)

  /** Reading `name` of the role a soft-deleted role's populate leaves empty. */
  const NullRoleName := "Cannot read properties of null (reading 'name')"

  /** `getUserPermissions(userId)`: 404 for an id no user is stored under (users are read
      without a filter); a user whose role is soft-deleted gets a null role from populate and the
      summary throws; otherwise the user's id, name, email and role name, and the role's
      permissions populated in their listed order. */
  function GetUserPermissions(users: map<Id, User>, roles: map<Id, Role>, permissions: map<Id, Permission>, userId: Id)
    : (r: Result<UserPermissions>)
    ensures userId !in users ==> r == Err(HttpError(404, "User not found"))
    ensures r.Ok? <==> userId in users && users[userId].role in roles && Visible(roles[users[userId].role])
    ensures userId in users && !r.Ok? ==> r == Err(Thrown(NullRoleName))
    ensures r.Ok? ==>
      && var u := users[userId];
      && var role := roles[u.role];
      && r.value.user == UserSummary(userId, u.name, u.email, role.name)
      && (forall d :: d in r.value.permissions <==>
            d.id in role.permissions && d.id in permissions && d.record == permissions[d.id])
      && ((forall k :: 0 <= k < |role.permissions| ==> role.permissions[k] in permissions) ==>
            Ids(r.value.permissions) == role.permissions)
  {
    if userId !in users then Err(HttpError(404, "User not found"))
    else
      var u := users[userId];
      if u.role !in roles || !Visible(roles[u.role]) then Err(Thrown(NullRoleName))
      else
        var role := roles[u.role];
        Ok(UserPermissions(UserSummary(userId, u.name, u.email, role.name), Populate(role.permissions, permissions)))
  }
}
