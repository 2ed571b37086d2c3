/** The permission record of models/Permission.js: its schema (setters, validators and the action
    enum) and its two lookup statics. */
module PermissionModel {
  import opened Common
  import opened Text
  import opened Collections

  /** The `enum` of the `action` path. */
  datatype Action = Create | Read | Update | Delete | Manage

  function ActionName(a: Action): string {
    match a
    case Create => "CREATE"
    case Read => "READ"
    case Update => "UPDATE"
    case Delete => "DELETE"
    case Manage => "MANAGE"
  }

  /** The `enum` check on an already cast action value. */
  function ActionOf(n: string): (r: Option<Action>)
    ensures r.Some? ==> ActionName(r.value) == n
    ensures r.None? ==> forall a: Action :: ActionName(a) != n
  {
    if n == "CREATE" then Some(Create)
    else if n == "READ" then Some(Read)
    else if n == "UPDATE" then Some(Update)
    else if n == "DELETE" then Some(Delete)
    else if n == "MANAGE" then Some(Manage)
    else None
  }

  /** The `action` path applied to an input: uppercase and trim, then the enum check. */
  function ParseAction(s: string): (r: Option<Action>)
    ensures r.Some? ==> ActionName(r.value) == Normalize(s)
    ensures r.None? ==> forall a: Action :: ActionName(a) != Normalize(s)
  {
    ActionOf(Normalize(s))
  }

  lemma ActionNameIsNormal(a: Action)
    ensures IsNormal(ActionName(a)) && |ActionName(a)| <= ActionMax
  {
    var n := ActionName(a);
    assert forall i :: 0 <= i < |n| ==> 'A' <= n[i] <= 'Z';
  }

  /** Every enum value is accepted back under its own name. */
  lemma ParseActionName(a: Action)
    ensures ParseAction(ActionName(a)) == Some(a)
  {
    ActionNameIsNormal(a);
    NormalOfNormal(ActionName(a));
  }

  datatype Permission = Permission(name: string, description: string, resource: string, action: Action)

  const NameMax := 100
  const DescriptionMax := 200
  const ResourceMax := 50
  const ActionMax := 20

  /** A stored permission: every path is required (non-empty after trimming), the name and the
      resource are uppercase and trimmed, and each path is within its `maxlength`. */
  predicate ValidPermission(p: Permission) {
    && p.name != "" && IsNormal(p.name) && |p.name| <= NameMax
    && p.description != "" && IsTrimmed(p.description) && |p.description| <= DescriptionMax
    && p.resource != "" && IsNormal(p.resource) && |p.resource| <= ResourceMax
  }

  /** Casting the four inputs through the schema's setters and running its validators, in path
      order; the first path that fails is reported. */
  function NewPermission(name: string, description: string, resource: string, action: string): (r: Result<Permission>)
    ensures r.Ok? ==> ValidPermission(r.value)
    ensures r.Ok? ==>
      && r.value.name == Normalize(name) && r.value.description == Trim(description)
      && r.value.resource == Normalize(resource) && ActionName(r.value.action) == Normalize(action)
    ensures r.Err? <==>
      || Normalize(name) == "" || |Normalize(name)| > NameMax
      || Trim(description) == "" || |Trim(description)| > DescriptionMax
      || Normalize(resource) == "" || |Normalize(resource)| > ResourceMax
      || forall a: Action :: ActionName(a) != Normalize(action)
  {
    var n, d, res := Normalize(name), Trim(description), Normalize(resource);
    NormalizeIsNormal(name);
    NormalizeIsNormal(resource);
    if n == "" || |n| > NameMax then Err(ValidationFailed("name"))
    else if d == "" || |d| > DescriptionMax then Err(ValidationFailed("description"))
    else if res == "" || |res| > ResourceMax then Err(ValidationFailed("resource"))
    else match ParseAction(action)
      case None => Err(ValidationFailed("action"))
      case Some(a) => Ok(Permission(n, d, res, a))
  }

  /** Casting a stored permission again gives it back unchanged. */
  lemma NewPermissionOfValid(p: Permission)
    requires ValidPermission(p)
    ensures NewPermission(p.name, p.description, p.resource, ActionName(p.action)) == Ok(p)
  {
    NormalOfNormal(p.name);
    NormalOfNormal(p.resource);
    TrimOfTrimmed(p.description);
    ParseActionName(p.action);
  }

  /** The unique index on `name`. */
  predicate PermissionNamesUnique(m: map<Id, Permission>) {
    forall a, b :: a in m && b in m && a != b ==> m[a].name != m[b].name
  }

  /** Is `name` held by a permission other than `except`? */
  predicate PermissionNameHeldByOther(m: map<Id, Permission>, name: string, except: Option<Id>) {
    exists id :: id in m && Some(id) != except && m[id].name == name
  }

  /** Writing permission `id` with a name no other permission holds keeps the names unique. */
  lemma PutKeepsPermissionNamesUnique(m: map<Id, Permission>, id: Id, p: Permission)
    requires PermissionNamesUnique(m)
    requires !PermissionNameHeldByOther(m, p.name, Some(id))
    ensures PermissionNamesUnique(m[id := p])
  {
    var m' := m[id := p];
    forall a, b | a in m' && b in m' && a != b
      ensures m'[a].name != m'[b].name
    {
      if a == id {
        assert b in m && Some(b) != Some(id);
      } else if b == id {
        assert a in m && Some(a) != Some(id);
      }
    }
  }

  /** `findByResourceAction(resource, action)`: the first permission, in natural order, whose
      resource and action equal the uppercased (and, by the setters, trimmed) arguments. */
  function FindByResourceAction(docs: seq<Doc<Permission>>, resource: string, action: string): (r: Option<Doc<Permission>>)
    ensures r.Some? ==>
      && r.value in docs && r.value.record.resource == Normalize(resource)
      && ActionName(r.value.record.action) == Normalize(action)
    ensures r.None? ==> forall d :: d in docs ==>
      d.record.resource != Normalize(resource) || ActionName(d.record.action) != Normalize(action)
  {
    var res, act := Normalize(resource), Normalize(action);
    First(docs, (d: Doc<Permission>) => d.record.resource == res && ActionName(d.record.action) == act)
  }

  /** The lookup does not depend on the case of its arguments. */
  lemma FindByResourceActionIgnoresCase(docs: seq<Doc<Permission>>, r1: string, a1: string, r2: string, a2: string)
    requires ToUpper(r1) == ToUpper(r2) && ToUpper(a1) == ToUpper(a2)
    ensures FindByResourceAction(docs, r1, a1) == FindByResourceAction(docs, r2, a2)
  {
  }

  /** `findByResource(resource)`: exactly the permissions whose resource is the uppercased argument. */
  function FindByResource(docs: seq<Doc<Permission>>, resource: string): (r: seq<Doc<Permission>>)
    ensures forall d :: d in r <==> d in docs && d.record.resource == Normalize(resource)
  {
    var res := Normalize(resource);
    Filter(docs, (d: Doc<Permission>) => d.record.resource == res)
  }
}
