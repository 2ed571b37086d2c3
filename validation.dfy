/** utils/validation.js: the request-body schemas. A body is the set of keys a client sent, each
    with its string value. A schema checks its keys in the order it lists them and reports the
    first violation, as a schema that stops at the first error does. Whether a string is an email
    address or a URI is up to the format checks passed in. */
module Validation {
  import opened Common
  import opened Text
  import opened Collections
  import opened RoleModel

  type Body = map<string, string>

  /** The `email()` and `uri()` format checks. */
  datatype Formats = Formats(isEmail: string -> bool, isUri: string -> bool)

  const NameMin := 2
  const NameMax := 50
  const PasswordMin := 6
  const PhoneDigits := 10
  const DescriptionMin := 5
  const DescriptionMax := 200

  /** `/^[0-9]{10}$/`. */
  predicate IsPhone(s: string) {
    |s| == PhoneDigits && forall i :: 0 <= i < |s| ==> '0' <= s[i] <= '9'
  }

  /** The rules a string key can carry after the type and emptiness checks. */
  datatype Check = MinLength(min: nat) | MaxLength(max: nat) | EmailFormat | PhonePattern | UriFormat

  datatype Rule = Required | Empty | TooShort(min: nat) | TooLong(max: nat) | NotEmail | PatternMismatch | NotUri
                | ArrayTooShort(limit: nat) | MissingPeers

  /** Where a violation is: a key, an entry of an array key, or the body as a whole. */
  datatype Path = Key(name: string) | Item(name: string, index: nat) | Whole

  datatype Violation = Violation(path: Path, rule: Rule)

  predicate Passes(c: Check, s: string, f: Formats) {
    match c
    case MinLength(n) => |s| >= n
    case MaxLength(n) => |s| <= n
    case EmailFormat => f.isEmail(s)
    case PhonePattern => IsPhone(s)
    case UriFormat => f.isUri(s)
  }

  function RuleOf(c: Check): Rule {
    match c
    case MinLength(n) => TooShort(n)
    case MaxLength(n) => TooLong(n)
    case EmailFormat => NotEmail
    case PhonePattern => PatternMismatch
    case UriFormat => NotUri
  }

  /** A string key: `required()` or optional, and its rules in the order they are chained. */
  datatype Field = Field(key: string, required: bool, checks: seq<Check>)

  /** The first rule of `checks` that `s` breaks. */
  function FirstBroken(checks: seq<Check>, s: string, f: Formats): (r: Option<Rule>)
    ensures r.None? <==> forall k :: 0 <= k < |checks| ==> Passes(checks[k], s, f)
    ensures r.Some? ==> exists k :: 0 <= k < |checks| && !Passes(checks[k], s, f) && r.value == RuleOf(checks[k])
                          && forall j :: 0 <= j < k ==> Passes(checks[j], s, f)
  {
    if checks == [] then None
    else if !Passes(checks[0], s, f) then Some(RuleOf(checks[0]))
    else
      var rest := FirstBroken(checks[1..], s, f);
      assert forall k :: 1 <= k < |checks| ==> checks[k] == checks[1..][k - 1];
      rest
  }

  /** A key is acceptable when it is absent and optional, or present, not empty and within all
      its rules. An empty string is refused even for an optional key. */
  predicate FieldOk(fd: Field, body: Body, f: Formats) {
    if fd.key in body then
      body[fd.key] != "" && forall k :: 0 <= k < |fd.checks| ==> Passes(fd.checks[k], body[fd.key], f)
    else !fd.required
  }

  function CheckField(fd: Field, body: Body, f: Formats): (r: Option<Violation>)
    ensures r.None? <==> FieldOk(fd, body, f)
    ensures r.Some? ==> r.value.path == Key(fd.key)
    ensures fd.key !in body && fd.required ==> r == Some(Violation(Key(fd.key), Required))
    ensures fd.key in body && body[fd.key] == "" ==> r == Some(Violation(Key(fd.key), Empty))
  {
    if fd.key !in body then (if fd.required then Some(Violation(Key(fd.key), Required)) else None)
    else if body[fd.key] == "" then Some(Violation(Key(fd.key), Empty))
    else match FirstBroken(fd.checks, body[fd.key], f)
      case None => None
      case Some(rule) => Some(Violation(Key(fd.key), rule))
  }

  /** `schema.validate(body)` over the schema's keys: the first key, in schema order, that is not
      acceptable, and its first violation. */
  function Validate(schema: seq<Field>, body: Body, f: Formats): (r: Option<Violation>)
    ensures r.None? <==> forall i :: 0 <= i < |schema| ==> FieldOk(schema[i], body, f)
    ensures r.Some? ==> exists i :: 0 <= i < |schema| && r == CheckField(schema[i], body, f)
                          && forall j :: 0 <= j < i ==> FieldOk(schema[j], body, f)
  {
    if schema == [] then None
    else
      var first := CheckField(schema[0], body, f);
      if first.Some? then first
      else
        assert forall i :: 1 <= i < |schema| ==> schema[i] == schema[1..][i - 1];
        Validate(schema[1..], body, f)
  }

  const NameChecks := [MinLength(NameMin), MaxLength(NameMax)]
  const PasswordChecks := [MinLength(PasswordMin)]
  const DescriptionChecks := [MinLength(DescriptionMin), MaxLength(DescriptionMax)]

  const RegisterSchema := [
    Field("name", true, NameChecks),
    Field("email", true, [EmailFormat]),
    Field("phone", true, [PhonePattern]),
    Field("password", true, PasswordChecks),
    Field("roleId", true, [])]

  const LoginSchema := [
    Field("email", false, [EmailFormat]),
    Field("phone", false, [PhonePattern]),
    Field("password", true, PasswordChecks)]

  const CreateUserSchema := RegisterSchema + [Field("image", false, [UriFormat])]

  const UpdateUserSchema := [
    Field("name", false, NameChecks),
    Field("email", false, [EmailFormat]),
    Field("phone", false, [PhonePattern]),
    Field("password", false, PasswordChecks),
    Field("roleId", false, []),
    Field("image", false, [UriFormat])]

  const CreateRoleSchema := [Field("name", true, NameChecks), Field("description", true, DescriptionChecks)]

  const UpdateRoleSchema := [Field("name", false, NameChecks), Field("description", false, DescriptionChecks)]

  function ValidateRegister(body: Body, f: Formats): Option<Violation> {
    Validate(RegisterSchema, body, f)
  }

  /** The keys are checked first; then `.or('email', 'phone')`, which the body as a whole breaks. */
  function ValidateLogin(body: Body, f: Formats): (r: Option<Violation>)
    ensures r == Some(Violation(Whole, MissingPeers)) <==>
      "email" !in body && "phone" !in body && FieldOk(LoginSchema[2], body, f)
  {
    match Validate(LoginSchema, body, f)
    case Some(v) => Some(v)
    case None => if "email" !in body && "phone" !in body then Some(Violation(Whole, MissingPeers)) else None
  }

  function ValidateCreateUser(body: Body, f: Formats): Option<Violation> {
    Validate(CreateUserSchema, body, f)
  }

  function ValidateUpdateUser(body: Body, f: Formats): Option<Violation> {
    Validate(UpdateUserSchema, body, f)
  }

  function ValidateCreateRole(body: Body, f: Formats): Option<Violation> {
    Validate(CreateRoleSchema, body, f)
  }

  function ValidateUpdateRole(body: Body, f: Formats): Option<Violation> {
    Validate(UpdateRoleSchema, body, f)
  }

  /** `permissionIds: array().items(string()).min(1).required()`: present, every entry a
      non-empty string (the first empty entry is reported), and at least one entry. */
  function ValidateSetPermissions(permissionIds: Option<seq<string>>): (r: Option<Violation>)
    ensures r.None? <==> (permissionIds.Some? && |permissionIds.value| >= 1
                          && forall k :: 0 <= k < |permissionIds.value| ==> permissionIds.value[k] != "")
    ensures permissionIds.None? ==> r == Some(Violation(Key("permissionIds"), Required))
    ensures r.Some? && r.value.path.Item? ==>
      && permissionIds.Some? && r.value.path.name == "permissionIds"
      && var k := r.value.path.index;
      && k < |permissionIds.value| && permissionIds.value[k] == "" && r.value.rule == Empty
      && forall j :: 0 <= j < k ==> permissionIds.value[j] != ""
  {
    match permissionIds
    case None => Some(Violation(Key("permissionIds"), Required))
    case Some(ids) =>
      match FirstIndexFrom(ids, (s: string) => s == "", 0)
      case Some(k) => Some(Violation(Item("permissionIds", k), Empty))
      case None => if |ids| < 1 then Some(Violation(Key("permissionIds"), ArrayTooShort(1))) else None
  }

  /** What a register body must hold, written out key by key. */
  predicate RegisterValid(body: Body, f: Formats) {
    && "name" in body && NameMin <= |body["name"]| <= NameMax
    && "email" in body && body["email"] != "" && f.isEmail(body["email"])
    && "phone" in body && IsPhone(body["phone"])
    && "password" in body && |body["password"]| >= PasswordMin
    && "roleId" in body && body["roleId"] != ""
  }

  /** A key with a minimum and a maximum length. */
  lemma LengthFieldOk(key: string, required: bool, min: nat, max: nat, body: Body, f: Formats)
    requires min >= 1
    ensures FieldOk(Field(key, required, [MinLength(min), MaxLength(max)]), body, f) <==>
      (if key in body then min <= |body[key]| <= max else !required)
  {
    var c := [MinLength(min), MaxLength(max)];
    if key in body {
      assert (forall k :: 0 <= k < |c| ==> Passes(c[k], body[key], f)) <==> Passes(c[0], body[key], f) && Passes(c[1], body[key], f);
    }
  }

  /** A key with one rule. */
  lemma OneRuleFieldOk(key: string, required: bool, c: Check, body: Body, f: Formats)
    ensures FieldOk(Field(key, required, [c]), body, f) <==>
      (if key in body then body[key] != "" && Passes(c, body[key], f) else !required)
  {
    if key in body {
      var cs := [c];
      assert cs[0] == c;
      assert (forall k :: 0 <= k < |cs| ==> Passes(cs[k], body[key], f)) <==> Passes(c, body[key], f);
    }
  }

  lemma RegisterAccepts(body: Body, f: Formats)
    ensures ValidateRegister(body, f).None? <==> RegisterValid(body, f)
  {
    var s := RegisterSchema;
    LengthFieldOk("name", true, NameMin, NameMax, body, f);
    OneRuleFieldOk("email", true, EmailFormat, body, f);
    OneRuleFieldOk("phone", true, PhonePattern, body, f);
    OneRuleFieldOk("password", true, MinLength(PasswordMin), body, f);
    assert FieldOk(s[4], body, f) <==> "roleId" in body && body["roleId"] != "";
    assert (forall i :: 0 <= i < |s| ==> FieldOk(s[i], body, f)) <==>
      FieldOk(s[0], body, f) && FieldOk(s[1], body, f) && FieldOk(s[2], body, f) && FieldOk(s[3], body, f) && FieldOk(s[4], body, f);
  }

  /** What a login body must hold: a good password, any email or phone given well formed, and
      one of the two given. */
  predicate LoginValid(body: Body, f: Formats) {
    && "password" in body && |body["password"]| >= PasswordMin
    && ("email" in body ==> body["email"] != "" && f.isEmail(body["email"]))
    && ("phone" in body ==> IsPhone(body["phone"]))
    && ("email" in body || "phone" in body)
  }

  lemma LoginAccepts(body: Body, f: Formats)
    ensures ValidateLogin(body, f).None? <==> LoginValid(body, f)
  {
    var s := LoginSchema;
    OneRuleFieldOk("email", false, EmailFormat, body, f);
    OneRuleFieldOk("phone", false, PhonePattern, body, f);
    OneRuleFieldOk("password", true, MinLength(PasswordMin), body, f);
    assert (forall i :: 0 <= i < |s| ==> FieldOk(s[i], body, f)) <==>
      FieldOk(s[0], body, f) && FieldOk(s[1], body, f) && FieldOk(s[2], body, f);
  }

  /** The key `key` of a body, if sent. */
  function Lookup(body: Body, key: string): (v: Option<string>)
    ensures v.Some? <==> key in body
    ensures v.Some? ==> v.value == body[key]
  {
    if key in body then Some(body[key]) else None
  }

  /** A login body that passes validation gives the login service what it needs to look a user
      up: a non-empty email, or a phone. */
  lemma LoginBodyIdentifiesUser(body: Body, f: Formats)
    requires ValidateLogin(body, f).None?
    ensures Truthy(Lookup(body, "email")) || Lookup(body, "phone").Some?
  {
    LoginAccepts(body, f);
  }

  /** Creating a user checks the register keys first, then the optional image. */
  lemma CreateUserIsRegisterThenImage(body: Body, f: Formats)
    ensures ValidateCreateUser(body, f) ==
      match ValidateRegister(body, f)
      case Some(v) => Some(v)
      case None => CheckField(Field("image", false, [UriFormat]), body, f)
  {
    ValidateAppend(RegisterSchema, [Field("image", false, [UriFormat])], body, f);
  }

  lemma {:induction false} ValidateAppend(a: seq<Field>, b: seq<Field>, body: Body, f: Formats)
    ensures Validate(a + b, body, f) == match Validate(a, body, f) case Some(v) => Some(v) case None => Validate(b, body, f)
  {
    if a != [] {
      assert (a + b)[0] == a[0];
      assert (a + b)[1..] == a[1..] + b;
      if CheckField(a[0], body, f).None? {
        assert Validate(a + b, body, f) == Validate(a[1..] + b, body, f);
        assert Validate(a, body, f) == Validate(a[1..], body, f);
        ValidateAppend(a[1..], b, body, f);
      }
    } else {
      assert a + b == b;
    }
  }

  /** Updating a user accepts a body exactly when each key it sends meets the rule it has at
      creation; none is required. */
  lemma UpdateUserAccepts(body: Body, f: Formats)
    ensures ValidateUpdateUser(body, f).None? <==>
      forall i :: 0 <= i < |CreateUserSchema| && CreateUserSchema[i].key in body ==> FieldOk(CreateUserSchema[i], body, f)
  {
    var c, u := CreateUserSchema, UpdateUserSchema;
    assert |c| == |u| == 6;
    assert forall i :: 0 <= i < 6 ==> u[i] == c[i].(required := false);
    forall i | 0 <= i < 6
      ensures FieldOk(u[i], body, f) <==> (c[i].key in body ==> FieldOk(c[i], body, f))
    {
    }
  }

  /** A body good enough to create a user is good enough to update one. */
  lemma CreateUserBodyIsUpdateBody(body: Body, f: Formats)
    requires ValidateCreateUser(body, f).None?
    ensures ValidateUpdateUser(body, f).None?
  {
    UpdateUserAccepts(body, f);
  }

  predicate RoleBodyKeyOk(body: Body, key: string, min: nat, max: nat) {
    key in body ==> min <= |body[key]| <= max
  }

  lemma CreateRoleAccepts(body: Body, f: Formats)
    ensures ValidateCreateRole(body, f).None? <==>
      && "name" in body && NameMin <= |body["name"]| <= NameMax
      && "description" in body && DescriptionMin <= |body["description"]| <= DescriptionMax
  {
    var s := CreateRoleSchema;
    LengthFieldOk("name", true, NameMin, NameMax, body, f);
    LengthFieldOk("description", true, DescriptionMin, DescriptionMax, body, f);
    assert (forall i :: 0 <= i < |s| ==> FieldOk(s[i], body, f)) <==> FieldOk(s[0], body, f) && FieldOk(s[1], body, f);
  }

  lemma UpdateRoleAccepts(body: Body, f: Formats)
    ensures ValidateUpdateRole(body, f).None? <==>
      RoleBodyKeyOk(body, "name", NameMin, NameMax) && RoleBodyKeyOk(body, "description", DescriptionMin, DescriptionMax)
  {
    var s := UpdateRoleSchema;
    LengthFieldOk("name", false, NameMin, NameMax, body, f);
    LengthFieldOk("description", false, DescriptionMin, DescriptionMax, body, f);
    assert (forall i :: 0 <= i < |s| ==> FieldOk(s[i], body, f)) <==> FieldOk(s[0], body, f) && FieldOk(s[1], body, f);
  }

  /** A body that passes role creation never breaks the role model's maximum lengths: the role
      model refuses it only when the name or the description is nothing but white space. */
  lemma CreateRoleBodyFitsRoleModel(body: Body, f: Formats)
    requires ValidateCreateRole(body, f).None?
    ensures "name" in body && "description" in body
    ensures NewRole(body["name"], body["description"]).Err? <==>
      Normalize(body["name"]) == "" || Trim(body["description"]) == ""
  {
    CreateRoleAccepts(body, f);
    var n, d := body["name"], body["description"];
    assert |Normalize(n)| <= |ToUpper(n)| == |n|;
    assert |Trim(d)| <= |d|;
  }
}
