# Identity and role-permission store

A model of the core of a Node/Express/Mongoose back end. It keeps users, roles and permissions.

- **Store.** The three MongoDB collections become maps from a numeric id to a record, held in one class `Store.Db`. One counter hands out new ids. A higher id means a later document, so "natural order" is ascending id and `sort({ createdAt: -1 })` is descending id. `Db.Valid()` is kept by every operation: the unique indexes hold, references point at stored documents, and every id came from the counter.
- **Schemas.** The role and permission schemas are modelled with their setters (`uppercase`, `trim`), validators, the action enum and the protected-name hooks. The find hook hides soft-deleted roles from `find`, `findOne` and `findById`, but not from `countDocuments` or from the unique index.
- **Services.** The role, user, auth and permission services are methods on the store. They check their conditions in the source's order, and then either write the maps or fail with the source's error.
- **Guard.** The request guard is a decision function (`Authenticate`) plus a method that sets `req.user`.
- **Validators.** The Joi request validators are predicates over a body. The body is a map from key to string value.
- **Seed script.** The permission catalogue, the three built-in roles derived from it, and the admin user, each written with a keyed upsert.

Some things are parameters rather than modelled code:
- token signing and parsing: a token is a claims record bound to a secret, and `decode` reads token text into a token;
- password hashing (`Hasher`);
- the Joi formats for email and URI;
- the clock (`now`);
- the configuration (`Config`).

Where the code is evidently wrong, the model keeps both behaviours. A member models the code as written and exhibits the fault, and a corrected member models the evident intent. The store methods use the corrected member. The four rows under "## Findings" list these pairs, and each corrected member's row in "## Model" says "intended behaviour".

Everywhere else, where the code and the system's documented behaviour disagree, the model follows the code:
- `updateRole` and `setPermissions` do not protect the reserved roles. They query by id, and `setPermissions` writes through `save()`, so the name-keyed hooks never fire. `updateRole` can even rename SUPER_ADMIN, after which the role can be deleted.
- `jwt.verify` checks the signature before the expiry. A forged or foreign token is "Invalid token" even after its `exp`.
- `setPermissions` also rejects repeated ids. `Permission.find({ _id: { $in } })` returns each document once, so the count check fails.

## Model

| member | source | states |
|---|---|---|
| Text.ToUpper | services/RoleService.js:11 | `toUpperCase` keeps the length and uppercases each ASCII letter in place |
| Text.ToUpperOfUpper | models/Role.js:8 | uppercasing a string with no lower-case letter changes nothing |
| Text.Trim | models/Role.js:9 | `trim` gives the infix after the leading white space; it neither starts nor ends with white space, and everything dropped is white space |
| Text.TrimOfTrimmed | models/Role.js:9 | trimming an already trimmed string changes nothing |
| Text.Normalize | models/Role.js:8-9 | the cast the `uppercase` and `trim` setters apply; its properties are stated by `Text.NormalizeIsNormal` and `Text.NormalizeOfUpper` |
| Text.NormalizeOfUpper | services/RoleService.js:19 | uppercasing a value before the `uppercase`+`trim` setters run makes no difference to what is stored |
| Text.NormalizeIsNormal | models/Role.js:8-9 | what the setters store is uppercase and trimmed, and casting it again is the identity |
| Text.TrimKeepsUpper | models/Role.js:8-9 | trimming an uppercase string leaves it uppercase |
| Text.NormalOfNormal | models/Permission.js:8-9 | a value already uppercase and trimmed is its own cast |
| Text.IndexOf | middleware/authMiddleware.js:7 | `indexOf` gives the first position where the pattern occurs, and is absent exactly when the pattern never occurs |
| Text.ContainsIgnoreCase | services/RoleService.js:37 | the `$regex` filter with option `i`, as a substring test under ASCII case folding; `RoleService.SearchListing` and `UserService.SearchListing` state what it selects |
| Text.ReplaceFirst | middleware/authMiddleware.js:7 | `replace` with a string pattern replaces its first occurrence; stated by `Text.ReplaceFirstOfPrefix` and `Text.ReplaceFirstAbsent` |
| Text.ReplaceFirstOfPrefix | middleware/authMiddleware.js:7 | `replace` with a string pattern strips the pattern when the text starts with it |
| Text.ReplaceFirstAbsent | middleware/authMiddleware.js:7 | `replace` leaves text without the pattern unchanged |
| Text.StrLeTotal | services/PermissionService.js:7 | MongoDB's string order compares any two strings |
| Text.StrLeTransitive | services/PermissionService.js:7 | the string order is transitive |
| Text.StrLeAntisymmetric | services/PermissionService.js:7 | strings that are each at most the other are equal |
| Text.StrLe | services/PermissionService.js:7 | the string order the sort compares with; `Text.StrLeTotal`, `Text.StrLeTransitive` and `Text.StrLeAntisymmetric` state that it is a total order |
| Collections.Ascending | scripts/seed.js:59 | an unsorted `find()` lists every stored document exactly as stored, by increasing id |
| Collections.Descending | services/RoleService.js:27-29 | `sort({ createdAt: -1 })` lists every stored document exactly as stored, newest first |
| Collections.Filter | scripts/seed.js:60-63 | `filter` keeps exactly the elements that satisfy the predicate and never grows the list |
| Collections.FilterKeepsDecreasing | services/RoleService.js:42-44 | filtering a newest-first listing keeps it newest first |
| Collections.FilterStrongerIsShorter | services/RoleService.js:41-42 | a stricter query returns at most as many documents |
| Collections.DistinctCount | services/RoleService.js:119-123 | a list of ids names at most as many documents as it has entries, and exactly as many iff no id repeats |
| Collections.First | services/RoleService.js:10-12 | `findOne` over a listing gives its first match, and nothing only when no document matches |
| Collections.Ids | scripts/seed.js:69 | `map(p => p._id)` lists the ids of a listing in its order |
| Collections.CeilDiv | services/RoleService.js:52 | `Math.ceil(total / limit)` is the least number of pages of `limit` that hold `total` items |
| Collections.Page | services/RoleService.js:40-46 | `skip((page-1)*limit).limit(limit)` gives at most `limit` items, the ones from position `(page-1)*limit` on, as many as remain |
| Collections.PageOfListing | services/RoleService.js:42-46 | a page holds entries of the listing only and keeps a newest-first order |
| Collections.PageCovers | services/RoleService.js:48-56 | every item of a listing is on some page numbered 1 to `totalPages`: item `i` is entry `i % limit` of page `i / limit + 1` |
| Jwt.Sign | services/AuthService.js:8-18 | a signed token carries the given user, type and issue time, is bound to the secret, and expires `lifetime` seconds after issue |
| Jwt.Verify | middleware/authMiddleware.js:13 | verification succeeds, with the token's own claims, exactly for a token signed with the secret before its expiry; a genuine token past expiry is expired; anything else is malformed |
| Jwt.SignedVerifiesUntilExpiry | services/AuthService.js:8-18 | a token verifies for exactly its lifetime after issue and is expired from then on |
| Jwt.ForeignSecretIsMalformed | middleware/authMiddleware.js:28-30 | a token signed with another secret is malformed, not expired, whatever the time |
| PermissionModel.ActionOf | models/Permission.js:30 | the enum accepts exactly the five action names and gives back the action of that name |
| PermissionModel.ParseAction | models/Permission.js:25-32 | an action input is accepted exactly when its uppercased, trimmed form is one of the enum values |
| PermissionModel.ActionNameIsNormal | models/Permission.js:28-31 | every enum value is uppercase, trimmed and within the 20-character limit |
| PermissionModel.ParseActionName | models/Permission.js:25-32 | every enum value is accepted back as itself |
| PermissionModel.NewPermission | models/Permission.js:3-37 | a permission is created exactly when the cast name (at most 100), description (at most 200) and resource (at most 50) are non-empty and the action is in the enum; the stored record is the cast inputs and is valid |
| PermissionModel.NewPermissionOfValid | models/Permission.js:3-37 | casting a stored permission again gives it back unchanged |
| PermissionModel.PutKeepsPermissionNamesUnique | models/Permission.js:7 | writing a permission under a name no other permission holds keeps the unique index on `name` |
| PermissionModel.FindByResourceAction | models/Permission.js:53-58 | the lookup gives a permission with the uppercased resource and action, and nothing only when none has them |
| PermissionModel.FindByResourceActionIgnoresCase | models/Permission.js:55-56 | arguments that differ only in letter case give the same result |
| PermissionModel.FindByResource | models/Permission.js:61-63 | exactly the permissions whose resource is the uppercased argument |
| RoleModel.NewRole | models/Role.js:3-40 | a role is created exactly when the cast name is 1 to 50 characters and the trimmed description 1 to 200; it is valid, not deleted, with no permissions and the cast fields |
| RoleModel.NewRoleOfUpper | services/RoleService.js:18-21 | uppercasing the name before `Role.create` makes no difference |
| RoleModel.SoftDelete | models/Role.js:54-64 | SUPER_ADMIN and ADMIN are refused with "Cannot delete admin roles" and no field is written; any other role is marked deleted at `now` by the actor, everything else unchanged |
| RoleModel.SoftDeleteHides | models/Role.js:54-75 | a soft-deleted role is filtered out by the find hook |
| RoleModel.FindOne | models/Role.js:72-75 | `findOne` gives the first visible role that matches the query, and nothing only when no visible role matches |
| RoleModel.FindById | models/Role.js:72-75 | `findById` finds a role exactly when it is stored and not soft-deleted |
| RoleModel.FindByName | services/RoleService.js:80-83 | the name lookup (with an optional `_id: { $ne }`) finds something exactly when another visible role holds the cast name |
| RoleModel.Find | models/Role.js:72-75 | `find` returns exactly the listed roles that match and are not soft-deleted |
| RoleModel.FindActive | models/Role.js:67-69 | `findActive` returns only matching roles whose `isDeleted` is false |
| RoleModel.FindActiveIsFind | models/Role.js:67-75 | `findActive` and a plain `find` return the same roles |
| RoleModel.DeleteOneHook | models/Role.js:78-83 | `deleteOne` is refused exactly when the query's name is SUPER_ADMIN or ADMIN as written |
| RoleModel.UpdateHook | models/Role.js:86-104 | `findOneAndUpdate`/`updateOne` are refused exactly when the query's name is protected and the update carries `permissions` |
| RoleModel.IdQueriesPassHooks | models/Role.js:78-104 | a query by id alone passes every hook, whatever the update |
| RoleModel.DeleteHookIsCaseSensitive | models/Role.js:79 | the lower-case spelling `super_admin` passes the `deleteOne` hook although it selects the SUPER_ADMIN document |
| RoleModel.ApplyUpdate | services/RoleService.js:90-97 | an update sets each path it mentions, cast by the setters, and leaves every other path unchanged |
| RoleModel.ValidateUpdate | services/RoleService.js:96 | `runValidators` accepts an update exactly when each path it mentions passes that path's validators |
| RoleModel.ValidatedUpdateKeepsValid | models/Role.js:4-17 | a validated update keeps a valid role valid |
| RoleModel.PutKeepsNamesUnique | models/Role.js:7 | writing a role under a name no other role holds keeps the unique index on `name` |
| RoleModel.OwnNameIsFree | models/Role.js:7 | under the unique index, no role but itself holds a role's name |
| UserModel.NewUser | services/UserService.js:24-30 | `User.create` stores the given fields and the hashed password, active, unverified, never logged in and not deleted |
| UserModel.NewUserPasswordMatches | services/AuthService.js:83 | a new user's password matches what is stored for it |
| UserModel.SoftDeleteUser | services/UserService.js:138 | the user's soft delete sets the marker and changes nothing else |
| UserModel.FindUser | services/AuthService.js:74 | `User.findOne` gives the first stored user that matches, with no read filter, and nothing only when none matches |
| UserModel.FindIdentity | services/UserService.js:10-12 | the `$or` of email and phone finds a user exactly when another user holds the email or the phone |
| UserModel.AddKeepsIdentitiesUnique | services/UserService.js:10-30 | writing a user whose email and phone no other user holds keeps both unique |
| Store.PutRole | models/Role.js:7-21 | writing a role with stored permissions and a free name keeps the store consistent |
| Store.PutPermission | models/Permission.js:7 | writing a permission under a free name keeps the store consistent |
| Store.Allocate | scripts/seed.js:49 | drawing a fresh id keeps the store consistent |
| Store.PutUser | services/UserService.js:24-30 | writing a user with a stored role and a free email and phone keeps the store consistent |
| Store.Db.InsertRole | services/RoleService.js:18-21 | the role is stored under the next id; the other collections are untouched |
| Store.Db.InsertPermission | scripts/seed.js:46-50 | the permission is stored under the next id; the other collections are untouched |
| Store.Db.ReplacePermission | scripts/seed.js:46-50 | permission `id` is overwritten; nothing else changes |
| Store.Db.ReplaceRole | services/RoleService.js:90-97 | role `id` is overwritten; nothing else changes |
| Store.Db.InsertUser | services/UserService.js:24-30 | the user is stored under the next id; the other collections are untouched |
| Store.Db.ReplaceUser | services/UserService.js:123-127 | user `id` is overwritten; nothing else changes |
| RoleService.CreateRole | services/RoleService.js:6-24 | "Role already exists" iff a visible role holds the uppercased name; otherwise the schema validators, then the unique index (which sees deleted roles), decide; on success exactly one role, with the cast name, is added under a fresh id; the new role is valid under the schema |
| RoleService.GetAllRoles | services/RoleService.js:26-30 | exactly the visible roles, newest first |
| RoleService.SearchListing | services/RoleService.js:32-46 | the search selects exactly the visible roles whose name contains the filter ignoring case (all of them for an empty filter), newest first |
| RoleService.NameFilterMatches | services/RoleService.js:36-38 | the name condition of the search, which a falsy filter leaves out; `RoleService.SearchListing` states what it selects |
| RoleService.CountAsWrittenBounds | services/RoleService.js:41 | `countDocuments` is never below the listing's length, and equals it while no role is soft-deleted |
| RoleService.CountAsWrittenIncludesDeleted | services/RoleService.js:41 | one soft-deleted role makes `totalRecords` 1 over an empty listing |
| RoleService.CountAsWritten | services/RoleService.js:41 | as written: `countDocuments` over every stored role, deleted or not; stated by `RoleService.CountAsWrittenBounds` and `RoleService.CountAsWrittenIncludesDeleted` |
| RoleService.SearchRoles | services/RoleService.js:32-57 | intended behaviour; as written: Findings row 1. The page is page `page` of the matching visible roles, newest first, with `totalRecords` the number of matches and `totalPages` its ceiling over `limit` |
| RoleService.SearchPagesCoverMatches | services/RoleService.js:48-56 | every matching role is on a page from 1 to `totalPages` |
| RoleService.GetRoleById | services/RoleService.js:59-68 | the role iff it is stored and not soft-deleted, otherwise 404 "Role not found" |
| RoleService.UpdateOf | services/RoleService.js:92-95 | the update built from a truthy name (uppercased) and a truthy description; `RoleService.UpdateRole` states what it writes |
| RoleService.UpdateRole | services/RoleService.js:70-100 | 404 iff the role is not visible; "Role name already exists" when another visible role holds the new name; otherwise only the validators and the unique index can refuse; on success only the supplied name (uppercased) and truthy description change; renaming a role to its own name succeeds; a valid role stays valid |
| RoleService.FindByIdAndUpdate | services/RoleService.js:90-97 | the update passes the hook, then only the validators and the unique index can refuse it; on success the role becomes the update applied to it; a valid role stays valid |
| RoleService.DeleteRole | services/RoleService.js:102-110 | 404 for a role not visible; "Cannot delete admin roles" for the reserved names; otherwise the role is soft-deleted and disappears from reads; a valid role stays valid |
| RoleService.FoundCountCheck | services/RoleService.js:119-125 | the count check passes exactly when every id names a stored permission and no id repeats |
| RoleService.FoundCount | services/RoleService.js:119-123 | how many documents the `$in` lookup returns; `RoleService.FoundCountCheck` states when it equals the number of ids |
| RoleService.SetPermissions | services/RoleService.js:112-132 | 404 for a role not visible; 400 "One or more permissions not found" unless every id is stored and none repeats; on success the role's list is exactly the ids given; on failure nothing changes; a valid role stays valid |
| UserService.CreateUser | services/UserService.js:6-33 | 400 when any user holds the email or the phone, then 400 when the role is not visible (SUPER_ADMIN is accepted); on success one user is added under a fresh id |
| UserService.GetAllUsers | services/UserService.js:35-39 | every stored user, newest first |
| UserService.SearchListing | services/UserService.js:41-61 | the search selects exactly the users meeting every filter given (name and email contain the filter ignoring case, role equal), newest first |
| UserService.FilterMatches | services/UserService.js:45-53 | the conjunction of the truthy name, email and role conditions; `UserService.SearchListing` states what it selects |
| UserService.SearchUsers | services/UserService.js:41-72 | the page is page `page` of the matching users, newest first, with `totalUsers` the number of matches and `totalPages` its ceiling over `limit` |
| UserService.SearchPagesCoverMatches | services/UserService.js:63-71 | every matching user is on a page from 1 to `totalPages` |
| UserService.GetUserById | services/UserService.js:74-83 | the user iff stored, otherwise 404 "User not found" |
| UserService.ApplyUserUpdateAsWritten | services/UserService.js:123-127 | as written, every supplied key is written, the password as the plain text given; only the password differs from the intended update (`UserService.UpdateDiffersOnlyInPassword`) |
| UserService.PrefixHasher | services/UserService.js:123-127 | a sound hashing scheme whose digests, like bcrypt's, never equal the password text |
| UserService.UpdatedPasswordAsWrittenFailsLogin | services/UserService.js:123-127 | as written, under such a scheme, `comparePassword` refuses the password the update has just set |
| UserService.ApplyUserUpdate | services/UserService.js:123-127 | intended behaviour; as written: Findings row 4. Every supplied key is written (the password hashed, the role set to `roleId`); every other field is unchanged |
| UserService.UpdateDiffersOnlyInPassword | services/UserService.js:123-127 | the intended and the as-written update agree on every field but the password, and agree fully when no password is supplied |
| UserService.UpdatedPasswordMatches | services/UserService.js:123-127 | with the intended update, under a sound scheme, the user can log in with the password just set |
| UserService.DuplicateCheckAsWritten | services/UserService.js:99-104 | as written, the check fails for every update that supplies an email or a phone |
| UserService.DuplicateCheck | services/UserService.js:93-97 | the intended check refuses exactly when a different user holds a supplied email or phone |
| UserService.DuplicateCheckAcceptsOwnIdentity | services/UserService.js:94-97 | a user that supplies its own email and phone passes the intended check |
| UserService.DuplicateCheckAsWrittenRefusesOwnEmail | services/UserService.js:99-104 | a user that supplies only its own email is refused as written and accepted as intended |
| UserService.UpdateUser | services/UserService.js:85-130 | intended behaviour; as written: Findings rows 3 and 4. 404 iff the user is not stored; 400 when another user holds a supplied email or phone; 400 for a supplied role that is not visible; on success every supplied key is written and nothing else changes |
| UserService.FindByIdAndUpdate | services/UserService.js:123-127 | intended behaviour; as written: Findings row 4. The write succeeds exactly when no other user holds the resulting email or phone; otherwise a duplicate-key error and no change |
| UserService.IdentityOfUpdate | services/UserService.js:123-125 | an updated user can collide with another user only through a value it supplies |
| UserService.DeleteUser | services/UserService.js:132-140 | 404 iff the user is not stored; otherwise the user is soft-deleted and nothing else changes |
| PermissionService.PrecedesTotal | services/PermissionService.js:7 | the (resource, action) order compares any two permissions |
| PermissionService.PrecedesTransitive | services/PermissionService.js:7 | the (resource, action) order is transitive |
| PermissionService.Precedes | services/PermissionService.js:7 | the `sort({ resource: 1, action: 1 })` order, ties by id; `PermissionService.PrecedesTotal` and `PermissionService.PrecedesTransitive` state that it is a total order |
| PermissionService.Insert | services/PermissionService.js:7 | insertion adds exactly one entry and drops none |
| PermissionService.InsertSorted | services/PermissionService.js:7 | inserting into a sorted listing keeps it sorted |
| PermissionService.SortByKey | services/PermissionService.js:7 | sorting is a permutation of its input |
| PermissionService.SortByKeySorted | services/PermissionService.js:7 | the sorted listing is ordered by resource, then action |
| PermissionService.GetAllPermissions | services/PermissionService.js:6-8 | every stored permission exactly once, ordered by resource then action, ties in insertion order |
| PermissionService.NoDuplicateDocs | services/PermissionService.js:7 | a sorted permutation of a listing with distinct ids keeps equal keys in strictly increasing id order |
| PermissionService.Populate | services/PermissionService.js:11-18 | `populate` gives the stored permissions the list names, in its order, and the list itself when every id is stored |
| PermissionService.GetUserPermissions | services/PermissionService.js:10-33 | 404 for an absent user; a deleted role's null populate throws; otherwise the id, name, email and role name, and the role's permissions in listed order |
| AuthService.GenerateTokens | services/AuthService.js:7-21 | both tokens are signed with the secret for the same user; only the refresh token has type `refresh`; access lasts the configured lifetime (default 7 days) and refresh lasts 30 days |
| AuthService.GeneratedTokensVerify | services/AuthService.js:7-21 | each token of a pair verifies to its user for its lifetime and is expired afterwards |
| AuthService.Register | services/AuthService.js:23-67 | 400 on any email or phone clash, then 400 for a role not visible, then 403 for SUPER_ADMIN, with no user created; on success exactly one user is added and the result holds no password, the role's name and tokens for the new id |
| AuthService.Login | services/AuthService.js:69-104 | looks up by email if given, else by phone; unknown user and wrong password give the same 401 "Invalid credentials"; success changes only `lastLogin` and returns tokens for that user; a stored user with the right password always succeeds |
| AuthService.LoginMatches | services/AuthService.js:73 | the query `email ? { email } : { phone }`; `AuthService.Login` states the user it finds |
| AuthService.RefreshToken | services/AuthService.js:106-128 | "Refresh token required" for a missing token; a fresh pair for the same user iff the token verifies, has type `refresh` and its user is stored; every other failure is "Invalid refresh token" |
| AuthService.RefreshRenewsPair | services/AuthService.js:106-128 | a pair's refresh token renews it while in its lifetime and its user exists; the pair's access token never does |
| AuthService.Logout | services/AuthService.js:130-134 | every call succeeds with the same message and reads no state |
| AuthMiddleware.BearerToken | middleware/authMiddleware.js:7 | no header gives no token; a `Bearer ` prefix is stripped; a header without it is taken whole |
| AuthMiddleware.PopulatedRole | middleware/authMiddleware.js:14-15 | the populated role is the user's role when it is visible, and empty otherwise |
| AuthMiddleware.Authenticate | middleware/authMiddleware.js:5-36 | each failure in the chain gives its own 401 message (no token, invalid, expired, user not found, inactive); it proceeds iff the token verifies and its user is stored and active, with that user as principal |
| AuthMiddleware.EitherTokenPassesGuard | middleware/authMiddleware.js:13-26 | the `type` claim is never read: a refresh token passes the guard like an access token |
| AuthMiddleware.BareTokenIsUsedWhole | middleware/authMiddleware.js:7 | a header without the prefix is used as the token unchanged |
| AuthMiddleware.Request.constructor | middleware/authMiddleware.js:5 | a request starts with its header and no user |
| AuthMiddleware.Guard | middleware/authMiddleware.js:5-36 | on success `req.user` is the principal and `next` gets no error; otherwise `req.user` is untouched and `next` gets the error |
| Validation.FirstBroken | utils/validation.js:5 | the first rule of a chain that the value breaks, and none only when it meets them all |
| Validation.CheckField | utils/validation.js:5-9 | a key fails exactly when it is not acceptable: missing and required, empty, or breaking a rule |
| Validation.Validate | utils/validation.js:4-12 | a schema accepts a body exactly when every key is acceptable, and otherwise reports the first key in schema order that is not |
| Validation.ValidateLogin | utils/validation.js:15-23 | the `.or('email', 'phone')` violation is reported exactly when neither key is sent and the password is fine |
| Validation.ValidateSetPermissions | utils/validation.js:69-75 | accepted iff `permissionIds` is present with at least one entry and no empty entry; the first empty entry is reported |
| Validation.LengthFieldOk | utils/validation.js:5 | a `min().max()` key is acceptable iff its length is within the bounds, or it is absent and optional |
| Validation.OneRuleFieldOk | utils/validation.js:6-9 | a one-rule key is acceptable iff it is non-empty and meets the rule, or is absent and optional |
| Validation.RegisterAccepts | utils/validation.js:3-13 | register accepts exactly a name of 2 to 50 characters, an email, a 10-digit phone, a password of at least 6 and a roleId |
| Validation.ValidateRegister | utils/validation.js:3-13 | the register schema; `Validation.RegisterAccepts` states what it accepts |
| Validation.LoginAccepts | utils/validation.js:15-23 | login accepts exactly a good password, well-formed optional email and phone, and one of the two sent |
| Validation.LoginBodyIdentifiesUser | utils/validation.js:15-23 | an accepted login body gives the login service a non-empty email or a phone |
| Validation.CreateUserIsRegisterThenImage | utils/validation.js:25-36 | create-user checks the register keys first, then the optional image |
| Validation.ValidateCreateUser | utils/validation.js:25-36 | the create-user schema; `Validation.CreateUserIsRegisterThenImage` states it |
| Validation.UpdateUserAccepts | utils/validation.js:38-49 | update-user accepts exactly the bodies in which each key sent meets its create-time rule |
| Validation.ValidateUpdateUser | utils/validation.js:38-49 | the update-user schema; `Validation.UpdateUserAccepts` states what it accepts |
| Validation.CreateUserBodyIsUpdateBody | utils/validation.js:25-49 | a body accepted by create-user is accepted by update-user |
| Validation.CreateRoleAccepts | utils/validation.js:51-58 | create-role accepts exactly a name of 2 to 50 and a description of 5 to 200 characters |
| Validation.ValidateCreateRole | utils/validation.js:51-58 | the create-role schema; `Validation.CreateRoleAccepts` states what it accepts |
| Validation.UpdateRoleAccepts | utils/validation.js:60-67 | update-role accepts the same bounds with either key optional |
| Validation.ValidateUpdateRole | utils/validation.js:60-67 | the update-role schema; `Validation.UpdateRoleAccepts` states what it accepts |
| Validation.CreateRoleBodyFitsRoleModel | utils/validation.js:51-58 | an accepted create-role body is refused by the role schema only when its name or description is all white space |
| Seed.CatalogueNamesDistinct | scripts/seed.js:21-43 | the catalogue has 14 entries under distinct names |
| Seed.CatalogueDeletes | scripts/seed.js:21-43 | the only DELETE entries are DELETE_USER and DELETE_ROLE |
| Seed.FindPermissionNamed | scripts/seed.js:46-47 | the upsert's lookup finds a permission with the name, and nothing only when none has it |
| Seed.Upserted | scripts/seed.js:46-50 | one permission upsert keyed by name; stated by `Seed.UpsertedStores` and `Seed.UpsertedKeepsNamesUnique` |
| Seed.UpsertedStores | scripts/seed.js:46-50 | an upsert stores the entry, keeps every id, draws at most one, and leaves permissions under other names alone |
| Seed.UpsertedKeepsNamesUnique | scripts/seed.js:46-50 | an upsert keeps the permission names unique |
| Seed.SeedKeepsNamesUnique | scripts/seed.js:45-51 | the permission loop keeps the names unique |
| Seed.SeedLeavesOthers | scripts/seed.js:45-51 | the loop leaves a permission no entry names as it was |
| Seed.SeedStoresEach | scripts/seed.js:45-51 | after the loop every entry of a list with distinct names is stored as it is |
| Seed.SeedOfSeeded | scripts/seed.js:45-51 | over a store already holding every entry, the loop changes nothing |
| Seed.SeedTwiceIsSeedOnce | scripts/seed.js:45-51 | running the loop twice leaves the store as running it once: one record per name |
| Seed.SeededPermissions | scripts/seed.js:45-51 | the permission loop; stated by `Seed.SeedStoresEach`, `Seed.SeedLeavesOthers`, `Seed.SeedOfSeeded` and `Seed.SeedTwiceIsSeedOnce` |
| Seed.SeedPermissionsIdempotent | scripts/seed.js:20-55 | re-running the permission seed changes nothing |
| Seed.UpsertPermission | scripts/seed.js:46-50 | one upsert writes the store as the upsert function says and touches no other collection |
| Seed.UpsertPermissions | scripts/seed.js:45-51 | the loop writes the store as the loop function says |
| Seed.SeedPermissions | scripts/seed.js:20-55 | `seedPermissions` upserts the catalogue in order |
| Seed.RoleSeeds | scripts/seed.js:65-89 | the role list is SUPER_ADMIN, ADMIN and USER, in that order |
| Seed.SuperAdminPermissions | scripts/seed.js:69 | every listed id; `Seed.SuperAdminHasAll` states it |
| Seed.AdminPermissions | scripts/seed.js:74-79 | the four filtered id lists; `Seed.AdminWithinSuperAdmin`, `Seed.AdminReadsRolesOnly` and `Seed.AdminDeletesNothing` state them |
| Seed.UserPermissions | scripts/seed.js:84-87 | the two READ id lists; `Seed.UserWithinAdmin` states them |
| Seed.SuperAdminHasAll | scripts/seed.js:69 | SUPER_ADMIN is given every permission of the listing |
| Seed.AdminWithinSuperAdmin | scripts/seed.js:74-79 | every permission of ADMIN is a permission of SUPER_ADMIN |
| Seed.UserWithinAdmin | scripts/seed.js:84-87 | every permission of USER is a permission of ADMIN |
| Seed.AdminReadsRolesOnly | scripts/seed.js:76 | of the ROLE permissions, ADMIN holds only READ ones |
| Seed.AdminDeletesNothing | scripts/seed.js:75-78 | over catalogue entries, ADMIN holds no DELETE permission |
| Seed.UpsertedRoleRefused | scripts/seed.js:92-96 | a role upsert is refused, by the unique index, exactly when only soft-deleted roles hold the name |
| Seed.UpsertedRoleStoresSeed | scripts/seed.js:92-96 | a role upsert that goes through stores the seed, leaves other names alone and keeps names unique |
| Seed.WriteStoresSeed | scripts/seed.js:92-96 | writing the seed under its name's holder or a fresh id stores it and keeps the names unique |
| Seed.UpsertedRoleOfHeld | scripts/seed.js:92-96 | a role upsert of a seed already held changes nothing |
| Seed.UpsertedRole | scripts/seed.js:92-96 | intended behaviour; as written: Findings row 2. One role upsert keyed by name with no hook; stated by `Seed.UpsertedRoleRefused`, `Seed.UpsertedRoleStoresSeed` and `Seed.UpsertedRoleOfHeld` |
| Seed.UpsertedRoleAsWritten | scripts/seed.js:92-96 | as written: the `findOneAndUpdate` hook of models/Role.js:86-94 runs before the upsert; `Seed.SeedRolesAsWrittenIsRefused` states that it refuses the first seed |
| Seed.SeedRolesAsWrittenIsRefused | scripts/seed.js:91-97 | as the hooks run it, the first upsert, SUPER_ADMIN with permissions, is refused and no role is written |
| Seed.SeededRoles | scripts/seed.js:91-97 | the role loop, with or without the hook; stated by `Seed.SeedRolesAsWrittenIsRefused` (with it) and `Seed.SeededRolesKeepNamesUnique`, `Seed.SeededRolesStoreEach`, `Seed.SeededRolesOfHeld` (without it) |
| Seed.SeededRolesKeepNamesUnique | scripts/seed.js:91-97 | the role loop keeps names unique; only the unique index can stop it |
| Seed.SeededRolesStoreEach | scripts/seed.js:91-97 | after a complete loop every seed whose name no later seed shares is stored |
| Seed.SeedLeftAlone | scripts/seed.js:91-97 | the role loop leaves a role no seed names as it was |
| Seed.SeededRolesOfHeld | scripts/seed.js:91-97 | over a store already holding every seed, the role loop changes nothing |
| Seed.CapitalsAreNormal | scripts/seed.js:67 | a name of capitals and inner underscores is its own cast |
| Seed.SeededRolesComplete | scripts/seed.js:91-97 | with no soft-deleted role, the role loop runs to the end |
| Seed.RoleSeedNamesDistinct | scripts/seed.js:65-89 | the three seeds are cast to three different names |
| Seed.SeedRolesIdempotent | scripts/seed.js:57-101 | re-running a completed role seed changes nothing |
| Seed.SeedPermissionsStored | scripts/seed.js:59-89 | every id a seed lists names a stored permission |
| Seed.UpsertRole | scripts/seed.js:92-96 | intended behaviour; as written: Findings row 2. One role upsert writes the store as the upsert function says, or fails with its error and no change |
| Seed.SeedRoles | scripts/seed.js:57-101 | intended behaviour; as written: Findings row 2. `seedRoles` builds the seeds from the stored permissions and runs the loop, stopping at the first error |
| Seed.SuperAdminRoleId | scripts/seed.js:104 | the lookup gives a visible SUPER_ADMIN role, and throws reading `_id` only when there is none |
| Seed.AdminRecord | scripts/seed.js:106-115 | the admin document has the seed's name, email, phone, hashed password and role, active and verified, and keeps the other fields of a user it overwrites |
| Seed.AdminSlotIsFree | scripts/seed.js:117-121 | when the admin upsert goes through, it writes the email's holder or a fresh id, and no other user holds the email or phone |
| Seed.SeededAdmin | scripts/seed.js:117-121 | the admin upsert keyed by email; stated by `Seed.AdminSlotIsFree`, `Seed.SeededAdminRefused` and `Seed.SeededAdminStoresAdmin` |
| Seed.SeededAdminRefused | scripts/seed.js:117-121 | the admin upsert is refused, by the phone index, exactly when a user without the admin email holds the admin phone |
| Seed.SeededAdminStoresAdmin | scripts/seed.js:103-126 | a successful admin upsert stores an active, verified admin of the given role whose password matches, and leaves other users alone |
| Seed.SeedAdminUser | scripts/seed.js:103-126 | `seedAdminUser` fails without a SUPER_ADMIN role, else writes the store as the upsert function says |
| Seed.SeededRolesHoldSuperAdmin | scripts/seed.js:100-104 | with no soft-deleted role, the role seed completes and leaves a SUPER_ADMIN role for the admin |
| Seed.FirstSeedHeld | scripts/seed.js:91-97 | with no soft-deleted role, the loop completes and holds its first seed |
| Seed.SuperAdminFound | scripts/seed.js:104 | a store holding the SUPER_ADMIN seed has a role for the admin |
| Seed.SeedDatabase | scripts/seed.js:128-150 | intended behaviour; as written: Findings row 2 (the run stops at the first role). The catalogue is seeded; on success a stored admin is active, verified and holds a visible SUPER_ADMIN role; with no soft-deleted role and the admin phone held only by the admin email's owner, the run succeeds |

## Left out

- models/User.js is not part of this model. The model assumes these facts about it:
  - the user record has the fields the services and the seed script use;
  - `email` and `phone` carry unique indexes;
  - a save-time hook hashes the password on `create` and `save`, and no hook hashes on `findOneAndUpdate` (the seed script hashes the admin password itself before its upsert);
  - password hashing and `comparePassword` are an opaque `Hasher`, and `Sound` says a password matches its own hash;
  - a user's soft delete sets a marker shaped like the role's;
  - users have no read filter.
- utils/HttpError.js is not part of this model. An HTTP error is its status and message.
- bcrypt and jsonwebtoken are foreign cryptography. A token is a claims record bound to the key it was signed with, and `decode` reads token text (the JWT compact form) into a token. The bcrypt cost is not modelled.
- `JWT_EXPIRES_IN` is given as a number of seconds, not as a duration string such as `'7d'`.
- `populate`'s field projections (`select`) are not modelled. A population is modelled only in `AuthService.Login`, `AuthMiddleware.PopulatedRole`, `PermissionService.Populate` and `PermissionService.GetUserPermissions`.
- RoleService.GetAllRoles: returns each role with its permission ids. The source populates `permissions` (services/RoleService.js:28): the stored documents in list order, missing ids dropped, as `PermissionService.Populate` states.
- RoleService.SearchRoles: returns each role with its permission ids, not the populated documents (services/RoleService.js:43).
- RoleService.GetRoleById: returns the role with its permission ids, not the populated documents (services/RoleService.js:61).
- RoleService.UpdateRole: returns the role with its permission ids, not the populated documents (services/RoleService.js:97).
- RoleService.SetPermissions: returns the role with its permission ids, not the populated documents (services/RoleService.js:130-131).
- UserService.CreateUser: returns the user with its role id. The source populates `role` (services/UserService.js:32), which is null when the role is soft-deleted, as `AuthMiddleware.PopulatedRole` states.
- UserService.GetAllUsers: returns each user with its role id, not the populated role (services/UserService.js:37).
- UserService.SearchUsers: returns each user with its role id, not the populated role (services/UserService.js:58).
- UserService.GetUserById: returns the user with its role id, not the populated role (services/UserService.js:76).
- UserService.UpdateUser: returns the user with its role id, not the populated role (services/UserService.js:127).
- The `$regex` filters are modelled as a case-insensitive substring test. This assumes the filter holds no regular-expression metacharacters. Case folding is ASCII only, here and in the `uppercase` setters.
- RoleModel.NewRole: lengths are counted in code points (`|s|`), while Mongoose's `maxlength` counts UTF-16 code units. A name of 26 characters outside the Basic Multilingual Plane is 52 units, so `maxlength: 50` refuses it, but `NewRole` accepts it. When several paths fail, Mongoose's `ValidationError` lists them all; `NewRole` reports the first, name before description.
- PermissionModel.NewPermission: lengths are counted in code points, not UTF-16 code units, as for `NewRole`; only the first failing path is reported, in the order name, description, resource, action.
- RoleModel.ValidateUpdate: lengths are counted in code points, not UTF-16 code units; only the first failing path is reported, name before description.
- Validation.CheckField: Joi's `min` and `max` count UTF-16 code units; the model counts code points.
- String order is by code point. MongoDB's default binary collation and JavaScript's UTF-16 order can differ outside the Basic Multilingual Plane.
- Documents with equal sort keys come out in id order. MongoDB does not guarantee this.
- `createdAt` order is modelled as id order.
- Joi behaviour that is not modelled:
  - messages and `abortEarly`;
  - unknown keys;
  - values that are not strings (only `permissionIds` is an array);
  - the email and URI formats, which are parameters.
- ObjectId casting is not modelled. An id that does not cast would throw a CastError; here ids are numbers.
- RoleService.SearchRoles: requires `page` and `limit` of at least 1. The callers parse them with `parseInt(...) || default`, and a negative value reaching `skip` is not modelled.
- UserService.SearchUsers: requires `page` and `limit` of at least 1, for the same reason.
- AuthService.Login: requires an email or a phone. This is what the login validator guarantees (`Validation.LoginBodyIdentifiesUser`).
- AuthMiddleware.Authenticate: errors other than token errors, such as a database failure, would pass to `next` unchanged (middleware/authMiddleware.js:34). The model has no such errors.
- Concurrency is not modelled: no interleaving of the check-then-write sequences. A wall-clock `Date` is the `now` parameter.
- The seed script's connection, console output, closing and `process.exit` are not modelled. `SeedDatabase` ends at the first error, as the `catch` does.
- Seed: the catalogue entries are taken as already cast, since each is uppercase and trimmed. Their validity under the permission schema's validators is not proved.
- Controllers, routes, server.js and utils/httpResponse.js are not core and are not modelled.

## Findings

| source | as written | input that shows it | evidently intended | confidence | as-written member | corrected member |
|---|---|---|---|---|---|---|
| services/RoleService.js:41 | `Role.countDocuments(query)` is not covered by the `^find` hook, so `totalRecords` and `totalPages` count soft-deleted roles | one role, soft-deleted: `totalRecords` is 1, the listing is empty | the count of the roles the search lists | not executed | RoleService.CountAsWrittenIncludesDeleted | RoleService.SearchRoles |
| scripts/seed.js:91-97 | the role upsert queries `{ name: 'SUPER_ADMIN' }` with an update carrying `permissions`, which the `findOneAndUpdate` hook (models/Role.js:86-94) refuses | any store: the first upsert throws "Cannot modify admin role permissions" and the seed stops before any role or the admin user is written | the three roles upserted with their permission lists | not executed | Seed.SeedRolesAsWrittenIsRefused | Seed.SeedRoles |
| services/UserService.js:99-104 | the duplicate check queries `{ $and: [ { _id: { $ne: id } }, { $or: [] } ] }`; MongoDB refuses an empty `$or` | an update that supplies the user's own email: refused as written | refuse only when a different user holds a supplied email or phone | not executed | UserService.DuplicateCheckAsWrittenRefusesOwnEmail | UserService.UpdateUser |
| services/UserService.js:123-127 | `User.findByIdAndUpdate(userId, { ...updateData })` writes a supplied `password` as given; an update is not a save, so the save-time hashing does not run | an update that sets password `p`: the stored value is `p`, and `comparePassword(p)` against it fails under a bcrypt-shaped scheme | the new password stored hashed, as `User.create` stores it, so that it logs in | not executed; depends on models/User.js, which is not part of this model | UserService.UpdatedPasswordAsWrittenFailsLogin | UserService.ApplyUserUpdate |
