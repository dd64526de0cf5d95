# Identity and delegation hierarchy: a verified Dafny model

This project models the identity core of a NestJS back end: the user service
(`back/src/modules/user/user.service.ts`) and the auth service
(`back/src/modules/auth/auth.services.ts`). It covers account creation by
self-service and by an admin, bulk import from spreadsheet rows, lookups,
update and delete, the organisational structure (parent/child edges), sign-in
with its first-login gate, and the password change that clears that gate.

The three repositories (users, roles, structure edges) and the log of mails
the mail service is asked to send form one value, `Entities.Store`. The
store also carries the next id the user repository will hand out.

- `Users` and `Auth` describe each operation as a function. For a read, the
  function gives the reply. For a change, it gives the reply and the new store.
- `UsersLemmas`, `ImportLemmas` and `AuthLemmas` prove what those functions
  promise.
- `Services.UserService` and `Services.AuthService` are classes whose fields
  are the repositories. Their methods carry out the source's steps in the
  source's order, in place. Each method is proved to give the reply and
  leave the state that the matching function describes.

External pieces are abstracted:

- bcrypt is an injective `Hash` with `Compare(p, h) == (Hash(p) == h)`.
- A JWT is an opaque `Signed(payload)` value.
- Mails are entries appended to a log.
- The random password generator is an input: `generated`, or `gen(i)` for
  import row `i`.
- Parsed spreadsheet rows are an input sequence.

Store invariant `Entities.Valid`:

- every record sits under its own id, and ids are below `nextId`;
- dni and email are unique;
- every role a user holds exists;
- each child appears in at most one edge;
- edges only name allocated ids.

Every state-changing operation is proved to keep it.

Modelling choices:

- JavaScript falsiness is encoded explicitly. An empty string stands for an
  absent or empty field, and dni `0` for an absent dni. `roles` is
  `Option<seq<RoleId>>`.
- When the password is generated, the source leaves `isFirstLogin` to the
  entity default (`user.service.ts:187`, `:337`). The entity is not part of
  this model, so the default is taken to be `true` (the user must change the
  password). A supplied password gives `false`.
- The role check is modelled as the source writes it: the number of roles
  found by an `IN` query must equal the number requested. `UsersLemmas.RolesFoundExactly`
  proves this holds exactly when the request names distinct, existing roles.
  The source stores the roles the query returns through a many-to-many
  relation, which keeps no order. The model fixes one order: the order of
  the request. Where a lemma speaks of a user's roles "in order"
  (`AuthLemmas.SigInDecision`, `AuthLemmas.RoleNamesExact`), it means this
  order of the model.
- `updateUserById` saves the payload over the old record. `Users.Updated`
  models this:
  - name, dni and email are overwritten;
  - the password is re-hashed;
  - roles are replaced only when the payload has them.

  The storage layer is assumed to refuse a save that would duplicate a dni
  or email or name an unknown role (`Users.SaveAccepted`). The entity's
  unique constraints and foreign keys are not part of this model. Every
  failure of this operation is reported as one internal error, as the
  source's `catch` makes it. The same holds for `getUsers`, `getUserById`
  and `deteleUserById`.
- Creation saves the user and queues its mail before it looks up the parent.
  An unknown `parentId` is therefore rejected after the user exists, with no
  edge (`UsersLemmas.ProvisionParent`).
- The "already related to another parent" check can never fire for a freshly
  created id in a valid store. `ProvisionParent` shows every existing parent
  yields the edge.
- A parent id equal to the id the new user receives is found: the user was
  just saved. That gives a self edge, as in the source.
- `deteleUserById` removes the user and leaves the structure edges as they
  are.

## Model

| member | source | states |
|---|---|---|
| Users.FindUserByDni | back/src/modules/user/user.service.ts:143-149 | Ok exactly when some user holds the dni; the result is a stored user with that dni; otherwise NotFound |
| Users.FindUserByEmail | back/src/modules/user/user.service.ts:134-140 | Ok exactly when some user holds the email; the result is a stored user with that email; otherwise NotFound |
| Users.FindUserByEmailXlsx | back/src/modules/user/user.service.ts:296-298 | Some exactly when some user holds the email, and then that stored user; absence is a value, not an error |
| Users.GetUserById | back/src/modules/user/user.service.ts:115-131 | Ok exactly for a stored id, with that user's record minus the password; any failure is the internal "Error retrieving user" |
| Users.Children | back/src/modules/user/user.service.ts:38-43 | an id is a child of the parent exactly when the structure holds that (parent, child) edge |
| Users.GetUsers | back/src/modules/user/user.service.ts:29-58 | no parent: all users; known parent: exactly the stored users that are its direct children (none gives empty); unknown parent: the internal "Error retrieving users" |
| Users.MissingFields | back/src/modules/user/user.service.ts:285-293 | empty iff name, dni and email are all present; each field is listed iff it is missing; names come from nombre, dni, correo in that order |
| Auth.RoleNames | back/src/modules/auth/auth.services.ts:48 | at most one name per role id, each a name in the role table |
| Auth.Authenticate | back/src/modules/auth/auth.services.ts:36-55 | fails iff the password does not verify; yields a session iff it verifies and the first-login flag is clear |
| Auth.SigIn | back/src/modules/auth/auth.services.ts:25-57 | MissingData iff the email or password is empty; every failure is BadRequest or Unauthorized |
| Auth.SigInAsWritten | back/src/modules/auth/auth.services.ts:25-57 | MissingData iff a field is empty; an internal server error iff the request is complete and no user holds the email |
| Users.Provision | back/src/modules/user/user.service.ts:152-227 | the creation steps shared by both channels (createUserByAdmin at user.service.ts:300-366): the role table is unchanged and the structure and mail log only grow; a failure other than the parent checks leaves the store unchanged; any change adds one id and one mail; a success reports the next id, the payload's dni and email, the requested or default roles, and the first-login flag set iff no password was supplied. The full reply and store are stated in UsersLemmas.ProvisionRejects, ProvisionSaves, ProvisionParent and ProvisionFrame |
| Users.CreateUser | back/src/modules/user/user.service.ts:152-227 | a success holds the requested roles or the default role 4 alone; a change queues a password mail with the generated password when none was supplied and a welcome mail otherwise |
| Users.CreateUserByAdmin | back/src/modules/user/user.service.ts:300-366 | a success holds the requested roles or the default role 3 alone; a change always queues a password mail with the password used |
| Users.UpdateUserById | back/src/modules/user/user.service.ts:77-112 | a failure is the internal "Error updating user" and changes nothing; a success needs a stored id and a password, replaces only that user's record, which takes the payload's name, dni and email, and replies with its view. UsersLemmas.UpdateOutcome states the whole record and the exact success condition |
| Users.DeleteUserById | back/src/modules/user/user.service.ts:61-74 | succeeds iff the id is stored; the new store is the old one without that user, in either case |
| Users.ImportStep | back/src/modules/user/user.service.ts:257-275 | the row's outcome names the row's email; an incomplete row or one whose email exists is rejected and changes nothing. ImportLemmas.ImportStepRejects and ImportStepKeeps state the rest |
| Users.ImportRows | back/src/modules/user/user.service.ts:256-276 | one outcome per row. ImportLemmas.ImportPrefix, ImportEntriesFollowRows and ImportKeeps state order, row correspondence and the invariant |
| Users.ImportUsers | back/src/modules/user/user.service.ts:244-282 | fails iff the file path is empty, and then with FileNotSelected and nothing changed. ImportLemmas.ImportUsersOutcome adds one report entry per row |
| Auth.NewPasswordLogin | back/src/modules/auth/auth.services.ts:60-87 | a failure changes nothing; a success replies "password changed successfully", changes only the users, and needs a stored dni and a confirmed new password. AuthLemmas.NewPasswordLoginRejects and NewPasswordLoginSucceeds state every branch |
| UsersLemmas.RolesFoundExactly | back/src/modules/user/user.service.ts:171-176 | the roles found never outnumber those requested, and they are as many exactly when the request names distinct roles that all exist |
| UsersLemmas.ProvisionRejects | back/src/modules/user/user.service.ts:153-176 | a taken dni, then a taken email, then a missing default role, then unresolved requested roles: each reports its failure and leaves the store unchanged; createUserByAdmin makes the same checks in the same order at user.service.ts:301-327 |
| UsersLemmas.ProvisionSaves | back/src/modules/user/user.service.ts:161-200 | an admitted creation stores one user under the next id: default role alone or the requested roles; hash of the password used; first-login flag set iff no password was supplied; one mail (password mail with the plaintext when generated or by an admin, welcome mail otherwise); the reply is that user minus the password; createUserByAdmin builds and saves the user and always sends the password mail at user.service.ts:311-340 |
| UsersLemmas.ProvisionParent | back/src/modules/user/user.service.ts:203-222 | no parent: no edge; unknown parent: ParentMissing with the user already saved and no edge; existing parent: exactly one edge (parent, new user) appended; createUserByAdmin repeats this at user.service.ts:342-362 |
| UsersLemmas.ProvisionFrame | back/src/modules/user/user.service.ts:152-227 | creation changes no existing user or role; it only appends to the structure and mail log; a success reports the new id and the stored record minus the password |
| UsersLemmas.ProvisionPreservesValid | back/src/modules/user/user.service.ts:152-227 | creation by either channel keeps the store invariant (unique dni and email, one parent per child, roles exist) |
| UsersLemmas.CreatedUserIsFound | back/src/modules/user/user.service.ts:152-227 | after a successful creation the new user is found by its dni, by its email and by its id |
| UsersLemmas.CreatedChildIsListed | back/src/modules/user/user.service.ts:203-222 | a user created under a parent is listed among that parent's children |
| UsersLemmas.ChildrenDisjoint | back/src/modules/user/user.service.ts:209-215 | with one parent per child, two different parents list disjoint children |
| UsersLemmas.UpdateOutcome | back/src/modules/user/user.service.ts:77-112 | succeeds iff the id exists, a password is given and the save is accepted; a failure is the internal "Error updating user" and changes nothing; a success replaces only that user's record and changes nothing else in the store; the saved record takes name, dni and email from the payload, the hash of the payload's password, the payload's roles when it has them and the old roles otherwise, and keeps the id and first-login flag; the reply is what getUserById then returns |
| UsersLemmas.UpdatePreservesValid | back/src/modules/user/user.service.ts:77-112 | an update keeps the store invariant |
| UsersLemmas.DeleteOutcome | back/src/modules/user/user.service.ts:61-74 | succeeds iff the id exists; a failure is the internal "Error deleting user" and changes nothing; a success removes exactly that user, who is then not found, and changes nothing else in the store (no mail, same next id, edges and roles) |
| UsersLemmas.DeletePreservesValid | back/src/modules/user/user.service.ts:61-74 | a delete keeps the store invariant |
| UsersLemmas.UserOperationsKeepFirstLoginCleared | back/src/modules/user/user.service.ts:61-227 | creation, update and delete never set a cleared first-login flag again |
| ImportLemmas.ReportAccounting | back/src/modules/user/user.service.ts:253-281 | added and errors together hold exactly one entry per outcome |
| ImportLemmas.ImportRowsSnoc | back/src/modules/user/user.service.ts:256-276 | processing one more row appends that row's outcome and moves to the store its step leaves |
| ImportLemmas.ReportSnoc | back/src/modules/user/user.service.ts:266-275 | an added outcome extends only addedUsers, with its email; a rejected one extends only errors, with its entry |
| ImportLemmas.ImportPrefix | back/src/modules/user/user.service.ts:256-276 | the outcomes of the first k rows are the first k outcomes of all rows: rows are handled in input order |
| ImportLemmas.ImportStepEmail | back/src/modules/user/user.service.ts:258-275 | each iteration's entry names its row's email |
| ImportLemmas.ImportEntriesFollowRows | back/src/modules/user/user.service.ts:256-276 | entry i of the report is about row i |
| ImportLemmas.AddedOfMembers | back/src/modules/user/user.service.ts:266-272 | addedUsers holds exactly the emails of rows reported as added |
| ImportLemmas.AddedOfPrefix | back/src/modules/user/user.service.ts:256-276 | the outcomes of a prefix contribute a prefix of addedUsers |
| ImportLemmas.ImportAddedInRowOrder | back/src/modules/user/user.service.ts:256-276 | the emails added by the first k rows are the first entries of addedUsers |
| ImportLemmas.ImportStepRejects | back/src/modules/user/user.service.ts:258-275 | an incomplete row is reported with its missing fields; a complete row whose email exists is reported as existing; neither changes the store or reaches createUser; otherwise the row's outcome is createUser's |
| ImportLemmas.ImportStepKeeps | back/src/modules/user/user.service.ts:256-276 | one iteration keeps the invariant and every existing user; an added row's email was new and now belongs to a user |
| ImportLemmas.ImportKeeps | back/src/modules/user/user.service.ts:244-282 | the whole loop keeps the invariant and every earlier user, never re-sets a cleared first-login flag, and reports distinct added emails, each new before and present after |
| ImportLemmas.ImportUsersOutcome | back/src/modules/user/user.service.ts:244-282 | fails iff the file path is empty (FileNotSelected, nothing changed); otherwise the report has one entry per row and the loop never aborts |
| AuthLemmas.RoleNamesExact | back/src/modules/auth/auth.services.ts:48 | when every role id resolves, the token lists one name per role, each the name of the role at that position |
| AuthLemmas.SigInDecision | back/src/modules/auth/auth.services.ts:25-57 | wrong password: Unauthorized; right password and flag set: only the change-password reply; right password and flag clear: a token with sub = id = the user's id, the user's email and the names of the user's roles in order, plus the user minus the password |
| AuthLemmas.FirstLoginGate | back/src/modules/auth/auth.services.ts:53-55 | a user whose first-login flag is set never receives a token, whatever the password |
| AuthLemmas.SessionOnlyForActiveUsers | back/src/modules/auth/auth.services.ts:36-52 | a token is issued only to an existing user with that email, a clear flag and a verifying password, and names that user |
| AuthLemmas.NewPasswordLoginRejects | back/src/modules/auth/auth.services.ts:60-79 | every failure leaves the store unchanged; a missing field is MissingData; an unknown dni is NotFound |
| AuthLemmas.NewPasswordLoginSucceeds | back/src/modules/auth/auth.services.ts:68-85 | for the user with that dni: succeeds iff the new password is confirmed and the current one verifies (PasswordsDiffer and WrongCurrentPassword otherwise); success clears the flag, stores the new hash, changes no other user and keeps the invariant |
| AuthLemmas.NewPasswordLoginKeepsFirstLoginCleared | back/src/modules/auth/auth.services.ts:81-85 | a password change never sets a cleared first-login flag again |
| AuthLemmas.ChangeThenSignIn | back/src/modules/auth/auth.services.ts:25-87 | after a successful change the user signs in with the new password and gets a token, and a different old password no longer verifies |
| AuthLemmas.SigInUnknownEmailCrashes | back/src/modules/auth/auth.services.ts:31-36 | as written, a complete request for an unknown email is an internal server error; the corrected sign-in answers Unauthorized |
| AuthLemmas.SigInAsWrittenOnEmptyStore | back/src/modules/auth/auth.services.ts:31-36 | a concrete request on an empty store that reaches the null user |
| AuthLemmas.SigInCorrectionIsLocal | back/src/modules/auth/auth.services.ts:25-57 | outside the unknown-email case the corrected sign-in answers exactly as written |
| Services.UserService.constructor | back/src/modules/user/user.service.ts:18-26 | empty user and structure repositories over a role table satisfy the invariant |
| Services.UserService.Save | back/src/modules/auth/auth.services.ts:84 | saving a record replaces that id's entry and nothing else |
| Services.UserService.Provision | back/src/modules/user/user.service.ts:152-227 | the shared creation steps, in place, give the reply and leave the state that Users.Provision describes, keeping the store invariant; these are also the steps of createUserByAdmin at user.service.ts:300-366 |
| Services.UserService.CreateUser | back/src/modules/user/user.service.ts:152-227 | in place, as Users.CreateUser (default role 4), keeping the store invariant |
| Services.UserService.CreateUserByAdmin | back/src/modules/user/user.service.ts:300-366 | in place, as Users.CreateUserByAdmin (default role 3, password mail always), keeping the store invariant |
| Services.UserService.UpdateUserById | back/src/modules/user/user.service.ts:77-112 | in place, as Users.UpdateUserById, keeping the store invariant |
| Services.UserService.DeleteUserById | back/src/modules/user/user.service.ts:61-74 | in place, as Users.DeleteUserById, keeping the store invariant |
| Services.UserService.ValidateUserFields | back/src/modules/user/user.service.ts:285-293 | the pushes build exactly MissingFields(row), which is empty iff the row is complete |
| Services.UserService.ImportRow | back/src/modules/user/user.service.ts:257-275 | one loop iteration in place, as Users.ImportStep, keeping the invariant |
| Services.UserService.ImportUsers | back/src/modules/user/user.service.ts:244-282 | the loop's pushes onto addedUsers and errors produce the report and state Users.ImportUsers describes, keeping the invariant |
| Services.AuthService.constructor | back/src/modules/auth/auth.services.ts:15-22 | the service holds the given user service |
| Services.AuthService.NewPasswordLogin | back/src/modules/auth/auth.services.ts:60-87 | the in-place assignments and save give the reply and state Auth.NewPasswordLogin describes, keeping the invariant |
| Services.AuthService.SigUp | back/src/modules/auth/auth.services.ts:92-96 | exactly createUser with the same payload and parent, keeping the store invariant |

## Left out

- `readExcelFile` (file system and XLSX parsing): the import takes the parsed rows as a sequence.
- bcrypt's salt and cost factor: `Hash` is deterministic and injective, and `Compare` is equality of hashes.
- JWT signing and the one-hour expiry: the token is the payload wrapped as `Signed`.
- Mail delivery: only which mail would be sent (welcome or password, to whom, with which password) is logged.
- `generateRandomPassword`: its output is a parameter, so nothing is said about its strength.
- TypeORM mechanics: relation loading, `create`/`save` merging of absent payload fields, and the unique constraints and foreign keys of the entities. Those are assumed as `Users.SaveAccepted`.
- Races between the existence checks and the inserts: the model is sequential.
- Texts of the messages and of the import error strings: an import error is a structured entry carrying the same data.
- The delete reply's text: `Users.DeleteUserById` returns the removed id.
- Profile fields other than name, dni and email, role objects passed inside an update payload, and the candidate relation `getUserById` loads.
- Users.UpdateUserById: does not model absent payload fields keeping their old value. Name, dni and email are always taken from the payload.

## Findings

| source | as written | input that shows it | evidently intended | confidence | as-written member | corrected member |
|---|---|---|---|---|---|---|
| back/src/modules/auth/auth.services.ts:31-36 | the user found by email is used without a check, so an unknown email dereferences `null` and the request fails as an internal server error | any store with no user holding `a@x.com`, login `{email: "a@x.com", password: "secret"}` (`AuthLemmas.SigInAsWrittenOnEmptyStore`) | refuse as Unauthorized, like a wrong password | not executed | Auth.SigInAsWritten | Auth.SigIn |
