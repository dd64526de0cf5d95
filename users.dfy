/** The user service (back/src/modules/user/user.service.ts) as functions
    over the store value: the read-only lookups, and for every operation
    that changes the repositories, the reply it gives and the store it
    leaves. The class Services.UserService carries out the same operations
    step by step and is proved against these functions. */
module Users {
  import opened Entities

  const ErrorRetrievingUsers := "Error retrieving users"
  const ErrorRetrievingUser := "Error retrieving user"
  const ErrorUpdatingUser := "Error updating user"
  const ErrorDeletingUser := "Error deleting user"

  // ---------------------------------------------------------------------
  // Read-only lookups
  // ---------------------------------------------------------------------

  /** findUserByDni: the user with that dni, or NotFound. */
  function FindUserByDni(st: Store, dni: int): (r: Result<User>)
    requires UniqueDni(st.users)
    ensures r.Ok? <==> DniExists(st.users, dni)
    ensures r.Ok? ==> r.value.dni == dni && r.value in st.users.Values
    ensures r.Err? ==> r.failure == UserNotFound
  {
    if DniExists(st.users, dni) then
      var id :| id in st.users && st.users[id].dni == dni;
      Ok(st.users[id])
    else
      Err(UserNotFound)
  }

  /** findUserByEmail: the user with that email, or NotFound. */
  function FindUserByEmail(st: Store, email: string): (r: Result<User>)
    requires UniqueEmail(st.users)
    ensures r.Ok? <==> EmailExists(st.users, email)
    ensures r.Ok? ==> r.value.email == email && r.value in st.users.Values
    ensures r.Err? ==> r.failure == UserNotFound
  {
    if EmailExists(st.users, email) then
      var id :| id in st.users && st.users[id].email == email;
      Ok(st.users[id])
    else
      Err(UserNotFound)
  }

  /** findUserByEmailxlsx: like findUserByEmail, but absence is a value, not an error. */
  function FindUserByEmailXlsx(st: Store, email: string): (r: Option<User>)
    requires UniqueEmail(st.users)
    ensures r.Some? <==> EmailExists(st.users, email)
    ensures r.Some? ==> r.value.email == email && r.value in st.users.Values
  {
    match FindUserByEmail(st, email)
    case Ok(u) => Some(u)
    case Err(_) => None
  }

  /** getUserById: the public view of the user; every failure is reported as an internal error. */
  function GetUserById(st: Store, id: UserId): (r: Result<PublicUser>)
    ensures r.Ok? <==> id in st.users
    ensures r.Ok? ==> r.value == View(st.users[id])
    ensures r.Err? ==> r.failure == Internal(ErrorRetrievingUser)
  {
    if id in st.users then Ok(View(st.users[id])) else Err(Internal(ErrorRetrievingUser))
  }

  /** The ids the structure names as children of parent. */
  function Children(edges: seq<Edge>, parent: UserId): (c: set<UserId>)
    ensures forall id :: id in c <==> Edge(parent, id) in edges
  {
    set i | 0 <= i < |edges| && edges[i].parent == parent :: edges[i].child
  }

  /** getUsers: with no parent, every user; with a parent, its direct
      children in the structure (no error when it has none); an unknown
      parent is reported as an internal error. Records keep their password. */
  function GetUsers(st: Store, parentId: Option<UserId>): (r: Result<map<UserId, User>>)
    ensures r.Err? <==> parentId.Some? && parentId.value !in st.users
    ensures r.Err? ==> r.failure == Internal(ErrorRetrievingUsers)
    ensures r.Ok? && parentId.None? ==> r.value == st.users
    ensures r.Ok? && parentId.Some? ==>
      forall id :: id in r.value <==> id in st.users && Edge(parentId.value, id) in st.edges
    ensures r.Ok? ==> forall id :: id in r.value ==> id in st.users && r.value[id] == st.users[id]
  {
    match parentId
    case None => Ok(st.users)
    case Some(p) =>
      if p !in st.users then
        Err(Internal(ErrorRetrievingUsers))
      else
        var childIds := Children(st.edges, p);
        if |childIds| > 0 then
          Ok(map id | id in childIds && id in st.users :: st.users[id])
        else
          Ok(map[])
  }

  // ---------------------------------------------------------------------
  // Account creation (createUser and createUserByAdmin)
  // ---------------------------------------------------------------------

  /** createUser is self-service creation; createUserByAdmin is provisioning by an admin. */
  datatype Channel = SelfService | ByAdmin

  function DefaultRole(channel: Channel): (role: RoleId) {
    match channel
    case SelfService => 4
    case ByAdmin => 3
  }

  predicate RolesRequested(dto: UserDto) {
    dto.roles.Some? && |dto.roles.value| > 0
  }

  /** The roles a query `id IN requested` returns: each existing id once. */
  function FoundRoles(table: map<RoleId, string>, requested: seq<RoleId>): (found: set<RoleId>) {
    set r | r in requested && r in table
  }

  /** The password creation stores: the supplied one, or the generated one when none was supplied. */
  function PasswordUsed(dto: UserDto, generated: string): (password: string) {
    if dto.password == "" then generated else dto.password
  }

  /** createUser pairs a supplied password with a welcome mail; createUserByAdmin always mails the password. */
  function CreationMail(channel: Channel, u: User, password: string, passwordGenerated: bool): (m: Mail) {
    if channel == ByAdmin || passwordGenerated then PasswordMail(u.email, u.name, password)
    else WelcomeMail(u.email, u.name)
  }

  /** The record creation saves under the next free id: the payload's
      fields, the hash of the password used, the first-login flag set when
      the password was generated, and the requested or the default role. */
  function NewUser(st: Store, dto: UserDto, generated: string, channel: Channel): (u: User) {
    User(st.nextId, dto.name, dto.dni, dto.email, Hash(PasswordUsed(dto, generated)), dto.password == "",
         if RolesRequested(dto) then dto.roles.value else [DefaultRole(channel)])
  }

  /** The shared logic of createUser and createUserByAdmin. The checks on
      dni, email and roles come before anything is saved; the user and its
      mail are saved before the parent is looked up, so a missing parent
      leaves the new user saved without an edge. */
  function Provision(st: Store, dto: UserDto, parentId: Option<UserId>, generated: string, channel: Channel)
    : (out: (Result<PublicUser>, Store))
    ensures out.1.roles == st.roles && st.edges <= out.1.edges && st.mails <= out.1.mails
    ensures out.0.Err? && out.0.failure != ParentMissing && out.0.failure != ParentTaken ==> out.1 == st
    ensures out.1 != st ==> out.1.nextId == st.nextId + 1 && |out.1.mails| == |st.mails| + 1
    ensures out.0.Ok? ==> out.0.value.id == st.nextId && out.0.value.email == dto.email && out.0.value.dni == dto.dni
    ensures out.0.Ok? ==> out.0.value.roles == (if RolesRequested(dto) then dto.roles.value else [DefaultRole(channel)])
    ensures out.0.Ok? ==> out.0.value.isFirstLogin == (dto.password == "")
  {
    if DniExists(st.users, dto.dni) then (Err(DniTaken), st)
    else if EmailExists(st.users, dto.email) then (Err(EmailTaken), st)
    else if DefaultRole(channel) !in st.roles then (Err(DefaultRoleMissing), st)
    else if RolesRequested(dto) && |FoundRoles(st.roles, dto.roles.value)| != |dto.roles.value| then
      (Err(RolesMissing), st)
    else
      var passwordGenerated := dto.password == "";
      var password := PasswordUsed(dto, generated);
      var u := NewUser(st, dto, generated, channel);
      var saved := st.(users := st.users[u.id := u],
                       mails := st.mails + [CreationMail(channel, u, password, passwordGenerated)],
                       nextId := st.nextId + 1);
      match parentId
      case None => (Ok(View(u)), saved)
      case Some(p) =>
        if p !in saved.users then (Err(ParentMissing), saved)
        else if HasParent(saved.edges, u.id) then (Err(ParentTaken), saved)
        else (Ok(View(u)), saved.(edges := saved.edges + [Edge(p, u.id)]))
  }

  function CreateUser(st: Store, dto: UserDto, parentId: Option<UserId>, generated: string)
    : (out: (Result<PublicUser>, Store))
    ensures out.0.Ok? ==> out.0.value.roles == (if RolesRequested(dto) then dto.roles.value else [4])
    ensures out.1 != st ==>
      && |out.1.mails| == |st.mails| + 1
      && out.1.mails[|st.mails|] ==
           (if dto.password == "" then PasswordMail(dto.email, dto.name, generated) else WelcomeMail(dto.email, dto.name))
  {
    Provision(st, dto, parentId, generated, SelfService)
  }

  function CreateUserByAdmin(st: Store, dto: UserDto, parentId: Option<UserId>, generated: string)
    : (out: (Result<PublicUser>, Store))
    ensures out.0.Ok? ==> out.0.value.roles == (if RolesRequested(dto) then dto.roles.value else [3])
    ensures out.1 != st ==>
      && |out.1.mails| == |st.mails| + 1
      && out.1.mails[|st.mails|] == PasswordMail(dto.email, dto.name, PasswordUsed(dto, generated))
  {
    Provision(st, dto, parentId, generated, ByAdmin)
  }

  // ---------------------------------------------------------------------
  // Update and delete
  // ---------------------------------------------------------------------

  /** The record updateUserById saves: the payload's fields over the old
      record, the password re-hashed, the roles replaced only when given. */
  function Updated(prev: User, dto: UserDto): (u: User) {
    var roles := if dto.roles.Some? then dto.roles.value else prev.roles;
    prev.(name := dto.name, dni := dto.dni, email := dto.email, password := Hash(dto.password), roles := roles)
  }

  /** What the storage layer accepts on save: dni and email stay unique and the role relation resolves. */
  predicate SaveAccepted(st: Store, u: User) {
    && !(exists id | id in st.users :: id != u.id && (st.users[id].dni == u.dni || st.users[id].email == u.email))
    && (forall i | 0 <= i < |u.roles| :: u.roles[i] in st.roles)
  }

  function UpdateUserById(st: Store, id: UserId, dto: UserDto): (out: (Result<PublicUser>, Store))
    ensures out.0.Err? ==> out.0.failure == Internal(ErrorUpdatingUser) && out.1 == st
    ensures out.0.Ok? ==>
      && id in st.users && dto.password != "" && id in out.1.users
      && out.1 == st.(users := st.users[id := out.1.users[id]])
      && out.0.value == View(out.1.users[id])
      && out.1.users[id].email == dto.email && out.1.users[id].dni == dto.dni && out.1.users[id].name == dto.name
  {
    if id !in st.users then (Err(Internal(ErrorUpdatingUser)), st)
    else if dto.password == "" then (Err(Internal(ErrorUpdatingUser)), st)
    else
      var u := Updated(st.users[id], dto);
      if !SaveAccepted(st, u) then (Err(Internal(ErrorUpdatingUser)), st)
      else (Ok(View(u)), st.(users := st.users[id := u]))
  }

  /** deteleUserById: removes the user; its edges are left as they are. */
  function DeleteUserById(st: Store, id: UserId): (out: (Result<UserId>, Store))
    ensures out.0.Ok? <==> id in st.users
    ensures out.1 == st.(users := st.users - {id})
  {
    if id in st.users then (Ok(id), st.(users := st.users - {id}))
    else (Err(Internal(ErrorDeletingUser)), st)
  }

  // ---------------------------------------------------------------------
  // Bulk import
  // ---------------------------------------------------------------------

  /** The order validateUserFields reports missing fields in. */
  const FieldOrder: seq<string> := ["nombre", "dni", "correo"]

  function FieldRank(f: string): (rank: nat) {
    if f == "nombre" then 0 else if f == "dni" then 1 else 2
  }

  predicate Complete(row: UserDto) {
    row.name != "" && row.dni != 0 && row.email != ""
  }

  /** validateUserFields: the names of the missing fields, in the fixed order nombre, dni, correo. */
  function MissingFields(row: UserDto): (r: seq<string>)
    ensures r == [] <==> Complete(row)
    ensures "nombre" in r <==> row.name == ""
    ensures "dni" in r <==> row.dni == 0
    ensures "correo" in r <==> row.email == ""
    ensures forall f :: f in r ==> f in FieldOrder
    ensures forall i, j :: 0 <= i < j < |r| ==> FieldRank(r[i]) < FieldRank(r[j])
  {
    (if row.name == "" then ["nombre"] else [])
    + (if row.dni == 0 then ["dni"] else [])
    + (if row.email == "" then ["correo"] else [])
  }

  /** An entry of the errors list; each one names the row's email. */
  datatype ImportError =
    | Incomplete(email: string, name: string, dni: int, missing: seq<string>)
    | AlreadyExists(email: string, name: string, dni: int)
    | CreationFailed(email: string, reason: Failure)

  /** What one row contributes to the report. */
  datatype RowOutcome = Added(email: string) | Rejected(error: ImportError)

  function OutcomeEmail(o: RowOutcome): (email: string) {
    match o
    case Added(e) => e
    case Rejected(err) => err.email
  }

  datatype ImportReport = ImportReport(addedUsers: seq<string>, errors: seq<ImportError>)

  /** One iteration of the import loop. */
  function ImportStep(st: Store, row: UserDto, parentId: Option<UserId>, generated: string)
    : (out: (RowOutcome, Store))
    ensures OutcomeEmail(out.0) == row.email
    ensures !Complete(row) || EmailExists(st.users, row.email) ==> out.0.Rejected? && out.1 == st
  {
    var missing := MissingFields(row);
    if |missing| > 0 then
      (Rejected(Incomplete(row.email, row.name, row.dni, missing)), st)
    else if EmailExists(st.users, row.email) then
      (Rejected(AlreadyExists(row.email, row.name, row.dni)), st)
    else
      var (r, st') := CreateUser(st, row, parentId, generated);
      match r
      case Ok(_) => (Added(row.email), st')
      case Err(f) => (Rejected(CreationFailed(row.email, f)), st')
  }

  /** The import loop over rows, in order; gen(i) is the password the
      generator would produce for row i. */
  function ImportRows(st: Store, rows: seq<UserDto>, parentId: Option<UserId>, gen: nat -> string)
    : (out: (seq<RowOutcome>, Store))
    ensures |out.0| == |rows|
    decreases |rows|
  {
    if rows == [] then ([], st)
    else
      var (outs, mid) := ImportRows(st, rows[..|rows| - 1], parentId, gen);
      var (o, last) := ImportStep(mid, rows[|rows| - 1], parentId, gen(|rows| - 1));
      (outs + [o], last)
  }

  function AddedOf(outs: seq<RowOutcome>): (added: seq<string>) {
    if outs == [] then []
    else AddedOf(outs[..|outs| - 1]) + (match outs[|outs| - 1] case Added(e) => [e] case Rejected(_) => [])
  }

  function ErrorsOf(outs: seq<RowOutcome>): (errors: seq<ImportError>) {
    if outs == [] then []
    else ErrorsOf(outs[..|outs| - 1]) + (match outs[|outs| - 1] case Added(_) => [] case Rejected(err) => [err])
  }

  /** importUsers over already parsed rows. */
  function ImportUsers(st: Store, filePath: string, rows: seq<UserDto>, parentId: Option<UserId>, gen: nat -> string)
    : (out: (Result<ImportReport>, Store))
    ensures out.0.Err? <==> filePath == ""
    ensures out.0.Err? ==> out.0.failure == FileNotSelected && out.1 == st
  {
    if filePath == "" then (Err(FileNotSelected), st)
    else
      var (outs, st') := ImportRows(st, rows, parentId, gen);
      (Ok(ImportReport(AddedOf(outs), ErrorsOf(outs))), st')
  }
}
