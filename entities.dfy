/** Entities of the identity subsystem: users, roles, the organisational
    structure (parent/child edges) and the notification log, gathered into
    one store value, together with the invariants every operation keeps. */
module Entities {

  type UserId = nat
  type RoleId = int

  datatype Option<+T> = None | Some(value: T)

  /** Why an operation failed; Status gives the HTTP exception it is raised as. */
  datatype Failure =
    | DniTaken              // createUser: a user with that dni exists
    | EmailTaken            // createUser: a user with that email exists
    | DefaultRoleMissing    // createUser: the default role row is absent
    | RolesMissing          // createUser: some requested role ids do not resolve
    | ParentMissing         // createUser: parentId names no user
    | ParentTaken           // createUser: the new user already has a parent edge
    | MissingData           // sigIn / newPasswordLogin: a required field is empty
    | FileNotSelected       // importUsers: empty file path
    | BadCredentials        // sigIn: wrong email and/or password
    | PasswordsDiffer       // newPasswordLogin: newPassword != confirmPassword
    | WrongCurrentPassword  // newPasswordLogin: current password does not verify
    | UserNotFound          // findUserByDni / findUserByEmail
    | Internal(message: string)

  datatype Status = BadRequest | Unauthorized | NotFound | InternalServerError

  function StatusOf(f: Failure): (s: Status) {
    match f
    case DniTaken | EmailTaken | BadCredentials | PasswordsDiffer | WrongCurrentPassword => Unauthorized
    case DefaultRoleMissing | RolesMissing | ParentMissing | ParentTaken | MissingData | FileNotSelected => BadRequest
    case UserNotFound => NotFound
    case Internal(_) => InternalServerError
  }

  datatype Result<+T> = Ok(value: T) | Err(failure: Failure)

  /** The stored form of a password. bcrypt is modelled as an injective
      tagging of the plaintext: salt and cost factor are not modelled. */
  datatype Digest = Bcrypt(secret: string)

  function Hash(plain: string): (d: Digest) {
    Bcrypt(plain)
  }

  /** bcrypt.compare(plain, digest) */
  predicate Compare(plain: string, digest: Digest) {
    Hash(plain) == digest
  }

  datatype User = User(
    id: UserId,
    name: string,
    dni: int,
    email: string,
    password: Digest,
    isFirstLogin: bool,
    roles: seq<RoleId>)

  /** A user record with the password field left out. */
  datatype PublicUser = PublicUser(
    id: UserId,
    name: string,
    dni: int,
    email: string,
    isFirstLogin: bool,
    roles: seq<RoleId>)

  function View(u: User): (v: PublicUser)
    ensures v.id == u.id && v.name == u.name && v.dni == u.dni && v.email == u.email
    ensures v.isFirstLogin == u.isFirstLogin && v.roles == u.roles
  {
    PublicUser(u.id, u.name, u.dni, u.email, u.isFirstLogin, u.roles)
  }

  /** The creation/update payload (also one spreadsheet row). An empty
      string stands for an absent or empty field, dni 0 for an absent dni. */
  datatype UserDto = UserDto(
    name: string,
    dni: int,
    email: string,
    password: string,
    roles: Option<seq<RoleId>>)

  /** One row of the organisational structure. */
  datatype Edge = Edge(parent: UserId, child: UserId)

  /** A notification the mail service is asked to send. */
  datatype Mail =
    | WelcomeMail(to: string, name: string)
    | PasswordMail(to: string, name: string, password: string)

  /** The three repositories, the append-only mail log and the next id the
      user repository will hand out. */
  datatype Store = Store(
    users: map<UserId, User>,
    roles: map<RoleId, string>,
    edges: seq<Edge>,
    mails: seq<Mail>,
    nextId: UserId)

  predicate DniExists(users: map<UserId, User>, dni: int) {
    exists id | id in users :: users[id].dni == dni
  }

  predicate EmailExists(users: map<UserId, User>, email: string) {
    exists id | id in users :: users[id].email == email
  }

  predicate HasParent(edges: seq<Edge>, child: UserId) {
    exists i | 0 <= i < |edges| :: edges[i].child == child
  }

  ghost predicate UniqueDni(users: map<UserId, User>) {
    forall a, b :: a in users && b in users && users[a].dni == users[b].dni ==> a == b
  }

  ghost predicate UniqueEmail(users: map<UserId, User>) {
    forall a, b :: a in users && b in users && users[a].email == users[b].email ==> a == b
  }

  /** Every record is stored under its own id, and ids below nextId are the only ones handed out. */
  ghost predicate KeysMatch(st: Store) {
    forall id :: id in st.users ==> st.users[id].id == id && id < st.nextId
  }

  /** The role relation only points at existing roles. */
  ghost predicate RolesExist(st: Store) {
    forall id, i :: id in st.users && 0 <= i < |st.users[id].roles| ==> st.users[id].roles[i] in st.roles
  }

  /** Each child appears in at most one edge. */
  ghost predicate SingleParent(edges: seq<Edge>) {
    forall i, j :: 0 <= i < j < |edges| ==> edges[i].child != edges[j].child
  }

  /** Edges are only ever created for users the repository has handed an id to. */
  ghost predicate ChildrenAllocated(st: Store) {
    forall i :: 0 <= i < |st.edges| ==> st.edges[i].child < st.nextId
  }

  ghost predicate Valid(st: Store) {
    && KeysMatch(st)
    && UniqueDni(st.users)
    && UniqueEmail(st.users)
    && RolesExist(st)
    && SingleParent(st.edges)
    && ChildrenAllocated(st)
  }
}
