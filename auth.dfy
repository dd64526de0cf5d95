/** The auth service (back/src/modules/auth/auth.services.ts) as functions
    over the store value: sign-in with its first-login gate, and the
    password change that clears the gate. */
module Auth {
  import opened Entities
  import opened Users

  const LoginUnavailable := "Internal server error"
  const PasswordChangedMessage := "password changed successfully"

  datatype Credentials = Credentials(email: string, password: string)

  /** The claims signed into a session token. */
  datatype Payload = Payload(sub: UserId, id: UserId, email: string, roles: seq<string>)

  /** A signed token; signing and its one-hour expiry are not modelled. */
  datatype Token = Signed(payload: Payload)

  datatype SignInReply =
    | Session(token: Token, user: PublicUser)
    | MustChangePassword

  /** The names of a user's roles as the role relation loads them, in order. */
  function RoleNames(table: map<RoleId, string>, ids: seq<RoleId>): (names: seq<string>)
    ensures |names| <= |ids|
    ensures forall n :: n in names ==> n in table.Values
  {
    if ids == [] then []
    else (if ids[0] in table then [table[ids[0]]] else []) + RoleNames(table, ids[1..])
  }

  /** The part of sigIn after the user has been found: verify the password,
      then either issue a token or, while the first-login flag is set, ask
      for a password change. */
  function Authenticate(st: Store, u: User, password: string): (r: Result<SignInReply>)
    ensures r.Err? <==> !Compare(password, u.password)
    ensures r.Ok? && r.value.Session? <==> Compare(password, u.password) && !u.isFirstLogin
  {
    if !Compare(password, u.password) then Err(BadCredentials)
    else if !u.isFirstLogin then
      Ok(Session(Signed(Payload(u.id, u.id, u.email, RoleNames(st.roles, u.roles))), View(u)))
    else
      Ok(MustChangePassword)
  }

  /** sigIn as written: an email that matches no user is dereferenced
      anyway, which fails as an internal server error. */
  function SigInAsWritten(st: Store, login: Credentials): (r: Result<SignInReply>)
    requires UniqueEmail(st.users)
    ensures r.Err? && r.failure == MissingData <==> login.email == "" || login.password == ""
    ensures r.Err? && StatusOf(r.failure) == InternalServerError <==>
      login.email != "" && login.password != "" && !EmailExists(st.users, login.email)
  {
    if login.email == "" || login.password == "" then Err(MissingData)
    else
      match FindUserByEmailXlsx(st, login.email)
      case None => Err(Internal(LoginUnavailable))
      case Some(u) => Authenticate(st, u, login.password)
  }

  /** sigIn with an unknown email reported like a wrong password. */
  function SigIn(st: Store, login: Credentials): (r: Result<SignInReply>)
    requires UniqueEmail(st.users)
    ensures r.Err? && r.failure == MissingData <==> login.email == "" || login.password == ""
    ensures r.Err? ==> StatusOf(r.failure) in {BadRequest, Unauthorized}
  {
    if login.email == "" || login.password == "" then Err(MissingData)
    else
      match FindUserByEmailXlsx(st, login.email)
      case None => Err(BadCredentials)
      case Some(u) => Authenticate(st, u, login.password)
  }

  datatype ChangeRequest = ChangeRequest(dni: int, password: string, newPassword: string, confirmPassword: string)

  /** newPasswordLogin: checks every field, finds the user by dni, checks
      that the new password is confirmed and the current one verifies, and
      then clears the first-login flag and stores the new password's hash. */
  function NewPasswordLogin(st: Store, req: ChangeRequest): (out: (Result<string>, Store))
    requires UniqueDni(st.users)
    ensures out.0.Err? ==> out.1 == st
    ensures out.0.Ok? ==> out.0.value == PasswordChangedMessage && out.1 == st.(users := out.1.users)
    ensures out.0.Ok? ==> DniExists(st.users, req.dni) && req.newPassword == req.confirmPassword
  {
    if req.dni == 0 || req.password == "" || req.newPassword == "" || req.confirmPassword == "" then
      (Err(MissingData), st)
    else
      match FindUserByDni(st, req.dni)
      case Err(f) => (Err(f), st)
      case Ok(u) =>
        if req.newPassword != req.confirmPassword then (Err(PasswordsDiffer), st)
        else if !Compare(req.password, u.password) then (Err(WrongCurrentPassword), st)
        else
          var changed := u.(isFirstLogin := false, password := Hash(req.newPassword));
          (Ok(PasswordChangedMessage), st.(users := st.users[u.id := changed]))
  }
}
