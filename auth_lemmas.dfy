/** What the auth service promises: sign-in decisions and the first-login
    gate, the claims in an issued token, the password-change transition and
    the state machine it drives (pending first login, then active for good). */
module AuthLemmas {
  import opened Entities
  import opened Users
  import opened UsersLemmas
  import opened Auth

  /** When every role id resolves, the token lists one name per role, in the user's order. */
  lemma {:induction false} RoleNamesExact(table: map<RoleId, string>, ids: seq<RoleId>)
    requires forall i :: 0 <= i < |ids| ==> ids[i] in table
    ensures |RoleNames(table, ids)| == |ids|
    ensures forall i :: 0 <= i < |ids| ==> RoleNames(table, ids)[i] == table[ids[i]]
  {
    if ids != [] {
      RoleNamesExact(table, ids[1..]);
      var names := RoleNames(table, ids);
      assert names == [table[ids[0]]] + RoleNames(table, ids[1..]);
      forall i | 0 <= i < |ids| ensures names[i] == table[ids[i]] {
        if i > 0 {
          assert names[i] == RoleNames(table, ids[1..])[i - 1];
          assert ids[1..][i - 1] == ids[i];
        }
      }
    }
  }

  /** The whole sign-in decision for a user u holding the given email: a
      wrong password is refused; a right one yields a token only when u's
      first-login flag is clear, and the mere request to change the password
      otherwise. The token's subject and id are u's id, its email is u's, and
      its role names are the names of u's roles, in order; the returned user
      view leaves the password out. */
  lemma SigInDecision(st: Store, login: Credentials, u: User)
    requires Valid(st)
    requires u in st.users.Values && u.email == login.email
    requires login.email != "" && login.password != ""
    ensures !Compare(login.password, u.password) ==> SigIn(st, login) == Err(BadCredentials)
    ensures Compare(login.password, u.password) && u.isFirstLogin ==> SigIn(st, login) == Ok(MustChangePassword)
    ensures Compare(login.password, u.password) && !u.isFirstLogin ==>
      && SigIn(st, login) == Ok(Session(Signed(Payload(u.id, u.id, u.email, RoleNames(st.roles, u.roles))), View(u)))
      && |RoleNames(st.roles, u.roles)| == |u.roles|
      && (forall i :: 0 <= i < |u.roles| ==> u.roles[i] in st.roles && RoleNames(st.roles, u.roles)[i] == st.roles[u.roles[i]])
  {
    var id :| id in st.users && st.users[id] == u;
    var found := FindUserByEmailXlsx(st, login.email);
    assert found == Some(u);
    assert RolesExist(st);
    assert forall i :: 0 <= i < |u.roles| ==> st.users[id].roles[i] in st.roles;
    RoleNamesExact(st.roles, u.roles);
  }

  /** The first-login gate: whatever the password, no token is issued to a user whose flag is set. */
  lemma FirstLoginGate(st: Store, login: Credentials, u: User)
    requires Valid(st)
    requires u in st.users.Values && u.email == login.email && u.isFirstLogin
    ensures !(SigIn(st, login).Ok? && SigIn(st, login).value.Session?)
  {
    if login.email != "" && login.password != "" {
      SigInDecision(st, login, u);
    }
  }

  /** A token is only ever issued to an existing user whose flag is clear and whose password was given. */
  lemma SessionOnlyForActiveUsers(st: Store, login: Credentials)
    requires Valid(st)
    ensures SigIn(st, login).Ok? && SigIn(st, login).value.Session? ==>
      exists id :: id in st.users && st.users[id].email == login.email && !st.users[id].isFirstLogin
                   && Compare(login.password, st.users[id].password)
                   && SigIn(st, login).value.token.payload.sub == id
  {
  }

  /** Every failed password change leaves the store as it was, and reports
      the first check that failed. */
  lemma NewPasswordLoginRejects(st: Store, req: ChangeRequest)
    requires Valid(st)
    ensures var (r, st') := NewPasswordLogin(st, req);
      && (r.Err? ==> st' == st)
      && (req.dni == 0 || req.password == "" || req.newPassword == "" || req.confirmPassword == "" ==> r == Err(MissingData))
      && ((req.dni != 0 && req.password != "" && req.newPassword != "" && req.confirmPassword != ""
           && !DniExists(st.users, req.dni)) ==> r == Err(UserNotFound) && StatusOf(r.failure) == NotFound)
  {
  }

  /** A password change for the user id holding the request's dni succeeds
      exactly when the new password is confirmed and the current one
      verifies; it then clears that user's first-login flag, stores the new
      password's hash and changes no other user. */
  lemma NewPasswordLoginSucceeds(st: Store, req: ChangeRequest, id: UserId)
    requires Valid(st)
    requires id in st.users && st.users[id].dni == req.dni
    requires req.dni != 0 && req.password != "" && req.newPassword != "" && req.confirmPassword != ""
    ensures var (r, st') := NewPasswordLogin(st, req);
      && (r.Ok? <==> req.newPassword == req.confirmPassword && Compare(req.password, st.users[id].password))
      && (req.newPassword != req.confirmPassword ==> r == Err(PasswordsDiffer))
      && (req.newPassword == req.confirmPassword && !Compare(req.password, st.users[id].password)
          ==> r == Err(WrongCurrentPassword))
      && (r.Ok? ==>
            && st' == st.(users := st.users[id := st.users[id].(isFirstLogin := false, password := Hash(req.newPassword))])
            && Valid(st'))
  {
    assert FindUserByDni(st, req.dni) == Ok(st.users[id]);
  }

  /** The flag, once clear, stays clear across a password change. */
  lemma NewPasswordLoginKeepsFirstLoginCleared(st: Store, req: ChangeRequest)
    requires Valid(st)
    ensures FirstLoginNotRaised(st, NewPasswordLogin(st, req).1)
  {
  }

  /** The state machine end to end: after a successful password change the
      user signs in with the new password and gets a token, and the old
      password, if different, no longer verifies. */
  lemma ChangeThenSignIn(st: Store, req: ChangeRequest, id: UserId)
    requires Valid(st)
    requires id in st.users && st.users[id].dni == req.dni && st.users[id].email != ""
    requires req.dni != 0 && req.password != "" && req.newPassword != "" && req.confirmPassword != ""
    ensures var (r, st') := NewPasswordLogin(st, req);
      r.Ok? ==>
        && Valid(st')
        && SigIn(st', Credentials(st.users[id].email, req.newPassword)).Ok?
        && SigIn(st', Credentials(st.users[id].email, req.newPassword)).value.Session?
        && (req.password != req.newPassword ==>
              SigIn(st', Credentials(st.users[id].email, req.password)) == Err(BadCredentials))
  {
    NewPasswordLoginSucceeds(st, req, id);
    var (r, st') := NewPasswordLogin(st, req);
    if r.Ok? {
      var u := st'.users[id];
      assert u in st'.users.Values;
      SigInDecision(st', Credentials(u.email, req.newPassword), u);
      SigInDecision(st', Credentials(u.email, req.password), u);
    }
  }

  // ---------------------------------------------------------------------
  // Finding: sign-in with an unknown email
  // ---------------------------------------------------------------------

  /** As written, sign-in with a well-formed request for an email no user
      holds fails as an internal server error, where a wrong password gets
      Unauthorized; the corrected SigIn answers both alike. */
  lemma SigInUnknownEmailCrashes(st: Store, login: Credentials)
    requires UniqueEmail(st.users)
    requires login.email != "" && login.password != "" && !EmailExists(st.users, login.email)
    ensures StatusOf(SigInAsWritten(st, login).failure) == InternalServerError
    ensures SigIn(st, login) == Err(BadCredentials) && StatusOf(SigIn(st, login).failure) == Unauthorized
  {
  }

  /** A concrete input: on an empty store, any complete login reaches the dereference. */
  lemma SigInAsWrittenOnEmptyStore()
    ensures SigInAsWritten(Store(map[], map[], [], [], 0), Credentials("a@x.com", "secret")).Err?
    ensures StatusOf(SigInAsWritten(Store(map[], map[], [], [], 0), Credentials("a@x.com", "secret")).failure)
            == InternalServerError
  {
    assert !EmailExists(map[], "a@x.com");
  }

  /** Apart from that case the correction changes nothing. */
  lemma SigInCorrectionIsLocal(st: Store, login: Credentials)
    requires UniqueEmail(st.users)
    ensures login.email == "" || login.password == "" || EmailExists(st.users, login.email)
            ==> SigInAsWritten(st, login) == SigIn(st, login)
  {
  }
}
