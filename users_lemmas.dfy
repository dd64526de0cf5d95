/** What the user service promises: the uniqueness checks, role
    resolution, password and mail policy, the parent edge, and the store
    invariants each operation keeps. */
module UsersLemmas {
  import opened Entities
  import opened Users

  predicate Distinct<T(==)>(s: seq<T>) {
    forall i, j :: 0 <= i < j < |s| ==> s[i] != s[j]
  }

  /** Every requested role id exists, and none is requested twice. */
  predicate ResolvesExactly(table: map<RoleId, string>, requested: seq<RoleId>) {
    Distinct(requested) && forall i :: 0 <= i < |requested| ==> requested[i] in table
  }

  /** The source's check "as many roles found as requested" holds exactly
      when the request names distinct, existing roles. */
  lemma {:induction false} RolesFoundExactly(table: map<RoleId, string>, requested: seq<RoleId>)
    ensures |FoundRoles(table, requested)| <= |requested|
    ensures |FoundRoles(table, requested)| == |requested| <==> ResolvesExactly(table, requested)
  {
    if requested == [] {
      assert FoundRoles(table, requested) == {};
    } else {
      var rest, x := requested[..|requested| - 1], requested[|requested| - 1];
      assert requested == rest + [x];
      RolesFoundExactly(table, rest);
      assert Distinct(requested) <==> Distinct(rest) && x !in rest by {
        if Distinct(requested) {
          forall k | 0 <= k < |rest| ensures rest[k] != x {
            assert requested[k] == rest[k];
          }
        }
        if Distinct(rest) && x !in rest {
          forall i, j | 0 <= i < j < |requested| ensures requested[i] != requested[j] {
            if j < |rest| {
              assert requested[i] == rest[i] && requested[j] == rest[j];
            } else {
              assert requested[i] == rest[i];
            }
          }
        }
      }
      if x in table && x !in rest {
        assert FoundRoles(table, requested) == FoundRoles(table, rest) + {x};
        assert x !in FoundRoles(table, rest);
      } else {
        assert FoundRoles(table, requested) == FoundRoles(table, rest);
      }
    }
  }

  /** What createUser/createUserByAdmin require before they save anything. */
  predicate Admitted(st: Store, dto: UserDto, channel: Channel) {
    && !DniExists(st.users, dto.dni)
    && !EmailExists(st.users, dto.email)
    && DefaultRole(channel) in st.roles
    && (RolesRequested(dto) ==> ResolvesExactly(st.roles, dto.roles.value))
  }

  /** A rejected creation reports the first failed check and leaves the
      store, the structure and the mail log as they were. */
  lemma ProvisionRejects(st: Store, dto: UserDto, parentId: Option<UserId>, generated: string, channel: Channel)
    ensures var out := Provision(st, dto, parentId, generated, channel);
      && (DniExists(st.users, dto.dni) ==> out == (Err(DniTaken), st))
      && (!DniExists(st.users, dto.dni) && EmailExists(st.users, dto.email) ==> out == (Err(EmailTaken), st))
      && (!DniExists(st.users, dto.dni) && !EmailExists(st.users, dto.email) && DefaultRole(channel) !in st.roles
          ==> out == (Err(DefaultRoleMissing), st))
      && (!DniExists(st.users, dto.dni) && !EmailExists(st.users, dto.email) && DefaultRole(channel) in st.roles
          && RolesRequested(dto) && !ResolvesExactly(st.roles, dto.roles.value)
          ==> out == (Err(RolesMissing), st))
  {
    if RolesRequested(dto) {
      RolesFoundExactly(st.roles, dto.roles.value);
    }
  }

  /** An admitted creation saves exactly one new user: its roles are the
      default role alone when none were requested and the requested ones
      otherwise; its stored password is the hash of the password used; it
      must change its password at first login exactly when none was
      supplied; and exactly one mail is logged, which carries the plaintext
      password when it was generated (always, for admin provisioning). */
  lemma ProvisionSaves(st: Store, dto: UserDto, parentId: Option<UserId>, generated: string, channel: Channel)
    requires Admitted(st, dto, channel)
    ensures var (r, st') := Provision(st, dto, parentId, generated, channel);
      var u := NewUser(st, dto, generated, channel);
      && st'.users == st.users[st.nextId := u]
      && st'.nextId == st.nextId + 1
      && st'.roles == st.roles
      && u.roles == (if RolesRequested(dto) then dto.roles.value else [DefaultRole(channel)])
      && u.password == Hash(if dto.password == "" then generated else dto.password)
      && u.isFirstLogin == (dto.password == "")
      && st'.mails == st.mails + [
           if channel == ByAdmin || dto.password == "" then PasswordMail(dto.email, dto.name, PasswordUsed(dto, generated))
           else WelcomeMail(dto.email, dto.name)]
      && (r.Ok? ==> r.value == View(u))
  {
    if RolesRequested(dto) {
      RolesFoundExactly(st.roles, dto.roles.value);
    }
  }

  /** The parent edge of an admitted creation in a valid store. Without a
      parent no edge is added. A parent that names no user is reported
      after the new user has been saved, with no edge. Otherwise exactly
      one edge from the parent to the new user is appended. */
  lemma ProvisionParent(st: Store, dto: UserDto, parentId: Option<UserId>, generated: string, channel: Channel)
    requires Valid(st) && Admitted(st, dto, channel)
    ensures var (r, st') := Provision(st, dto, parentId, generated, channel);
      && (parentId.None? ==> r.Ok? && st'.edges == st.edges)
      && (parentId.Some? && parentId.value !in st.users && parentId.value != st.nextId ==>
            r == Err(ParentMissing) && st'.edges == st.edges && st.nextId in st'.users)
      && (parentId.Some? && (parentId.value in st.users || parentId.value == st.nextId) ==>
            r.Ok? && st'.edges == st.edges + [Edge(parentId.value, st.nextId)])
  {
    ProvisionSaves(st, dto, parentId, generated, channel);
  }

  /** Creation never removes or changes an existing user, never changes the
      role table, and only appends to the structure and the mail log. */
  lemma ProvisionFrame(st: Store, dto: UserDto, parentId: Option<UserId>, generated: string, channel: Channel)
    requires KeysMatch(st)
    ensures var (r, st') := Provision(st, dto, parentId, generated, channel);
      && (forall id :: id in st.users ==> id in st'.users && st'.users[id] == st.users[id])
      && st'.roles == st.roles
      && st.edges <= st'.edges
      && st.mails <= st'.mails
      && st.nextId <= st'.nextId
      && (r.Ok? ==> r.value.id == st.nextId && r.value.id in st'.users && r.value == View(st'.users[r.value.id]))
  {
  }

  /** Creation keeps every store invariant: unique dni, unique email, and
      each child in at most one edge. */
  lemma ProvisionPreservesValid(st: Store, dto: UserDto, parentId: Option<UserId>, generated: string, channel: Channel)
    requires Valid(st)
    ensures Valid(Provision(st, dto, parentId, generated, channel).1)
  {
    var (r, st') := Provision(st, dto, parentId, generated, channel);
    if Admitted(st, dto, channel) {
      ProvisionSaves(st, dto, parentId, generated, channel);
      ProvisionParent(st, dto, parentId, generated, channel);
      var u := NewUser(st, dto, generated, channel);
      assert forall id :: id in st.users ==> st.users[id].dni != u.dni && st.users[id].email != u.email;
      assert forall i :: 0 <= i < |st.edges| ==> st.edges[i].child != st.nextId;
      assert forall i :: 0 <= i < |u.roles| ==> u.roles[i] in st.roles;
    } else {
      ProvisionRejects(st, dto, parentId, generated, channel);
    }
  }

  /** After a successful creation the new user is found by its dni, by its
      email and by its id. */
  lemma CreatedUserIsFound(st: Store, dto: UserDto, parentId: Option<UserId>, generated: string, channel: Channel)
    requires Valid(st)
    ensures var (r, st') := Provision(st, dto, parentId, generated, channel);
      r.Ok? ==>
        && Valid(st')
        && FindUserByDni(st', dto.dni) == Ok(st'.users[r.value.id])
        && FindUserByEmail(st', dto.email) == Ok(st'.users[r.value.id])
        && GetUserById(st', r.value.id) == Ok(r.value)
  {
    ProvisionPreservesValid(st, dto, parentId, generated, channel);
    var (r, st') := Provision(st, dto, parentId, generated, channel);
    if r.Ok? {
      ProvisionFrame(st, dto, parentId, generated, channel);
      var u := st'.users[r.value.id];
      assert u.dni == dto.dni && u.email == dto.email;
      var a := FindUserByDni(st', dto.dni);
      var b := FindUserByEmail(st', dto.email);
      assert a.Ok? && b.Ok?;
    }
  }

  /** A user created under a parent is listed among that parent's children. */
  lemma CreatedChildIsListed(st: Store, dto: UserDto, p: UserId, generated: string, channel: Channel)
    requires Valid(st)
    ensures var (r, st') := Provision(st, dto, Some(p), generated, channel);
      r.Ok? ==> GetUsers(st', Some(p)).Ok? && r.value.id in GetUsers(st', Some(p)).value
  {
    var (r, st') := Provision(st, dto, Some(p), generated, channel);
    if r.Ok? {
      if Admitted(st, dto, channel) {
        ProvisionParent(st, dto, Some(p), generated, channel);
        ProvisionSaves(st, dto, Some(p), generated, channel);
        assert st'.edges[|st'.edges| - 1] == Edge(p, r.value.id);
      } else {
        ProvisionRejects(st, dto, Some(p), generated, channel);
      }
    }
  }

  /** With a single parent per child, no user is listed under two parents. */
  lemma {:induction false} ChildrenDisjoint(edges: seq<Edge>, p: UserId, q: UserId)
    requires SingleParent(edges) && p != q
    ensures Children(edges, p) !! Children(edges, q)
  {
    forall c | c in Children(edges, p) ensures c !in Children(edges, q) {
      var i :| 0 <= i < |edges| && edges[i] == Edge(p, c);
    }
  }

  /** An update either changes nothing (unknown id, missing password, or a
      record the storage layer refuses) or replaces exactly that user's
      record: name, dni and email from the payload, the password re-hashed,
      the roles replaced only when the payload carries them, and the id and
      first-login flag kept. */
  lemma UpdateOutcome(st: Store, id: UserId, dto: UserDto)
    ensures var (r, st') := UpdateUserById(st, id, dto);
      && (r.Ok? <==> id in st.users && dto.password != "" && SaveAccepted(st, Updated(st.users[id], dto)))
      && (r.Err? ==> r.failure == Internal(ErrorUpdatingUser) && st' == st)
      && (r.Ok? ==>
            && st' == st.(users := st.users[id := st'.users[id]])
            && st'.users[id].id == st.users[id].id
            && st'.users[id].name == dto.name
            && st'.users[id].dni == dto.dni
            && st'.users[id].email == dto.email
            && st'.users[id].password == Hash(dto.password)
            && st'.users[id].roles == (if dto.roles.Some? then dto.roles.value else st.users[id].roles)
            && st'.users[id].isFirstLogin == st.users[id].isFirstLogin
            && GetUserById(st', id) == Ok(r.value))
  {
  }

  lemma UpdatePreservesValid(st: Store, id: UserId, dto: UserDto)
    requires Valid(st)
    ensures Valid(UpdateUserById(st, id, dto).1)
  {
    var (r, st') := UpdateUserById(st, id, dto);
    if r.Ok? {
      var u := st'.users[id];
      assert forall other :: other in st.users && other != id ==>
        st.users[other].dni != u.dni && st.users[other].email != u.email;
      assert forall i :: 0 <= i < |u.roles| ==> u.roles[i] in st.roles;
    }
  }

  /** A delete removes exactly that user, after which it is no longer found;
      nothing else in the store changes and no mail is queued. */
  lemma DeleteOutcome(st: Store, id: UserId)
    ensures var (r, st') := DeleteUserById(st, id);
      && (r.Ok? <==> id in st.users)
      && (r.Err? ==> r.failure == Internal(ErrorDeletingUser) && st' == st)
      && (r.Ok? ==> st' == st.(users := st.users - {id}) && GetUserById(st', id).Err?)
  {
  }

  lemma DeletePreservesValid(st: Store, id: UserId)
    requires Valid(st)
    ensures Valid(DeleteUserById(st, id).1)
  {
  }

  /** No user's first-login flag goes from cleared back to set. */
  ghost predicate FirstLoginNotRaised(st: Store, st': Store) {
    forall id :: id in st.users && id in st'.users && !st.users[id].isFirstLogin ==> !st'.users[id].isFirstLogin
  }

  lemma UserOperationsKeepFirstLoginCleared(st: Store, dto: UserDto, parentId: Option<UserId>, generated: string,
                                            channel: Channel, id: UserId)
    requires KeysMatch(st)
    ensures FirstLoginNotRaised(st, Provision(st, dto, parentId, generated, channel).1)
    ensures FirstLoginNotRaised(st, UpdateUserById(st, id, dto).1)
    ensures FirstLoginNotRaised(st, DeleteUserById(st, id).1)
  {
    ProvisionFrame(st, dto, parentId, generated, channel);
  }
}
