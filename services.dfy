/** The two services as objects over mutable repositories. Each method
    performs the source's steps in the source's order and is proved to
    leave the repositories, and return the reply, that the functions of
    Users and Auth describe. */
module Services {
  import opened Entities
  import opened Users
  import UsersLemmas
  import ImportLemmas
  import Auth

  class UserService {
    var users: map<UserId, User>
    var roles: map<RoleId, string>
    var edges: seq<Edge>
    var mails: seq<Mail>
    var nextId: UserId

    /** The repositories as one store value. */
    function State(): (st: Store)
      reads this
    {
      Store(users, roles, edges, mails, nextId)
    }

    /** Empty user and structure repositories over a seeded role table. */
    constructor (roleTable: map<RoleId, string>)
      ensures State() == Store(map[], roleTable, [], [], 0)
      ensures Valid(State())
    {
      users, roles, edges, mails, nextId := map[], roleTable, [], [], 0;
    }

    /** userRepository.save of an existing record. */
    method Save(u: User)
      modifies this
      ensures users == old(users)[u.id := u]
      ensures roles == old(roles) && edges == old(edges) && mails == old(mails) && nextId == old(nextId)
    {
      users := users[u.id := u];
    }

    /** The shared steps of createUser and createUserByAdmin. */
    method Provision(dto: UserDto, parentId: Option<UserId>, generated: string, channel: Channel)
      returns (r: Result<PublicUser>)
      requires Valid(State())
      modifies this
      ensures (r, State()) == Users.Provision(old(State()), dto, parentId, generated, channel)
      ensures Valid(State())
    {
      UsersLemmas.ProvisionPreservesValid(State(), dto, parentId, generated, channel);
      if DniExists(users, dto.dni) {
        return Err(DniTaken);
      }
      if EmailExists(users, dto.email) {
        return Err(EmailTaken);
      }
      var passwordGenerated := dto.password == "";
      var password := PasswordUsed(dto, generated);

      var defaultRole := DefaultRole(channel);
      if defaultRole !in roles {
        return Err(DefaultRoleMissing);
      }
      if dto.roles.Some? && |dto.roles.value| > 0 {
        var found := FoundRoles(roles, dto.roles.value);
        if |found| != |dto.roles.value| {
          return Err(RolesMissing);
        }
      }

      var newUser := NewUser(State(), dto, generated, channel);
      users := users[newUser.id := newUser];
      nextId := nextId + 1;
      mails := mails + [CreationMail(channel, newUser, password, passwordGenerated)];

      if parentId.Some? {
        var parent := parentId.value;
        if parent !in users {
          return Err(ParentMissing);
        }
        if HasParent(edges, newUser.id) {
          return Err(ParentTaken);
        }
        edges := edges + [Edge(parent, newUser.id)];
      }
      r := Ok(View(newUser));
    }

    method CreateUser(dto: UserDto, parentId: Option<UserId>, generated: string) returns (r: Result<PublicUser>)
      requires Valid(State())
      modifies this
      ensures (r, State()) == Users.CreateUser(old(State()), dto, parentId, generated)
      ensures Valid(State())
    {
      r := Provision(dto, parentId, generated, SelfService);
    }

    method CreateUserByAdmin(dto: UserDto, parentId: Option<UserId>, generated: string) returns (r: Result<PublicUser>)
      requires Valid(State())
      modifies this
      ensures (r, State()) == Users.CreateUserByAdmin(old(State()), dto, parentId, generated)
      ensures Valid(State())
    {
      r := Provision(dto, parentId, generated, ByAdmin);
    }

    method UpdateUserById(id: UserId, dto: UserDto) returns (r: Result<PublicUser>)
      requires Valid(State())
      modifies this
      ensures (r, State()) == Users.UpdateUserById(old(State()), id, dto)
      ensures Valid(State())
    {
      UsersLemmas.UpdatePreservesValid(State(), id, dto);
      if id !in users {
        return Err(Internal(ErrorUpdatingUser));
      }
      if dto.password == "" {
        return Err(Internal(ErrorUpdatingUser));
      }
      var updated := Updated(users[id], dto);
      if !SaveAccepted(State(), updated) {
        return Err(Internal(ErrorUpdatingUser));
      }
      users := users[id := updated];
      r := Ok(View(updated));
    }

    method DeleteUserById(id: UserId) returns (r: Result<UserId>)
      requires Valid(State())
      modifies this
      ensures (r, State()) == Users.DeleteUserById(old(State()), id)
      ensures Valid(State())
    {
      UsersLemmas.DeletePreservesValid(State(), id);
      if id !in users {
        return Err(Internal(ErrorDeletingUser));
      }
      users := users - {id};
      r := Ok(id);
    }

    /** validateUserFields: collects the missing fields by appending. */
    method ValidateUserFields(row: UserDto) returns (missingFields: seq<string>)
      ensures missingFields == MissingFields(row)
      ensures missingFields == [] <==> Complete(row)
    {
      missingFields := [];
      if row.name == "" {
        missingFields := missingFields + ["nombre"];
      }
      if row.dni == 0 {
        missingFields := missingFields + ["dni"];
      }
      if row.email == "" {
        missingFields := missingFields + ["correo"];
      }
    }

    /** One iteration of importUsers' loop: validate the row, look its email
        up, and create the account when the row is complete and new. */
    method ImportRow(row: UserDto, parentId: Option<UserId>, generated: string) returns (o: RowOutcome)
      requires Valid(State())
      modifies this
      ensures (o, State()) == ImportStep(old(State()), row, parentId, generated)
      ensures Valid(State())
    {
      ImportLemmas.ImportStepKeeps(State(), row, parentId, generated);
      var missingFields := ValidateUserFields(row);
      if |missingFields| > 0 {
        return Rejected(Incomplete(row.email, row.name, row.dni, missingFields));
      }
      var existingUser := FindUserByEmailXlsx(State(), row.email);
      if existingUser.Some? {
        return Rejected(AlreadyExists(row.email, row.name, row.dni));
      }
      var created := CreateUser(row, parentId, generated);
      if created.Ok? {
        o := Added(row.email);
      } else {
        o := Rejected(CreationFailed(row.email, created.failure));
      }
    }

    /** importUsers over the parsed rows; gen(i) stands for the generator's
        password for row i. Each row appends to addedUsers or to errors. */
    method ImportUsers(filePath: string, rows: seq<UserDto>, parentId: Option<UserId>, gen: nat -> string)
      returns (r: Result<ImportReport>)
      requires Valid(State())
      modifies this
      ensures (r, State()) == Users.ImportUsers(old(State()), filePath, rows, parentId, gen)
      ensures Valid(State())
    {
      if filePath == "" {
        return Err(FileNotSelected);
      }
      var addedUsers: seq<string> := [];
      var errors: seq<ImportError> := [];
      ghost var outcomes: seq<RowOutcome> := [];
      for i := 0 to |rows|
        invariant (outcomes, State()) == ImportRows(old(State()), rows[..i], parentId, gen)
        invariant addedUsers == AddedOf(outcomes) && errors == ErrorsOf(outcomes)
        invariant Valid(State())
      {
        ImportLemmas.ImportRowsSnoc(old(State()), rows, parentId, gen, i);
        var outcome := ImportRow(rows[i], parentId, gen(i));
        ImportLemmas.ReportSnoc(outcomes, outcome);
        match outcome {
          case Added(email) => addedUsers := addedUsers + [email];
          case Rejected(entry) => errors := errors + [entry];
        }
        outcomes := outcomes + [outcome];
      }
      assert rows[..|rows|] == rows;
      r := Ok(ImportReport(addedUsers, errors));
    }
  }

  class AuthService {
    const userService: UserService

    constructor (userService: UserService)
      ensures this.userService == userService
    {
      this.userService := userService;
    }

    /** newPasswordLogin: the user record found by dni is changed in place and saved. */
    method NewPasswordLogin(req: Auth.ChangeRequest) returns (r: Result<string>)
      requires Valid(userService.State())
      modifies userService
      ensures (r, userService.State()) == Auth.NewPasswordLogin(old(userService.State()), req)
      ensures Valid(userService.State())
    {
      if req.dni == 0 || req.password == "" || req.newPassword == "" || req.confirmPassword == "" {
        return Err(MissingData);
      }
      var found := FindUserByDni(userService.State(), req.dni);
      if found.Err? {
        return Err(found.failure);
      }
      var user := found.value;
      if req.newPassword != req.confirmPassword {
        return Err(PasswordsDiffer);
      }
      if !Compare(req.password, user.password) {
        return Err(WrongCurrentPassword);
      }
      user := user.(isFirstLogin := false);
      user := user.(password := Hash(req.newPassword));
      userService.Save(user);
      r := Ok(Auth.PasswordChangedMessage);
    }

    /** sigUp: registration is createUser. */
    method SigUp(dto: UserDto, parentId: Option<UserId>, generated: string) returns (r: Result<PublicUser>)
      requires Valid(userService.State())
      modifies userService
      ensures (r, userService.State()) == Users.CreateUser(old(userService.State()), dto, parentId, generated)
      ensures Valid(userService.State())
    {
      r := userService.CreateUser(dto, parentId, generated);
    }
  }
}
