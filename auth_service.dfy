/** AuthServiceImpl: registration (a duplicate check, then an insert with the
    single role USER) and login (delegated to the authentication manager). */
module AuthService {
  import opened Results
  import opened Entities
  import opened Errors
  import opened Repositories
  import opened Security
  import opened UserDetails

  const UserRoleName := "USER"
  const UserExistsMessage := "This user already exist"
  const RegisterFailedMessage := "Error user register"

  /** The new row would break a `unique` column of the user table. */
  predicate ViolatesUniqueColumns(users: map<UserId, User>, dto: RegisterDto) {
    ExistsByEmail(users, dto.email) || ExistsByUsername(users, dto.username)
  }

  /** A user holding only the role USER, as registration creates it, resolves to
      a principal whose one authority is USER. */
  lemma RegisteredPrincipalIsUser(users: map<UserId, User>, id: UserId)
    requires UsersWellFormed(users) && id in users
    requires |users[id].roles| == 1 && users[id].roles[0].name == UserRoleName
    ensures LoadUserByUsername(users, users[id].email).Success?
    ensures LoadUserByUsername(users, users[id].email).value.authorities == {UserRoleName}
  {
  }

  class AuthServiceImpl {
    const db: Database
    /** The password encoder's `encode`. */
    const encode: string -> string
    const codec: TokenCodec
    /** The authentication manager: the authentication for valid login data, or none. */
    const authenticate: LoginDto -> Option<Authentication>

    constructor (db: Database, encode: string -> string, codec: TokenCodec, authenticate: LoginDto -> Option<Authentication>)
      ensures this.db == db && this.encode == encode && this.codec == codec && this.authenticate == authenticate
    {
      this.db := db;
      this.encode := encode;
      this.codec := codec;
      this.authenticate := authenticate;
    }

    /** `register`. The duplicate check asks whether some user's EMAIL equals the
        DTO's USERNAME. A duplicate email therefore passes the check and makes the
        insert fail on the unique column, which is reported as a registration
        failure. `storeFault` stands for any other failure of the insert. */
    method Register(dto: RegisterDto, storeFault: bool) returns (r: Outcome<Error>)
      requires db.Valid()
      requires AtMostOneRoleNamed(db.roles, UserRoleName) && FindRoleByName(db.roles, UserRoleName).Some?
      modifies db`users, db`nextUserId
      ensures db.Valid()
      ensures ExistsByEmail(old(db.users), dto.username) ==> r == Fail(Error(InputData, UserExistsMessage))
      ensures !ExistsByEmail(old(db.users), dto.username) && (ViolatesUniqueColumns(old(db.users), dto) || storeFault) ==>
                r == Fail(Error(RegisterUser, RegisterFailedMessage))
      ensures ExistsByEmail(old(db.users), dto.email) && !ExistsByEmail(old(db.users), dto.username) ==>
                r.Fail? && r.error.kind.RegisterUser?
      ensures r.Pass? <==> !ExistsByEmail(old(db.users), dto.username) && !ViolatesUniqueColumns(old(db.users), dto)
                           && !storeFault
      ensures r.Pass? ==>
                && db.users == old(db.users)[old(db.nextUserId) :=
                     User(old(db.nextUserId), dto.email, dto.username, encode(dto.password),
                          [FindRoleByName(db.roles, UserRoleName).value])]
                && db.nextUserId == old(db.nextUserId) + 1
      ensures r.Fail? ==> db.users == old(db.users) && db.nextUserId == old(db.nextUserId)
    {
      if ExistsByEmail(db.users, dto.username) {
        return Fail(Error(InputData, UserExistsMessage));
      }
      var role := FindRoleByName(db.roles, UserRoleName).value;
      var user := User(db.nextUserId, dto.email, dto.username, encode(dto.password), [role]);
      if ViolatesUniqueColumns(db.users, dto) || storeFault {
        return Fail(Error(RegisterUser, RegisterFailedMessage));
      }
      db.users := db.users[user.id := user];
      db.nextUserId := db.nextUserId + 1;
      r := Pass;
    }

    /** `login`: the authentication manager's result is written to the context
        and a token is issued for its name; a rejection propagates. */
    method Login(dto: LoginDto, ctx: SecurityContext) returns (r: Result<string, SecurityError>)
      modifies ctx
      ensures authenticate(dto).None? ==> r == Failure(BadCredentials) && ctx.authentication == old(ctx.authentication)
      ensures authenticate(dto).Some? ==>
                && ctx.authentication == authenticate(dto)
                && r == Success(codec.generate(authenticate(dto).value.Name()))
    {
      var auth := authenticate(dto);
      if auth.None? {
        return Failure(BadCredentials);
      }
      ctx.authentication := auth;
      r := Success(codec.generate(auth.value.Name()));
    }
  }
}
