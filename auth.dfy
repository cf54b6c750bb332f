/** Registration and login (auth.py). The users table is the `UserTable`
    object that `register_user` inserts into. */
module Auth {
  import opened Common
  import opened Tables
  import opened Models
  import opened Utils

  /** The registration form (`UserCreate`). */
  datatype UserCreate = UserCreate(
    username: string,
    password: string,
    email: string,
    age: int,
    nickname: Option<string>)

  /** `LoginResponse`: the signed token and its type. */
  datatype LoginResponse = LoginResponse(accessToken: Token, tokenType: string)

  const UserCreated := "User created successfully"
  const Bearer := "bearer"

  /** verify_unique: refuses the form when its username or its email is taken. */
  function VerifyUnique(users: seq<User>, username: string, email: string): (r: Outcome<ApiError>)
    ensures r.Pass? <==> forall i :: 0 <= i < |users| ==> users[i].username != username && users[i].email != email
    ensures r.Fail? ==> r.error == BadRequest(InvalidCredentials)
  {
    var usernameCheck := Find(users, HasUsername(username));
    var emailCheck := Find(users, HasEmail(email));
    if usernameCheck.Some? || emailCheck.Some? then Fail(BadRequest(InvalidCredentials)) else Pass
  }

  /** The row register_user builds: the digest of the password, never the
      password, and `admin` explicitly false. */
  function NewUser(id: int, form: UserCreate, hash: string -> string, today: Day): (u: User)
    ensures !IsAdmin(u)
    ensures VerifyPassword(hash, form.password, u.hashedPassword)
    ensures u.username == form.username && u.email == form.email
  {
    User(id, form.username, hash(form.password), form.email, form.age, form.nickname, today, Some(false))
  }

  /** The explicit `admin=False` agrees with the column default, and
      `registration_date` is filled by its default. */
  lemma NewUserIsDefaultRow(id: int, form: UserCreate, hash: string -> string, today: Day)
    ensures NewUser(id, form, hash, today)
         == DefaultUser(id, form.username, hash(form.password), form.email, form.age, form.nickname, today)
  {
  }

  /** login_user as written: `(user, verify_password(password, user.hashed_password))`
      is built before `all` runs, so an unknown username dereferences `None`
      and the request fails with an exception instead of the 400. */
  function LoginUserAsWritten(hash: string -> string, users: seq<User>, username: string,
                              password: string, now: int): (r: Result<LoginResponse, ApiError>)
    ensures UserByName(users, username).None? <==> r == Err(ServerError)
  {
    match UserByName(users, username)
    case None => Err(ServerError)
    case Some(user) =>
      if !VerifyPassword(hash, password, user.hashedPassword) then Err(BadRequest(InvalidCredentials))
      else Ok(LoginResponse(CreateAccessToken(map["sub" := Str(username)], now), Bearer))
  }

  /** login_user as intended: an unknown username gets the same 400 as a
      wrong password. A token is issued exactly when the first user with
      that username has the password's digest. */
  function LoginUser(hash: string -> string, users: seq<User>, username: string,
                     password: string, now: int): (r: Result<LoginResponse, ApiError>)
    ensures r.Ok? <==>
      exists i :: FirstMatch(users, HasUsername(username), i) && hash(password) == users[i].hashedPassword
    ensures r.Err? ==> r.error == BadRequest(InvalidCredentials)
    ensures r.Ok? ==>
      && r.value.tokenType == Bearer
      && "sub" in r.value.accessToken.claims
      && r.value.accessToken.claims["sub"] == Str(username)
  {
    var user := UserByName(users, username);
    if user.None? then
      Err(BadRequest(InvalidCredentials))
    else
      FindFirstMatch(users, HasUsername(username), user.value);
      if !VerifyPassword(hash, password, user.value.hashedPassword) then
        Err(BadRequest(InvalidCredentials))
      else
        Ok(LoginResponse(CreateAccessToken(map["sub" := Str(username)], now), Bearer))
  }

  /** The corrected login differs from the code only where the code crashes. */
  lemma LoginCorrectionAgrees(hash: string -> string, users: seq<User>, username: string,
                              password: string, now: int)
    ensures LoginUserAsWritten(hash, users, username, password, now) == Err(ServerError)
        ==> LoginUser(hash, users, username, password, now) == Err(BadRequest(InvalidCredentials))
    ensures LoginUserAsWritten(hash, users, username, password, now) != Err(ServerError)
        ==> LoginUser(hash, users, username, password, now) == LoginUserAsWritten(hash, users, username, password, now)
  {
  }

  /** The input that shows the crash: any username on an empty users table. */
  lemma UnknownUsernameCrashes(hash: string -> string, username: string, password: string, now: int)
    ensures LoginUserAsWritten(hash, [], username, password, now) == Err(ServerError)
    ensures LoginUser(hash, [], username, password, now) == Err(BadRequest(InvalidCredentials))
  {
  }

  /** A user who has just registered can log in with the registered
      password, and the token names the registered username. */
  lemma LoginAfterRegister(hash: string -> string, users: seq<User>, form: UserCreate,
                           id: int, today: Day, now: int)
    requires VerifyUnique(users, form.username, form.email).Pass?
    ensures LoginUser(hash, users + [NewUser(id, form, hash, today)], form.username, form.password, now)
         == Ok(LoginResponse(CreateAccessToken(map["sub" := Str(form.username)], now), Bearer))
  {
    var u := NewUser(id, form, hash, today);
    FindAppend(users, [u], HasUsername(form.username));
  }

  /** The token login issues, once decoded, authenticates as a user with
      the submitted username, provided that username is not empty. */
  lemma IssuedTokenAuthenticates(hash: string -> string, users: seq<User>, username: string,
                                 password: string, now: int)
    requires LoginUser(hash, users, username, password, now).Ok?
    requires username != ""
    ensures var t := LoginUser(hash, users, username, password, now).value.accessToken;
      && GetCurrentUser(users, Decoded(t.claims)).Ok?
      && GetCurrentUser(users, Decoded(t.claims)).value.username == username
  {
  }

  /** Should `login_user` issue a token for the empty username, that token
      never authenticates: its subject is falsy. */
  lemma EmptyUsernameTokenRejected(hash: string -> string, users: seq<User>, password: string, now: int)
    requires LoginUser(hash, users, "", password, now).Ok?
    ensures GetCurrentUser(users, Decoded(LoginUser(hash, users, "", password, now).value.accessToken.claims))
         == Err(NoSubject)
  {
  }

  /** The users table `register_user` inserts into. */
  class UserTable {
    var rows: seq<User>
    /** The next value of the `id` autoincrement. */
    var nextId: int

    ghost predicate Valid()
      reads this
    {
      UsersWellFormed(rows, nextId)
    }

    constructor ()
      ensures Valid() && rows == []
    {
      rows := [];
      nextId := 1;
    }

    /** register_user: checks uniqueness before inserting, so a refused
        registration leaves the table as it was. */
    method RegisterUser(hash: string -> string, form: UserCreate, today: Day) returns (r: Result<string, ApiError>)
      requires Valid()
      modifies this
      ensures Valid()
      ensures r.Err? <==> VerifyUnique(old(rows), form.username, form.email).Fail?
      ensures r.Err? ==> r.error == BadRequest(InvalidCredentials) && rows == old(rows) && nextId == old(nextId)
      ensures r.Ok? ==>
        && r.value == UserCreated
        && rows == old(rows) + [NewUser(old(nextId), form, hash, today)]
        && nextId > old(nextId)
    {
      var check := VerifyUnique(rows, form.username, form.email);
      if check.Fail? {
        return Err(check.error);
      }
      var newUser := NewUser(nextId, form, hash, today);
      rows := rows + [newUser];
      nextId := nextId + 1;
      r := Ok(UserCreated);
    }
  }
}
