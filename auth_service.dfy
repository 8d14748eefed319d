/** `AuthService`: registration and login over the user collection. The
    collection is the store that the repository's `findUserByUsername`,
    `findUserByEmail` and `createUser` reach; bcrypt and JWT signing are
    parameters, since they are foreign library calls. */
module AuthService {
  import opened Wrappers
  import opened UserModel
  import JsString

  /** A stored user document: its `_id`, the normalised fields and the stored
      (hashed) password, which the type allows to be absent. */
  datatype User = User(id: nat, username: string, email: string, password: Option<string>, notifications: bool)

  /** What the controller passes to `register` and to `login`. */
  datatype RegisterData = RegisterData(username: string, email: string, password: string)
  datatype LoginData = LoginData(username: string, password: string)

  /** The claims both tokens are signed over. */
  datatype Claims = Claims(id: nat, username: string)

  /** The foreign calls: `bcrypt.hash(password, salt)`, `bcrypt.compare(plain,
      hashed)`, `jwt.sign(claims, secret, { expiresIn })`, and the two secrets as
      read from the environment. */
  datatype Crypto = Crypto(
    hash: (string, string) -> string,
    compare: (string, string) -> bool,
    sign: (Claims, string, string) -> string,
    accessSecretEnv: Option<string>,
    refreshSecretEnv: Option<string>)

  const AccessSecretFallback: string := "access_fallback"
  const RefreshSecretFallback: string := "refresh_fallback"
  const AccessExpiry: string := "15m"
  const RefreshExpiry: string := "7d"

  /** `process.env.X || fallback`: an unset or empty variable gives the fallback. */
  function Secret(env: Option<string>, fallback: string): (r: string)
    ensures env.Some? && env.value != "" ==> r == env.value
    ensures env.None? || env.value == "" ==> r == fallback
  {
    if env.Some? && env.value != "" then env.value else fallback
  }

  function AccessToken(u: User, crypto: Crypto): string {
    crypto.sign(Claims(u.id, u.username), Secret(crypto.accessSecretEnv, AccessSecretFallback), AccessExpiry)
  }

  function RefreshToken(u: User, crypto: Crypto): string {
    crypto.sign(Claims(u.id, u.username), Secret(crypto.refreshSecretEnv, RefreshSecretFallback), RefreshExpiry)
  }

  datatype RegisteredUser = RegisteredUser(id: nat, username: string, email: string)
  datatype LoggedInUser = LoggedInUser(id: nat, username: string)
  datatype RegisterResult = RegisterResult(user: RegisteredUser, accessToken: string, refreshToken: string)
  datatype LoginResult = LoginResult(user: LoggedInUser, accessToken: string, refreshToken: string)

  /** The errors `register` and `login` throw, and the errors Mongoose throws from
      `save()` (schema validation, a unique-index violation). */
  datatype AuthError = UsernameTaken | EmailTaken | InvalidCredentials | ValidationFailed(fields: set<Field>) | DuplicateKey

  /** `error.message`. For the two Mongoose errors only the start of the message is
      modelled. */
  function Message(e: AuthError): string {
    match e
    case UsernameTaken => "Username already taken"
    case EmailTaken => "Email already registered"
    case InvalidCredentials => "Invalid credentials"
    case ValidationFailed(_) => "User validation failed"
    case DuplicateKey => "E11000 duplicate key error"
  }

  /** `findOne({ username })`: Mongoose applies the path's `trim` setter to the filter
      value, so the probe is compared in its stored form. The first match is returned. */
  function FindByUsername(users: seq<User>, username: string): (r: Option<User>)
    ensures r.Some? ==> r.value in users && r.value.username == NormalizeUsername(username)
    ensures r.None? <==> forall u :: u in users ==> u.username != NormalizeUsername(username)
  {
    if users == [] then None
    else if users[0].username == NormalizeUsername(username) then Some(users[0])
    else FindByUsername(users[1..], username)
  }

  /** `findOne({ email })`, with the `trim` and `lowercase` setters applied to the probe. */
  function FindByEmail(users: seq<User>, email: string): (r: Option<User>)
    ensures r.Some? ==> r.value in users && r.value.email == NormalizeEmail(email)
    ensures r.None? <==> forall u :: u in users ==> u.email != NormalizeEmail(email)
  {
    if users == [] then None
    else if users[0].email == NormalizeEmail(email) then Some(users[0])
    else FindByEmail(users[1..], email)
  }

  /** The unique indexes on `username` and `email`, and distinct `_id`s. */
  ghost predicate UniqueKeys(users: seq<User>) {
    forall i, j :: 0 <= i < j < |users| ==>
      users[i].username != users[j].username && users[i].email != users[j].email && users[i].id != users[j].id
  }

  /** With the unique indexes, a lookup finds the one user that has the key. */
  lemma FindUnique(users: seq<User>, u: User, name: string, email: string)
    requires UniqueKeys(users) && u in users
    ensures u.username == NormalizeUsername(name) ==> FindByUsername(users, name) == Some(u)
    ensures u.email == NormalizeEmail(email) ==> FindByEmail(users, email) == Some(u)
  {
    if u.username == NormalizeUsername(name) {
      var v := FindByUsername(users, name).value;
      var i, j :| 0 <= i < |users| && 0 <= j < |users| && users[i] == u && users[j] == v;
      assert i == j;
    }
    if u.email == NormalizeEmail(email) {
      var v := FindByEmail(users, email).value;
      var i, j :| 0 <= i < |users| && 0 <= j < |users| && users[i] == u && users[j] == v;
      assert i == j;
    }
  }

  /** The user `login` settles on: looked up as a username first and, only when
      that finds nobody, as an email. */
  function LoginLookup(users: seq<User>, identifier: string): Option<User> {
    match FindByUsername(users, identifier)
    case Some(u) => Some(u)
    case None => FindByEmail(users, identifier)
  }

  /** `AuthService.login`: every failure is the same 'Invalid credentials', whether
      nobody was found, the stored password is absent, or it does not match. */
  function Login(users: seq<User>, data: LoginData, crypto: Crypto): (r: Result<LoginResult, AuthError>)
    ensures r.Failure? ==> r.error == InvalidCredentials
  {
    match LoginLookup(users, data.username)
    case None => Failure(InvalidCredentials)
    case Some(user) =>
      if user.password.None? then Failure(InvalidCredentials)
      else if !crypto.compare(data.password, user.password.value) then Failure(InvalidCredentials)
      else Success(LoginResult(
        LoggedInUser(user.id, user.username),
        AccessToken(user, crypto),
        RefreshToken(user, crypto)))
  }

  /** Login succeeds iff someone is found under the identifier, has a stored
      password, and bcrypt accepts the given password against it; the result then
      names that user by id and username only, and both tokens carry the same claims. */
  lemma LoginOutcome(users: seq<User>, data: LoginData, crypto: Crypto)
    ensures var found := LoginLookup(users, data.username);
      Login(users, data, crypto).Success? <==>
        found.Some? && found.value.password.Some? && crypto.compare(data.password, found.value.password.value)
    ensures var found := LoginLookup(users, data.username);
      Login(users, data, crypto).Success? ==>
        var claims := Claims(found.value.id, found.value.username);
        && Login(users, data, crypto).value.user == LoggedInUser(claims.id, claims.username)
        && Login(users, data, crypto).value.accessToken
          == crypto.sign(claims, Secret(crypto.accessSecretEnv, AccessSecretFallback), AccessExpiry)
        && Login(users, data, crypto).value.refreshToken
          == crypto.sign(claims, Secret(crypto.refreshSecretEnv, RefreshSecretFallback), RefreshExpiry)
  {
  }

  /** The lookup order: a user whose username is the identifier wins, even when
      another user's email is also the identifier; the email is tried only when no
      username matches. */
  lemma LoginLookupOrder(users: seq<User>, identifier: string)
    requires UniqueKeys(users)
    ensures forall u :: u in users && u.username == NormalizeUsername(identifier) ==>
      LoginLookup(users, identifier) == Some(u)
    ensures (forall u :: u in users ==> u.username != NormalizeUsername(identifier)) ==>
      forall u :: u in users && u.email == NormalizeEmail(identifier) ==> LoginLookup(users, identifier) == Some(u)
    ensures LoginLookup(users, identifier).None? <==>
      forall u :: u in users ==> u.username != NormalizeUsername(identifier) && u.email != NormalizeEmail(identifier)
  {
    forall u | u in users {
      FindUnique(users, u, identifier, identifier);
    }
  }

  /** The user document `createUser` stores for a validated input. */
  function NewUser(id: nat, d: UserDoc, hashed: string): User {
    User(id, d.username, d.email, Some(hashed), d.notifications)
  }

  /** Whether a document would violate a unique index of the collection. */
  predicate Collides(users: seq<User>, d: UserDoc) {
    exists u :: u in users && (u.username == d.username || u.email == d.email)
  }

  /** The user collection. `nextId` stands for the `_id` generator. */
  class UserStore {
    var users: seq<User>
    var nextId: nat

    ghost predicate Valid()
      reads this
    {
      UniqueKeys(users) && forall u :: u in users ==> u.id < nextId
    }

    constructor ()
      ensures Valid() && users == []
    {
      users, nextId := [], 0;
    }

    /** `createUser`: `new UserModel(data).save()`. The document is validated, the
        pre-save hook hashes its password, and the write is refused when a unique
        index would be violated. */
    method CreateUser(input: UserInput, salt: string, crypto: Crypto) returns (r: Result<User, AuthError>)
      requires Valid()
      modifies this
      ensures Valid()
      ensures Validate(input).Failure? ==>
        r == Failure(ValidationFailed(Validate(input).error)) && users == old(users)
      ensures Validate(input).Success? && Collides(old(users), Validate(input).value) ==>
        r == Failure(DuplicateKey) && users == old(users)
      ensures Validate(input).Success? && !Collides(old(users), Validate(input).value) ==>
        var d := Validate(input).value;
        && r == Success(NewUser(old(nextId), d, crypto.hash(d.password, salt)))
        && users == old(users) + [r.value]
    {
      var v := Validate(input);
      if v.Failure? {
        return Failure(ValidationFailed(v.error));
      }
      var d := v.value;
      if Collides(users, d) {
        return Failure(DuplicateKey);
      }
      var doc := new UserDocument(d);
      doc.PreSave(true, salt, crypto.hash);
      var u := NewUser(nextId, d, doc.password);
      users := users + [u];
      nextId := nextId + 1;
      return Success(u);
    }

    /** `AuthService.register`: the username check comes first, the email check
        second, and only then is the user created; a failure creates nobody. The
        unique-index error cannot arise, because both checks look up the keys in
        their stored form. */
    method Register(data: RegisterData, salt: string, crypto: Crypto) returns (r: Result<RegisterResult, AuthError>)
      requires Valid()
      modifies this
      ensures Valid()
      ensures FindByUsername(old(users), data.username).Some? ==>
        r == Failure(UsernameTaken) && users == old(users)
      ensures FindByUsername(old(users), data.username).None? && FindByEmail(old(users), data.email).Some? ==>
        r == Failure(EmailTaken) && users == old(users)
      ensures r.Failure? ==> users == old(users) && r.error != DuplicateKey
      ensures r.Success? ==>
        && FindByUsername(old(users), data.username).None? && FindByEmail(old(users), data.email).None?
        && exists u :: users == old(users) + [u]
            && u.id == old(nextId) && u.username == NormalizeUsername(data.username)
            && u.email == NormalizeEmail(data.email) && u.notifications
            && u.password == Some(crypto.hash(data.password, salt))
            && r.value == RegisterResult(RegisteredUser(u.id, u.username, u.email), AccessToken(u, crypto), RefreshToken(u, crypto))
      ensures FindByUsername(old(users), data.username).None? && FindByEmail(old(users), data.email).None? ==>
        var v := Validate(UserInput(Some(data.username), Some(data.email), Some(data.password), None));
        && (r.Success? <==> v.Success?)
        && (v.Failure? ==> r == Failure(ValidationFailed(v.error)))
    {
      var existingUser := FindByUsername(users, data.username);
      if existingUser.Some? {
        return Failure(UsernameTaken);
      }
      var existingEmail := FindByEmail(users, data.email);
      if existingEmail.Some? {
        return Failure(EmailTaken);
      }
      var input := UserInput(Some(data.username), Some(data.email), Some(data.password), None);
      ghost var before := users;
      var created := CreateUser(input, salt, crypto);
      if created.Failure? {
        return Failure(created.error);
      }
      var newUser := created.value;
      assert users == before + [newUser];
      r := Success(RegisterResult(
        RegisteredUser(newUser.id, newUser.username, newUser.email),
        AccessToken(newUser, crypto),
        RefreshToken(newUser, crypto)));
    }
  }
}
