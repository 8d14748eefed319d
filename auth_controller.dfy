/** `AuthController`: which request fields reach the service, and how a service
    outcome becomes an HTTP status and JSON body. */
module AuthController {
  import opened Wrappers
  import opened AuthService

  /** A JSON response body: `{ message }`, or `{ message, ...result }`. */
  datatype Body =
    | MessageOnly(message: string)
    | Registered(message: string, registration: RegisterResult)
    | LoggedIn(message: string, login: LoginResult)

  datatype Response = Response(status: nat, body: Body)

  /** A request body: the named fields, plus whatever else the client sent. */
  datatype SignupBody = SignupBody(username: string, email: string, password: string, rest: map<string, string>)
  datatype LoginBody = LoginBody(username: string, password: string, rest: map<string, string>)

  /** `const { username, email, password } = req.body`. */
  function SignupRequest(body: SignupBody): (d: RegisterData)
    ensures d.username == body.username && d.email == body.email && d.password == body.password
  {
    RegisterData(body.username, body.email, body.password)
  }

  /** `const { username, password } = req.body`. */
  function LoginRequest(body: LoginBody): (d: LoginData)
    ensures d.username == body.username && d.password == body.password
  {
    LoginData(body.username, body.password)
  }

  /** Fields other than the destructured ones never reach the service. */
  lemma RequestIgnoresRest(a: SignupBody, b: SignupBody, c: LoginBody, d: LoginBody)
    requires a.username == b.username && a.email == b.email && a.password == b.password
    requires c.username == d.username && c.password == d.password
    ensures SignupRequest(a) == SignupRequest(b)
    ensures LoginRequest(c) == LoginRequest(d)
  {
  }

  /** The `signup` handler's response: 201 with the result on success; 400 with the
      service's own message when the username or the email is taken; 500 'Server
      error' for anything else (a validation failure included). */
  function SignupResponse(outcome: Result<RegisterResult, AuthError>): (r: Response)
    ensures outcome.Success? ==> r == Response(201, Registered("User created successfully", outcome.value))
    ensures outcome.Failure? && (outcome.error == UsernameTaken || outcome.error == EmailTaken) ==>
      r == Response(400, MessageOnly(AuthService.Message(outcome.error)))
    ensures outcome.Failure? && outcome.error != UsernameTaken && outcome.error != EmailTaken ==>
      r == Response(500, MessageOnly("Server error"))
  {
    match outcome
    case Success(result) => Response(201, Registered("User created successfully", result))
    case Failure(error) =>
      var m := AuthService.Message(error);
      if m == "Username already taken" || m == "Email already registered" then Response(400, MessageOnly(m))
      else Response(500, MessageOnly("Server error"))
  }

  /** The `login` handler's response: 200 with the result on success; 400 with
      'Invalid credentials' for that error; 500 'Server error' for anything else. */
  function LoginResponse(outcome: Result<LoginResult, AuthError>): (r: Response)
    ensures outcome.Success? ==> r == Response(200, LoggedIn("Login successful", outcome.value))
    ensures outcome.Failure? && outcome.error == InvalidCredentials ==>
      r == Response(400, MessageOnly("Invalid credentials"))
    ensures outcome.Failure? && outcome.error != InvalidCredentials ==>
      r == Response(500, MessageOnly("Server error"))
  {
    match outcome
    case Success(result) => Response(200, LoggedIn("Login successful", result))
    case Failure(error) =>
      var m := AuthService.Message(error);
      if m == "Invalid credentials" then Response(400, MessageOnly(m))
      else Response(500, MessageOnly("Server error"))
  }

  /** `AuthController.login` end to end: since the service only ever fails with
      'Invalid credentials', a login is answered 200 or 400, never 500. */
  function Login(users: seq<User>, body: LoginBody, crypto: Crypto): (r: Response)
    ensures r.status == 200 || r.status == 400
    ensures r.status == 400 <==> AuthService.Login(users, LoginRequest(body), crypto).Failure?
  {
    LoginResponse(AuthService.Login(users, LoginRequest(body), crypto))
  }

  /** `AuthController.signup` end to end. */
  method Signup(store: UserStore, body: SignupBody, salt: string, crypto: Crypto) returns (r: Response)
    requires store.Valid()
    modifies store
    ensures store.Valid()
    ensures r.status == 201 <==> |store.users| == |old(store.users)| + 1
    ensures r.status != 201 ==> store.users == old(store.users)
    ensures r.status == 201 || r.status == 400 || r.status == 500
    ensures FindByUsername(old(store.users), body.username).Some? ==>
      r == Response(400, MessageOnly("Username already taken"))
    ensures FindByUsername(old(store.users), body.username).None? && FindByEmail(old(store.users), body.email).Some? ==>
      r == Response(400, MessageOnly("Email already registered"))
    ensures var input := UserModel.UserInput(Some(body.username), Some(body.email), Some(body.password), None);
      FindByUsername(old(store.users), body.username).None? && FindByEmail(old(store.users), body.email).None?
      && UserModel.Validate(input).Failure?
      ==> r == Response(500, MessageOnly("Server error"))
  {
    var outcome := store.Register(SignupRequest(body), salt, crypto);
    r := SignupResponse(outcome);
  }
}
