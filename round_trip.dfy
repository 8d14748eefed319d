/** Properties that span the server and the browser client: what a chat message
    looks like after it has crossed the server, what the sign-in form shows for
    each HTTP answer, and how wide a poll bar can be. */
module RoundTrip {
  import opened Wrappers
  import opened Protocol
  import Sockets
  import ChatClient
  import PollClient
  import AuthService
  import AuthController
  import AuthClient
  import UserModel
  import JsString

  // ---------------------------------------------------------------------------
  // Chat
  // ---------------------------------------------------------------------------

  /** The payload `handleSendMessage` emits. */
  function Sent(input: string, user: string): Payload {
    map["text" := input, "username" := user]
  }

  /** A sent message reaches every client with the sender's socket id, the text as
      typed, the sender's name (or 'Anonymous' for an empty one) and the server's
      time. */
  lemma ChatRoundTrip(input: string, user: string, sid: SocketId, now: string)
    ensures ChatClient.MessageOf(Sockets.StampMessage(Sent(input, user), sid, now))
      == ChatClient.Message(Some(sid), if user != "" then user else "Anonymous", Some(input), Some(now))
  {
    var r := Sockets.StampMessage(Sent(input, user), sid, now);
    assert r["text"] == input && r["username"] == user;
  }

  /** Whatever a client puts in its payload, the id and time other clients see are
      the server's. */
  lemma StampCannotBeForged(data: Payload, sid: SocketId, now: string)
    ensures ChatClient.MessageOf(Sockets.StampMessage(data, sid, now)).id == Some(sid)
    ensures ChatClient.MessageOf(Sockets.StampMessage(data, sid, now)).timestamp == Some(now)
  {
  }

  /** The sender sees its own message as its own exactly when its name is not
      empty (an empty name comes back as 'Anonymous'). */
  lemma OwnMessageRecognised(input: string, user: string, sid: SocketId, now: string)
    ensures ChatClient.IsOwn(ChatClient.MessageOf(Sockets.StampMessage(Sent(input, user), sid, now)), user) <==> user != ""
  {
    ChatRoundTrip(input, user, sid, now);
  }

  /** The typing indicator other clients show names the typist, or 'Someone'. */
  lemma TypingRoundTrip(user: string, sid: SocketId)
    ensures OrElse(Lookup(Sockets.StampTyping(map["username" := user], sid), "username"), "Someone")
      == if user != "" then user else "Someone"
  {
    var r := Sockets.StampTyping(map["username" := user], sid);
    assert r["username"] == user;
  }

  // ---------------------------------------------------------------------------
  // Sign-in
  // ---------------------------------------------------------------------------

  /** How the HTTP client hands a response to the form: a 2xx answer resolves with
      `data.user.username` and `data.accessToken`; any other status rejects with
      the response attached, so only its body's message matters. A 2xx body
      without a user (which the controller never sends) makes the form's own
      property access throw, with no response and no request attached. */
  function ClientOutcome(r: AuthController.Response): (o: AuthClient.Outcome)
    ensures !(200 <= r.status < 300) ==> o.Failed? && o.err.response == Some(AuthClient.ErrorResponse(Some(r.body.message)))
  {
    if 200 <= r.status < 300 then
      match r.body
      case Registered(_, res) => AuthClient.Succeeded(AuthClient.SuccessData(res.user.username, res.accessToken))
      case LoggedIn(_, res) => AuthClient.Succeeded(AuthClient.SuccessData(res.user.username, res.accessToken))
      case MessageOnly(_) => AuthClient.Failed(AuthClient.RequestError(None, false, "Cannot read properties of undefined (reading 'username')"))
    else
      AuthClient.Failed(AuthClient.RequestError(Some(AuthClient.ErrorResponse(Some(r.body.message))), true, "Request failed with status code"))
  }

  /** A failed sign-in always reads 'Invalid credentials' on the form; a successful
      one logs in under the stored (normalised) username with the access token. */
  lemma LoginShown(users: seq<AuthService.User>, body: AuthController.LoginBody, crypto: AuthService.Crypto)
    ensures var outcome := AuthService.Login(users, AuthController.LoginRequest(body), crypto);
      var o := ClientOutcome(AuthController.Login(users, body, crypto));
      && (o.Succeeded? <==> outcome.Success?)
      && (o.Failed? ==> AuthClient.ErrorMessage(o.err) == "Invalid credentials")
      && (o.Succeeded? ==> o.data == AuthClient.SuccessData(outcome.value.user.username, outcome.value.accessToken))
  {
  }

  /** A failed sign-up shows the server's own message for a taken username or
      email and 'Server error' for everything else; a successful one logs in
      under the stored username. */
  lemma SignupShown(outcome: Result<AuthService.RegisterResult, AuthService.AuthError>)
    ensures var o := ClientOutcome(AuthController.SignupResponse(outcome));
      && (o.Succeeded? <==> outcome.Success?)
      && (outcome.Success? ==> o.data == AuthClient.SuccessData(outcome.value.user.username, outcome.value.accessToken))
      && (outcome.Failure? && outcome.error == AuthService.UsernameTaken ==> AuthClient.ErrorMessage(o.err) == "Username already taken")
      && (outcome.Failure? && outcome.error == AuthService.EmailTaken ==> AuthClient.ErrorMessage(o.err) == "Email already registered")
      && (outcome.Failure? && outcome.error != AuthService.UsernameTaken && outcome.error != AuthService.EmailTaken ==>
            AuthClient.ErrorMessage(o.err) == "Server error")
  {
  }

  /** Any password the form lets through meets the schema's password rule: the
      browser's `minLength={6}` and Mongoose's `minlength: 6` count the same code
      units. */
  lemma SubmittedPasswordPasses(isLogin: bool, username: string, email: string, password: string,
                                isEmailAddress: string -> bool)
    requires AuthClient.Submittable(isLogin, username, email, password, isEmailAddress)
    ensures UserModel.FieldPasses(UserModel.Password,
      UserModel.UserInput(Some(username), Some(email), Some(password), None))
  {
    UserModel.PasswordRule(UserModel.UserInput(Some(username), Some(email), Some(password), None));
  }

  /** The browser's `required` does not trim, so a username of spaces gets past the
      form and only the schema rejects it. */
  lemma BlankUsernameReachesServer(isEmailAddress: string -> bool)
    requires isEmailAddress("ann@example.com")
    ensures AuthClient.Submittable(false, "   ", "ann@example.com", "secret", isEmailAddress)
    ensures !UserModel.FieldPasses(UserModel.Username,
      UserModel.UserInput(Some("   "), Some("ann@example.com"), Some("secret"), None))
  {
    JsString.TrimEmptyIff("   ");
    assert JsString.Utf16Length("secret") == 6 by {
      JsString.Utf16LengthBmp("secret");
    }
  }

  // ---------------------------------------------------------------------------
  // Poll
  // ---------------------------------------------------------------------------

  /** No bar of any poll the server has broadcast is wider than 100 percent. */
  lemma BroadcastBarsBounded(outbox: seq<Emission>, k: nat, i: nat)
    requires Sockets.SnapshotsConsistent(outbox)
    requires k < |outbox| && outbox[k].event.UpdatePoll?
    requires i < |outbox[k].event.poll.options|
    ensures PollClient.Percentage(outbox[k].event.poll.options[i].votes, outbox[k].event.poll.totalVotes) <= 100
  {
    PollClient.PercentageOfSnapshot(outbox[k].event.poll, i);
  }
}
