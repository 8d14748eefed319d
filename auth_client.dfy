/** The sign-in form of the browser client: which endpoint and payload a submit
    posts, how a failed request becomes the message shown, and the `error` /
    `isLoading` state around the request. */
module AuthClient {
  import opened Wrappers
  import opened Protocol
  import opened JsString

  const LoginEndpoint := "/auth/login"
  const SignupEndpoint := "/auth/signup"

  /** The endpoint of a submit in the current mode. */
  function Endpoint(isLogin: bool): (r: string)
    ensures r == LoginEndpoint <==> isLogin
    ensures r == SignupEndpoint <==> !isLogin
  {
    if isLogin then LoginEndpoint else SignupEndpoint
  }

  /** The JSON payload of a submit: username and password always, the email only
      when signing up. */
  function RequestBody(isLogin: bool, username: string, email: string, password: string): (r: Payload)
    ensures isLogin ==> r.Keys == {"username", "password"}
    ensures !isLogin ==> r.Keys == {"username", "email", "password"}
    ensures "username" in r && r["username"] == username
    ensures "password" in r && r["password"] == password
    ensures "email" in r ==> r["email"] == email
  {
    if isLogin then map["username" := username, "password" := password]
    else map["username" := username, "email" := email, "password" := password]
  }

  /** `minLength={6}` on the password input. */
  const FormPasswordMinLength: nat := 6

  /** The browser's constraint validation, which must pass before `handleSubmit`
      runs: `required` on every input shown, `minLength` on the password (counted,
      like `length`, in UTF-16 code units), and the `type="email"` syntax check on
      the signup email, given as the parameter `isEmailAddress`. */
  predicate Submittable(isLogin: bool, username: string, email: string, password: string,
                        isEmailAddress: string -> bool)
  {
    && username != ""
    && password != "" && Utf16Length(password) >= FormPasswordMinLength
    && (isLogin || (email != "" && isEmailAddress(email)))
  }

  /** What the form can see of a failed request: the server's response, if one
      came back (with the `message` of its JSON body, if any); whether a request
      was made at all; and the error's own message. */
  datatype ErrorResponse = ErrorResponse(message: Option<string>)
  datatype RequestError = RequestError(response: Option<ErrorResponse>, requestSent: bool, message: string)

  /** The fields of a successful response the form passes on. */
  datatype SuccessData = SuccessData(username: string, accessToken: string)

  datatype Outcome = Succeeded(data: SuccessData) | Failed(err: RequestError)

  const ServerErrorText := "Server error occurred."
  const NoResponseText := "No response from server. Check your connection."

  /** The message shown for a failed request, tried in order: the server's
      message (a missing or empty one gives 'Server error occurred.'), then the
      no-response text when a request went out, then the error's own message. */
  function ErrorMessage(err: RequestError): (m: string)
    ensures err.response.Some? ==>
      m == (if Truthy(err.response.value.message) then err.response.value.message.value else ServerErrorText)
    ensures err.response.None? && err.requestSent ==> m == NoResponseText
    ensures err.response.None? && !err.requestSent ==> m == err.message
  {
    match err.response
    case Some(resp) => OrElse(resp.message, ServerErrorText)
    case None => if err.requestSent then NoResponseText else err.message
  }

  /** A server that answered with a non-empty message always has that message
      shown, whatever else the error carries. */
  lemma ServerMessageWins(err: RequestError, text: string)
    requires err.response == Some(ErrorResponse(Some(text))) && text != ""
    ensures ErrorMessage(err) == text
  {
  }

  /** The `Auth` component: its form fields, the error line, the loading flag, and
      the `onLogin(username, token)` calls it has made. */
  class AuthForm {
    var isLogin: bool
    var username: string
    var email: string
    var password: string
    var error: string
    var isLoading: bool
    var logins: seq<(string, string)>

    constructor ()
      ensures isLogin && username == "" && email == "" && password == ""
      ensures error == "" && !isLoading && logins == []
    {
      isLogin, username, email, password := true, "", "", "";
      error, isLoading, logins := "", false, [];
    }

    /** Typing into the three inputs. */
    method EditFields(u: string, e: string, p: string)
      modifies this`username, this`email, this`password
      ensures username == u && email == e && password == p
    {
      username, email, password := u, e, p;
    }

    /** The "Sign up" / "Sign in" link: the mode flips and the error is cleared. */
    method ToggleMode()
      modifies this`isLogin, this`error
      ensures isLogin == !old(isLogin) && error == ""
    {
      isLogin := !isLogin;
      error := "";
    }

    /** The start of `handleSubmit`: the error is cleared, loading begins, and the
        request of the current mode is chosen. */
    method BeginSubmit() returns (endpoint: string, payload: Payload)
      modifies this`error, this`isLoading
      ensures error == "" && isLoading
      ensures endpoint == Endpoint(isLogin)
      ensures payload == RequestBody(isLogin, username, email, password)
    {
      error := "";
      isLoading := true;
      endpoint := Endpoint(isLogin);
      payload := RequestBody(isLogin, username, email, password);
    }

    /** The end of `handleSubmit`: on success `onLogin` gets the returned username
        and access token; on failure the chosen message is shown; loading ends on
        both paths. */
    method FinishSubmit(outcome: Outcome)
      modifies this`error, this`isLoading, this`logins
      ensures !isLoading
      ensures outcome.Succeeded? ==>
        logins == old(logins) + [(outcome.data.username, outcome.data.accessToken)] && error == old(error)
      ensures outcome.Failed? ==> logins == old(logins) && error == ErrorMessage(outcome.err)
    {
      match outcome {
        case Succeeded(data) =>
          logins := logins + [(data.username, data.accessToken)];
        case Failed(err) =>
          error := ErrorMessage(err);
      }
      isLoading := false;
    }

    /** A press of the submit button. The button is disabled while loading, and the
        browser runs `handleSubmit` only when the form passes its constraint
        validation; then the mode's request is posted through the HTTP call `post`. */
    method Submit(post: (string, Payload) -> Outcome, isEmailAddress: string -> bool)
      returns (outcome: Option<Outcome>)
      modifies this`error, this`isLoading, this`logins
      ensures outcome.None? <==>
        old(isLoading) || !Submittable(isLogin, username, email, password, isEmailAddress)
      ensures outcome.None? ==>
        error == old(error) && isLoading == old(isLoading) && logins == old(logins)
      ensures outcome.Some? ==>
        && outcome.value == post(Endpoint(isLogin), RequestBody(isLogin, username, email, password))
        && !isLoading
        && (outcome.value.Succeeded? ==>
              logins == old(logins) + [(outcome.value.data.username, outcome.value.data.accessToken)] && error == "")
        && (outcome.value.Failed? ==> logins == old(logins) && error == ErrorMessage(outcome.value.err))
    {
      if isLoading || !Submittable(isLogin, username, email, password, isEmailAddress) {
        return None;
      }
      var endpoint, payload := BeginSubmit();
      var answer := post(endpoint, payload);
      FinishSubmit(answer);
      outcome := Some(answer);
    }
  }
}
