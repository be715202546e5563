/** The login page's submit (src/pages/Login.tsx): a successful login is stored and the
    page moves to `/`; a failed one is turned into a message by its status. */
module LoginPage {
  import opened Optional
  import opened Messages
  import opened ApiError
  import opened UserCodec
  import opened AuthService

  /** The outcome of `authService.login`: the response body, or the failed call's
      status (absent without a response), `friendlyMessage` on the error object, and the
      server's `message` in the response body. */
  datatype LoginReply =
    | Accepted(response: LoginResponse)
    | Refused(status: Option<int>, friendlyMessage: Option<string>, serverMessage: Option<string>)

  /** The storage afterwards, the route navigated to, and the page error shown. */
  datatype LoginView = LoginView(storage: Storage, navigateTo: Option<string>, error: Option<string>)

  /** The statuses the page answers with a message of its own. */
  predicate HasOwnMessage(status: Option<int>) {
    HasStatus(status, 400) || HasStatus(status, 401) || HasStatus(status, 404) || HasStatus(status, 500)
  }

  /** The status classification in `handleSubmit`'s catch block. */
  function FailureMessage(status: Option<int>, friendlyMessage: Option<string>, serverMessage: Option<string>): (msg: string)
    ensures msg != ""
    ensures HasStatus(status, 401) ==> msg == BadCredentials
    ensures HasStatus(status, 404) ==> msg == NoSuchUser
    ensures HasStatus(status, 400) ==> msg == OrElse(friendlyMessage, CheckInput)
    ensures HasStatus(status, 500) ==> msg == ServerError
    ensures !HasOwnMessage(status) ==> msg == OrElse(serverMessage, LoginFailed)
  {
    if HasStatus(status, 401) then BadCredentials
    else if HasStatus(status, 404) then NoSuchUser
    else if HasStatus(status, 400) then OrElse(friendlyMessage, CheckInput)
    else if HasStatus(status, 500) then ServerError
    else OrElse(serverMessage, LoginFailed)
  }

  /** `handleSubmit` after the call settles. */
  function Submit(st: Storage, reply: LoginReply): (r: LoginView)
    ensures reply.Accepted? ==> r.storage == SaveTokens(st, reply.response)
                                && r.navigateTo == Some("/") && r.error.None?
    ensures reply.Refused? ==> r.storage == st && r.navigateTo.None?
                               && r.error == Some(FailureMessage(reply.status, reply.friendlyMessage, reply.serverMessage))
  {
    match reply
    case Accepted(response) => LoginView(SaveTokens(st, response), Some("/"), None)
    case Refused(status, friendly, server) => LoginView(st, None, Some(FailureMessage(status, friendly, server)))
  }

  /** A message the page wrote itself tells which status the server answered, as long as
      the server's own texts are not copies of it. */
  lemma MessageIdentifiesStatus(status: Option<int>, friendlyMessage: Option<string>, serverMessage: Option<string>)
    requires forall t :: t in [BadCredentials, NoSuchUser, ServerError] ==>
               friendlyMessage != Some(t) && serverMessage != Some(t)
    ensures FailureMessage(status, friendlyMessage, serverMessage) == BadCredentials <==> HasStatus(status, 401)
    ensures FailureMessage(status, friendlyMessage, serverMessage) == NoSuchUser <==> HasStatus(status, 404)
    ensures FailureMessage(status, friendlyMessage, serverMessage) == ServerError <==> HasStatus(status, 500)
  {
    assert BadCredentials in [BadCredentials, NoSuchUser, ServerError];
    assert NoSuchUser in [BadCredentials, NoSuchUser, ServerError];
    assert ServerError in [BadCredentials, NoSuchUser, ServerError];
  }

  /** A successful login leaves a whole session behind that reads back as the user who
      logged in. */
  lemma LoginEstablishesSession(st: Storage, response: LoginResponse)
    ensures SessionWhole(Submit(st, Accepted(response)).storage)
    ensures GetCurrentUser(Submit(st, Accepted(response)).storage) == Some(UserInfo(response.userId, response.name))
    ensures IsAuthenticated(Submit(st, Accepted(response)).storage) <==> response.accessToken != ""
  {
    SavedSessionReadsBack(st, response);
  }
}
