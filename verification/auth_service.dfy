/** The token store of src/services/authService.ts over the browser's key/value storage.
    The storage is a map from key to text; the network replies of `/auth/refresh` and
    `/auth/logout` are inputs to the operations that make those calls. */
module AuthService {
  import opened Optional
  import opened UserCodec

  type Storage = map<string, string>

  const AccessKey := "accessToken"
  const RefreshKey := "refreshToken"
  const UserKey := "user"

  /** The three keys the store owns. */
  const SessionKeys: set<string> := {AccessKey, RefreshKey, UserKey}

  /** The body of a successful `/auth/login`. */
  datatype LoginResponse = LoginResponse(accessToken: string, refreshToken: string, userId: string, name: string)

  /** `saveTokens`: writes the two tokens and the stringified identity; every other key is
      kept. */
  function SaveTokens(st: Storage, response: LoginResponse): (r: Storage)
    ensures r.Keys == st.Keys + SessionKeys
    ensures r[AccessKey] == response.accessToken
    ensures r[RefreshKey] == response.refreshToken
    ensures r[UserKey] == Stringify(UserInfo(response.userId, response.name))
    ensures forall k :: k in st && k !in SessionKeys ==> r[k] == st[k]
  {
    st[AccessKey := response.accessToken]
      [RefreshKey := response.refreshToken]
      [UserKey := Stringify(UserInfo(response.userId, response.name))]
  }

  /** `clearTokens`: removes the three keys; every other key is kept. */
  function ClearTokens(st: Storage): (r: Storage)
    ensures r.Keys == st.Keys - SessionKeys
    ensures forall k :: k in r ==> r[k] == st[k]
  {
    st - SessionKeys
  }

  /** `isAuthenticated`: `!!localStorage.getItem('accessToken')`. */
  predicate IsAuthenticated(st: Storage) {
    AccessKey in st && st[AccessKey] != ""
  }

  /** `getCurrentUser`: the parsed identity, or nothing when the key is absent, empty,
      or does not parse. */
  function GetCurrentUser(st: Storage): (r: Option<UserInfo>)
    ensures UserKey !in st || st[UserKey] == "" ==> r.None?
    ensures r.Some? ==> UserKey in st && st[UserKey] == Stringify(r.value)
    ensures forall u :: UserKey in st && st[UserKey] == Stringify(u) ==> r == Some(u)
    ensures UserKey in st && st[UserKey] != "" && Parse(st[UserKey]).None? ==> r.None?
  {
    assert forall u :: Stringify(u) != "" && Parse(Stringify(u)) == Some(u) by {
      forall u: UserInfo
        ensures Stringify(u) != "" && Parse(Stringify(u)) == Some(u)
      {
        ParseStringify(u);
        assert Stringify(u)[0] == '{';
      }
    }
    if UserKey !in st || st[UserKey] == "" then None
    else
      ParseSound(st[UserKey]);
      Parse(st[UserKey])
  }

  /** The outcome of the `/auth/refresh` call. `Unanswered` is a call that has not
      settled: the client sets no timeout, so the page may be left before it does. */
  datatype RefreshReply = Granted(accessToken: string) | Rejected | Unanswered

  /** What `refresh`'s promise has come to: resolved to a token or to null, or not yet
      resolved. */
  datatype Resolution = Resolved(token: Option<string>) | Unresolved

  /** The storage afterwards, what `refresh` resolves to, and the refresh token posted to
      `/auth/refresh` (none when no call was made). */
  datatype RefreshRun = RefreshRun(storage: Storage, result: Resolution, sent: Option<string>)

  /** What the reply to `/auth/refresh` writes into the store as the store is when the
      reply arrives: a grant sets the access token alone, a rejection clears the
      session. The reply does not look at the store again first. */
  function RefreshSettle(st: Storage, reply: RefreshReply): (r: Storage)
    ensures reply.Granted? ==>
              && r.Keys == st.Keys + {AccessKey}
              && r[AccessKey] == reply.accessToken
              && forall k :: k in st && k != AccessKey ==> r[k] == st[k]
    ensures reply.Rejected? ==> r == ClearTokens(st)
    ensures reply.Unanswered? ==> r == st
  {
    match reply
    case Granted(token) => st[AccessKey := token]
    case Rejected => ClearTokens(st)
    case Unanswered => st
  }

  /** `refresh`: without a stored refresh token it calls nothing and resolves to null;
      with one it posts it, and then either stores and returns the new access token or
      clears the session and resolves to null. While the call is unanswered nothing is
      written and nothing is resolved. Here the reply lands on the store the call
      started from. */
  function Refresh(st: Storage, reply: RefreshReply): (r: RefreshRun)
    ensures r.sent.None? <==> RefreshKey !in st || st[RefreshKey] == ""
    ensures r.sent.None? ==> r.storage == st && r.result == Resolved(None)
    ensures r.sent.Some? ==> r.sent.value == st[RefreshKey]
    ensures r.sent.Some? && reply.Granted? ==>
              && r.result == Resolved(Some(reply.accessToken))
              && r.storage.Keys == st.Keys + {AccessKey}
              && r.storage[AccessKey] == reply.accessToken
              && forall k :: k in st && k != AccessKey ==> r.storage[k] == st[k]
    ensures r.sent.Some? && reply.Rejected? ==> r.result == Resolved(None) && r.storage == ClearTokens(st)
    ensures r.sent.Some? && reply.Unanswered? ==> r.result == Unresolved && r.storage == st
  {
    if RefreshKey !in st || st[RefreshKey] == "" then RefreshRun(st, Resolved(None), None)
    else
      var sent := Some(st[RefreshKey]);
      var result :=
        match reply
        case Granted(token) => Resolved(Some(token))
        case Rejected => Resolved(None)
        case Unanswered => Unresolved;
      RefreshRun(RefreshSettle(st, reply), result, sent)
  }

  /** The outcome of a call whose reply the caller does not read. `Pending` is a call
      that has not settled: the client sets no timeout, and the only caller of `logout`
      (src/components/Navbar.tsx) reloads the page without awaiting it. */
  datatype CallReply = Succeeded | Failed | Pending

  /** The storage afterwards and the path posted to, if any. */
  datatype LogoutRun = LogoutRun(storage: Storage, sent: Option<string>)

  const LogoutPath := "/auth/logout?userId="

  /** `logout`: posts to the logout endpoint only when the cached identity has a
      non-empty user id, and clears the session once that call has settled, whatever its
      outcome. Without a call the session is cleared at once; while the call is pending
      the session is still there. */
  function Logout(st: Storage, reply: CallReply): (r: LogoutRun)
    ensures r.sent.Some? <==> GetCurrentUser(st).Some? && GetCurrentUser(st).value.userId != ""
    ensures r.sent.Some? ==> r.sent.value == LogoutPath + GetCurrentUser(st).value.userId
    ensures r.sent.None? || !reply.Pending? ==> r.storage == ClearTokens(st)
    ensures r.sent.Some? && reply.Pending? ==> r.storage == st
  {
    var sent :=
      match GetCurrentUser(st)
      case Some(u) => if u.userId != "" then Some(LogoutPath + u.userId) else None
      case None => None;
    if sent.Some? && reply.Pending? then LogoutRun(st, sent)
    else LogoutRun(ClearTokens(st), sent)
  }

  // ---------------------------------------------------------------------------
  // The session as a whole

  /** The three keys are stored together or not at all. */
  predicate SessionWhole(st: Storage) {
    SessionKeys <= st.Keys || SessionKeys !! st.Keys
  }

  /** The store's operations that write to storage. */
  datatype Action = Save(response: LoginResponse) | Clear | RefreshWith(refreshReply: RefreshReply) | LogoutWith(logoutReply: CallReply)

  function Apply(st: Storage, a: Action): Storage {
    match a
    case Save(response) => SaveTokens(st, response)
    case Clear => ClearTokens(st)
    case RefreshWith(reply) => Refresh(st, reply).storage
    case LogoutWith(reply) => Logout(st, reply).storage
  }

  function Run(st: Storage, actions: seq<Action>): Storage
    decreases |actions|
  {
    if actions == [] then st else Run(Apply(st, actions[0]), actions[1..])
  }

  lemma ApplyKeepsSessionWhole(st: Storage, a: Action)
    requires SessionWhole(st)
    ensures SessionWhole(Apply(st, a))
  {
    match a
    case Save(response) =>
    case Clear =>
    case RefreshWith(reply) =>
      if RefreshKey in st && reply.Granted? {
        assert AccessKey in st;
      }
    case LogoutWith(reply) =>
  }

  /** No sequence of store operations, each completing before the next starts, leaves a
      partial session behind: starting from a whole session (for one, empty storage), the
      tokens and the identity stay together. `ClearDuringRefresh` shows what an
      interleaved refresh can do instead. */
  lemma {:induction false} RunKeepsSessionWhole(st: Storage, actions: seq<Action>)
    requires SessionWhole(st)
    ensures SessionWhole(Run(st, actions))
    decreases |actions|
  {
    if actions != [] {
      ApplyKeepsSessionWhole(st, actions[0]);
      RunKeepsSessionWhole(Apply(st, actions[0]), actions[1..]);
    }
  }

  /** After `saveTokens` the store reports the saved identity, and it is authenticated
      exactly when the access token is non-empty. */
  lemma SavedSessionReadsBack(st: Storage, response: LoginResponse)
    ensures GetCurrentUser(SaveTokens(st, response)) == Some(UserInfo(response.userId, response.name))
    ensures IsAuthenticated(SaveTokens(st, response)) <==> response.accessToken != ""
  {
    var u := UserInfo(response.userId, response.name);
    ParseStringify(u);
    assert Stringify(u) != "" by {
      assert Stringify(u)[0] == '{';
    }
  }

  /** After `clearTokens` nothing of the session can be read back, and clearing again
      changes nothing. */
  lemma ClearedSessionIsEmpty(st: Storage, reply: RefreshReply)
    ensures !IsAuthenticated(ClearTokens(st))
    ensures GetCurrentUser(ClearTokens(st)).None?
    ensures Refresh(ClearTokens(st), reply) == RefreshRun(ClearTokens(st), Resolved(None), None)
    ensures ClearTokens(ClearTokens(st)) == ClearTokens(st)
  {
  }

  /** A refresh never changes who is logged in: a granted one keeps the identity and the
      refresh token, a rejected one removes both. */
  lemma RefreshKeepsIdentity(st: Storage, reply: RefreshReply)
    ensures reply.Granted? ==> GetCurrentUser(Refresh(st, reply).storage) == GetCurrentUser(st)
    ensures Refresh(st, reply).sent.Some? && reply.Rejected? ==>
              GetCurrentUser(Refresh(st, reply).storage).None?
  {
  }

  /** Logging out after a login posts the logged-in user's id, if it has one; while that
      call is pending the user is still logged in. */
  lemma LogoutAfterSave(st: Storage, response: LoginResponse, reply: CallReply)
    ensures Logout(SaveTokens(st, response), reply).sent
         == (if response.userId != "" then Some(LogoutPath + response.userId) else None)
    ensures response.userId != "" && reply.Pending? ==>
              (GetCurrentUser(Logout(SaveTokens(st, response), reply).storage)
                 == Some(UserInfo(response.userId, response.name)))
    ensures response.userId == "" || !reply.Pending? ==>
              !IsAuthenticated(Logout(SaveTokens(st, response), reply).storage)
  {
    SavedSessionReadsBack(st, response);
  }

  /** `RunKeepsSessionWhole` takes each refresh as one step. Between reading the refresh
      token and writing the granted access token, `refresh` awaits the network; if the
      session is cleared meanwhile, the grant leaves a lone access token behind: the
      store is authenticated, yet has no refresh token and no current user. */
  lemma ClearDuringRefresh(st: Storage, response: LoginResponse, token: string)
    requires response.refreshToken != "" && token != ""
    ensures var started := SaveTokens(st, response);
            var cleared := ClearTokens(started);
            var settled := RefreshSettle(cleared, Granted(token));
            && Refresh(started, Unanswered).sent == Some(response.refreshToken)
            && Refresh(started, Unanswered).storage == started
            && SessionWhole(cleared)
            && !SessionWhole(settled)
            && IsAuthenticated(settled)
            && RefreshKey !in settled
            && GetCurrentUser(settled).None?
  {
    var settled := RefreshSettle(ClearTokens(SaveTokens(st, response)), Granted(token));
    assert AccessKey in settled && RefreshKey !in settled;
  }
}
