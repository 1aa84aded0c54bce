/** The authentication provider: the signed-in user, the loading flag, and
    the session slots it keeps in browser storage. The storage helper module
    is not part of this model; it is taken to read and write the same `token`
    and `user` slots the HTTP service clears on 401, with the user record
    serialised by a codec passed in as a parameter. */
module Auth {
  import opened Wrappers
  import opened Types
  import Api

  /** How the user record is written to and read back from its slot. */
  datatype UserCodec = UserCodec(encode: User -> string, decode: string -> Option<User>)

  /** A codec that reads back every record it wrote. */
  ghost predicate Faithful(codec: UserCodec) {
    forall u :: codec.decode(codec.encode(u)) == Some(u)
  }

  datatype AuthState = AuthState(user: Option<User>, isLoading: bool, store: Api.Storage)

  /** `storage.getToken()`. */
  function StoredToken(store: Api.Storage): Option<string> {
    Api.Get(store, Api.TokenSlot)
  }

  /** `storage.getUser()`: a slot that is missing or does not decode reads as absent. */
  function StoredUser(store: Api.Storage, codec: UserCodec): Option<User> {
    if Api.UserSlot in store then codec.decode(store[Api.UserSlot]) else None
  }

  /** The provider before its start-up effect has run. */
  function Initial(store: Api.Storage): AuthState {
    AuthState(None, true, store)
  }

  /** Start-up effect: the stored user is restored only when a non-empty
      token is stored too; loading ends whatever storage holds. */
  function Startup(s: AuthState, codec: UserCodec): (r: AuthState)
    ensures !r.isLoading
    ensures r.store == s.store
    ensures r.user != s.user ==> r.user == StoredUser(s.store, codec)
    ensures StoredUser(s.store, codec).Some? && Truthy(StoredToken(s.store)) ==> r.user == StoredUser(s.store, codec)
    ensures r.user.Some? ==> Truthy(StoredToken(s.store)) || r.user == s.user
  {
    var storedUser := StoredUser(s.store, codec);
    var token := StoredToken(s.store);
    var user := if storedUser.Some? && Truthy(token) then storedUser else s.user;
    AuthState(user, false, s.store)
  }

  /** `isAuthenticated`. */
  predicate IsAuthenticated(s: AuthState) {
    s.user.Some?
  }

  datatype AuthData = AuthData(token: string, user: User)

  /** How a login or registration request settled: a reply, or the
      service's rejection. */
  datatype AuthReply = Replied(success: bool, data: Option<AuthData>) | Threw(error: Api.ApiError)

  /** Login and registration success handling (the two are identical): a
      successful reply with data stores the token and user and signs the
      user in; any other reply changes nothing; a rejection is rethrown with
      state and storage left as they were. */
  function Settle(s: AuthState, reply: AuthReply, codec: UserCodec): (r: Result<AuthState, Api.ApiError>)
    ensures reply.Threw? <==> r.Failure?
    ensures reply.Threw? ==> r.error == reply.error
    ensures reply.Replied? && reply.success && reply.data.Some? ==>
      && r.Success?
      && r.value.user == Some(reply.data.value.user)
      && r.value.isLoading == s.isLoading
      && r.value.store == s.store[Api.TokenSlot := reply.data.value.token][Api.UserSlot := codec.encode(reply.data.value.user)]
    ensures reply.Replied? && !(reply.success && reply.data.Some?) ==> r == Success(s)
  {
    match reply
    case Threw(e) => Failure(e)
    case Replied(success, data) =>
      if success && data.Some? then
        var store := s.store[Api.TokenSlot := data.value.token][Api.UserSlot := codec.encode(data.value.user)];
        Success(AuthState(Some(data.value.user), s.isLoading, store))
      else Success(s)
  }

  /** `logout`: the session slots are cleared and the user signed out. */
  function Logout(s: AuthState): (r: AuthState)
    ensures !IsAuthenticated(r)
    ensures Api.TokenSlot !in r.store && Api.UserSlot !in r.store
    ensures forall k | k in s.store && k != Api.TokenSlot && k != Api.UserSlot :: k in r.store && r.store[k] == s.store[k]
    ensures r.isLoading == s.isLoading
  {
    AuthState(None, s.isLoading, s.store - {Api.TokenSlot, Api.UserSlot})
  }

  /** A session written by a successful login survives a page reload. */
  lemma LoginSurvivesReload(s: AuthState, token: string, u: User, codec: UserCodec)
    requires Faithful(codec)
    requires token != ""
    ensures var after := Settle(s, Replied(true, Some(AuthData(token, u))), codec);
      after.Success? && Startup(Initial(after.value.store), codec).user == Some(u)
  {
  }

  /** After logout a reload finds no session. */
  lemma LogoutSurvivesReload(s: AuthState, codec: UserCodec)
    ensures !IsAuthenticated(Startup(Initial(Logout(s).store), codec))
  {
  }

  /** After a 401 a reload finds no session either. */
  lemma UnauthorizedEndsSession(store: Api.Storage, failure: Api.HttpFailure, codec: UserCodec)
    requires Api.StatusOf(failure) == Some(401)
    ensures !IsAuthenticated(Startup(Initial(Api.OnResponseError(store, failure).store), codec))
  {
  }

  /** `useAuth`: a component outside the provider gets an error instead of the state. */
  function UseAuth(provided: Option<AuthState>): (r: Result<AuthState, HookError>)
    ensures r.Success? <==> provided.Some?
    ensures r.Success? ==> r.value == provided.value
    ensures r.Failure? ==> r.error.message == "useAuth must be used within an AuthProvider"
  {
    match provided
    case Some(s) => Success(s)
    case None => Failure(OutsideProvider("useAuth must be used within an AuthProvider"))
  }
}
