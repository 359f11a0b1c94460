/** The client's session provider (`context/AuthContext.jsx`): the signed-in user held in
    memory, the `loading` flag, and the transitions that keep them in step with local
    storage. Server replies are parameters; `None` stands for a call that threw. */
module AuthContext {
  import opened Wrappers
  import opened Storage
  import opened ApiClient
  import AuthService
  import Text

  /** The reply of the login, signup and Google sign-in endpoints. */
  datatype AuthReply = AuthReply(success: bool, user: UserInfo, tokens: Tokens)

  /** The reply of the profile endpoint: `response.user`, which may be missing. */
  datatype ProfileReply = Profile(user: Option<UserInfo>) | ProfileFailed

  class AuthProvider {
    var user: Option<UserInfo>
    var loading: bool
    const storage: LocalStorage
    const location: Location

    /** `useState(null)` and `useState(true)`. */
    constructor(storage: LocalStorage, location: Location)
      ensures user.None? && loading && this.storage == storage && this.location == location
    {
      user := None;
      loading := true;
      this.storage := storage;
      this.location := location;
    }

    /** `isAuthenticated: !!user`. */
    predicate IsAuthenticated()
      reads this
    {
      user.Some?
    }

    /** The mount effect: with a stored access token the profile is fetched; its user is
        taken when the call succeeds, and both session keys are removed when it fails.
        `loading` ends false on every path. */
    method InitAuth(reply: ProfileReply)
      modifies this, storage
      ensures !loading
      ensures !AuthService.IsAuthenticated(old(storage.items)) ==>
                user == old(user) && storage.items == old(storage.items)
      ensures AuthService.IsAuthenticated(old(storage.items)) && reply.Profile? ==>
                user == reply.user && storage.items == old(storage.items)
      ensures AuthService.IsAuthenticated(old(storage.items)) && reply.ProfileFailed? ==>
                user == old(user) && storage.items == old(storage.items) - {TokensKey, UserKey}
                && !AuthService.IsAuthenticated(storage.items)
    {
      if AuthService.IsAuthenticated(storage.items) {
        match reply
        case Profile(u) =>
          user := u;
        case ProfileFailed =>
          storage.ClearSession();
      }
      loading := false;
    }

    /** The common tail of `login`, `signup` and `googleLogin`: a successful reply is
        saved and its user signed in; any other reply changes nothing. The reply is
        handed back either way, and a call that threw propagates. */
    method Authenticate(reply: Option<AuthReply>) returns (response: Option<AuthReply>)
      modifies this, storage
      ensures response == reply
      ensures reply.Some? && reply.value.success ==>
                user == Some(reply.value.user)
                && storage.items == old(storage.items)[UserKey := UserItem(reply.value.user)]
                                                      [TokensKey := TokensItem(reply.value.tokens)]
                && (AuthService.IsAuthenticated(storage.items) <==> Text.Truthy(reply.value.tokens.access))
      ensures !(reply.Some? && reply.value.success) ==>
                user == old(user) && storage.items == old(storage.items)
      ensures loading == old(loading)
    {
      response := reply;
      if reply.Some? && reply.value.success {
        AuthService.SaveAuthData(storage, reply.value.user, reply.value.tokens);
        user := Some(reply.value.user);
      }
    }

    /** `logout`: the service call, then `setUser(null)`. */
    method Logout(server: Sent -> Response, refreshServer: string -> RefreshReply)
      modifies this, storage, location
      ensures !IsAuthenticated() && loading == old(loading)
      ensures storage.items == old(storage.items) - {TokensKey, UserKey}
      ensures !AuthService.IsAuthenticated(storage.items)
    {
      var sent := AuthService.Logout(storage, location, server, refreshServer);
      user := None;
    }

    /** `updateUser`: the new user in memory and under the `user` key. */
    method UpdateUser(u: UserInfo)
      modifies this, storage
      ensures user == Some(u) && IsAuthenticated() && loading == old(loading)
      ensures storage.items == old(storage.items)[UserKey := UserItem(u)]
      ensures StoredUser(storage.items) == user
      ensures StoredTokens(storage.items) == StoredTokens(old(storage.items))
    {
      user := Some(u);
      storage.SetItem(UserKey, UserItem(u));
    }
  }
}
