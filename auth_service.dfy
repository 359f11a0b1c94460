/** The client's service layer (`services/authService.js`): the endpoint URLs, the
    sign-out call, and the reads and writes of the two session keys. */
module AuthService {
  import opened Wrappers
  import opened Storage
  import opened ApiClient
  import Text

  const ApiBaseUrl := "http://127.0.0.1:8000/api"
  const LogoutEndpoint := ApiBaseUrl + "/auth/logout/"
  const TransactionsEndpoint := ApiBaseUrl + "/transactions/"
  const BudgetsEndpoint := ApiBaseUrl + "/budgets/"
  const NotificationsEndpoint := ApiBaseUrl + "/notifications/"

  /** The URL of one record of a collection: the collection's endpoint, then `${id}/`. */
  function DetailUrl(endpoint: string, id: nat): string {
    endpoint + Text.NatToString(id) + "/"
  }

  /** A detail URL names its collection and its record: the endpoint is a prefix, the
      URL ends in a slash, and the numeral between them reads back as the id. */
  lemma DetailUrlRoundTrip(endpoint: string, id: nat)
    ensures var u := DetailUrl(endpoint, id);
            |u| > |endpoint| + 1 && u[..|endpoint|] == endpoint && u[|u| - 1] == '/'
            && Text.AllDigits(u[|endpoint|..|u| - 1]) && Text.DigitsValue(u[|endpoint|..|u| - 1]) == id
  {
    var u := DetailUrl(endpoint, id);
    assert u[|endpoint|..|u| - 1] == Text.NatToString(id);
    Text.NatToStringRoundTrip(id);
  }

  /** Two records of one collection never share a URL. */
  lemma DetailUrlInjective(endpoint: string, i: nat, j: nat)
    requires DetailUrl(endpoint, i) == DetailUrl(endpoint, j)
    ensures i == j
  {
    DetailUrlRoundTrip(endpoint, i);
    DetailUrlRoundTrip(endpoint, j);
  }

  /** `!!tokens.access` on the stored pair. */
  predicate IsAuthenticated(items: map<string, Stored>) {
    Text.Truthy(StoredTokens(items).access)
  }

  /** The body of the sign-out call, `{refresh: tokens.refresh}`; an absent token is
      dropped by `JSON.stringify`. */
  function RefreshBody(refresh: Option<string>): (b: map<string, string>)
    ensures refresh.Some? <==> "refresh" in b
    ensures refresh.Some? ==> b["refresh"] == refresh.value
    ensures b.Keys <= {"refresh"}
  {
    if refresh.Some? then map["refresh" := refresh.value] else map[]
  }

  /** `logout`: posts the stored refresh token through the client, ignores how the call
      ends, and removes both session keys. `sent` is what the server saw. */
  method Logout(storage: LocalStorage, location: Location, server: Sent -> Response,
                refreshServer: string -> RefreshReply) returns (sent: seq<Sent>)
    modifies storage, location
    ensures storage.items == old(storage.items) - {TokensKey, UserKey}
    ensures !IsAuthenticated(storage.items) && StoredUser(storage.items).None?
    ensures |sent| >= 1 && sent[0].url == LogoutEndpoint
            && sent[0].body == RefreshBody(StoredTokens(old(storage.items)).refresh)
  {
    var tokens := StoredTokens(storage.items);
    var out, refreshes;
    out, sent, refreshes := Dispatch(storage, location, LogoutEndpoint, map[], RefreshBody(tokens.refresh),
                                     server, refreshServer);
    storage.ClearSession();
  }

  /** `saveAuthData`: writes the user, then the token pair. */
  method SaveAuthData(storage: LocalStorage, user: UserInfo, tokens: Tokens)
    modifies storage
    ensures storage.items == old(storage.items)[UserKey := UserItem(user)][TokensKey := TokensItem(tokens)]
    ensures StoredUser(storage.items) == Some(user) && StoredTokens(storage.items) == tokens
    ensures IsAuthenticated(storage.items) <==> Text.Truthy(tokens.access)
  {
    storage.SetItem(UserKey, UserItem(user));
    storage.SetItem(TokensKey, TokensItem(tokens));
  }

  /** What was saved reads back unchanged, and writing the same data again changes
      nothing. */
  lemma SavedAuthReadBack(items: map<string, Stored>, user: UserInfo, tokens: Tokens)
    ensures var saved := items[UserKey := UserItem(user)][TokensKey := TokensItem(tokens)];
            StoredUser(saved) == Some(user) && StoredTokens(saved) == tokens
            && (IsAuthenticated(saved) <==> Text.Truthy(tokens.access))
            && saved[UserKey := UserItem(user)][TokensKey := TokensItem(tokens)] == saved
  {
    var saved := items[UserKey := UserItem(user)][TokensKey := TokensItem(tokens)];
    assert saved[UserKey := UserItem(user)][TokensKey := TokensItem(tokens)] == saved;
  }
}
