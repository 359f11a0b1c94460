/** The browser's local storage as the client uses it: a map from key to a JSON value,
    holding the `tokens` pair and the signed-in `user`. */
module Storage {
  import opened Wrappers

  /** The stored token pair; a key that `JSON.stringify` dropped (an `undefined`
      value) is `None`. */
  datatype Tokens = Tokens(access: Option<string>, refresh: Option<string>)

  /** The user record the server returns, as far as the client keeps it. */
  datatype UserInfo = UserInfo(id: int, email: string, username: string)

  /** What a storage key can hold. */
  datatype Stored = TokensItem(tokens: Tokens) | UserItem(user: UserInfo)

  const TokensKey := "tokens"
  const UserKey := "user"

  /** `JSON.parse(localStorage.getItem('tokens') || '{}')`: the stored pair, or the
      empty object when the key is absent. */
  function StoredTokens(items: map<string, Stored>): (t: Tokens)
    ensures TokensKey !in items ==> t == Tokens(None, None)
    ensures TokensKey in items && items[TokensKey].TokensItem? ==> t == items[TokensKey].tokens
  {
    if TokensKey in items && items[TokensKey].TokensItem? then items[TokensKey].tokens else Tokens(None, None)
  }

  /** `JSON.parse(localStorage.getItem('user') || 'null')`. */
  function StoredUser(items: map<string, Stored>): (u: Option<UserInfo>)
    ensures UserKey !in items ==> u.None?
    ensures UserKey in items && items[UserKey].UserItem? ==> u == Some(items[UserKey].user)
  {
    if UserKey in items && items[UserKey].UserItem? then Some(items[UserKey].user) else None
  }

  /** The storage object; `setItem` and `removeItem` reassign `items`. */
  class LocalStorage {
    var items: map<string, Stored>

    constructor(initial: map<string, Stored>)
      ensures items == initial
    {
      items := initial;
    }

    method SetItem(key: string, value: Stored)
      modifies this
      ensures items == old(items)[key := value]
    {
      items := items[key := value];
    }

    method RemoveItem(key: string)
      modifies this
      ensures items == old(items) - {key}
    {
      items := items - {key};
    }

    /** The two removals every sign-out path performs. */
    method ClearSession()
      modifies this
      ensures items == old(items) - {TokensKey, UserKey}
      ensures TokensKey !in items && UserKey !in items
    {
      RemoveItem(TokensKey);
      RemoveItem(UserKey);
    }
  }

  /** After the session is cleared nothing is signed in and no token is sent. */
  lemma ClearedSessionIsEmpty(items: map<string, Stored>)
    ensures StoredTokens(items - {TokensKey, UserKey}) == Tokens(None, None)
    ensures StoredUser(items - {TokensKey, UserKey}).None?
  {
  }
}
