/** The client's HTTP instance (`services/api.js`): a request interceptor that sends the
    stored access token, and a response interceptor that, on a first 401, refreshes the
    token pair once and replays the request, and that signs the browser out when the
    refresh fails. The server and the refresh endpoint are parameters. */
module ApiClient {
  import opened Wrappers
  import opened Storage
  import Text

  const AuthorizationHeader := "Authorization"
  const LoginPath := "/login"

  /** `Bearer ${access}`, where an absent access token prints as `undefined`. */
  function Bearer(access: Option<string>): string {
    "Bearer " + (if access.Some? then access.value else "undefined")
  }

  /** The headers the request interceptor leaves: an `Authorization` bearer header
      exactly when the stored access token is truthy. */
  function Authorized(headers: map<string, string>, t: Tokens): (h: map<string, string>)
    ensures Text.Truthy(t.access) ==> h == headers[AuthorizationHeader := Bearer(t.access)]
    ensures !Text.Truthy(t.access) ==> h == headers
  {
    if Text.Truthy(t.access) then headers[AuthorizationHeader := Bearer(t.access)] else headers
  }

  /** Running the interceptor again with the same tokens changes nothing more. */
  lemma AuthorizedIdempotent(headers: map<string, string>, t: Tokens)
    ensures Authorized(Authorized(headers, t), t) == Authorized(headers, t)
  {
    if Text.Truthy(t.access) {
      assert Authorized(headers, t)[AuthorizationHeader := Bearer(t.access)] == Authorized(headers, t);
    }
  }

  /** The pages that need no session: `/`, `/login`, `/signup`, `/forgot-password`
      and `/reset-password`. */
  predicate IsPublicPath(path: string) {
    path in {"/", "/login", "/signup", "/forgot-password", "/reset-password"}
  }

  /** What `/^\/(login|signup|forgot-password|reset-password)?$/` accepts: a slash
      followed by nothing or by one of the four names. */
  predicate MatchesPublicPattern(path: string) {
    |path| >= 1 && path[0] == '/' && path[1..] in {"", "login", "signup", "forgot-password", "reset-password"}
  }

  /** The list of public paths is the pattern the interceptor tests. */
  lemma PublicPathIsPattern(path: string)
    ensures IsPublicPath(path) <==> MatchesPublicPattern(path)
  {
    if MatchesPublicPattern(path) {
      PatternIsPublic(path);
    }
    if IsPublicPath(path) {
      if path == "/" {
        assert path[1..] == "";
      } else if path == "/login" {
        assert path[1..] == "login";
      } else if path == "/signup" {
        assert path[1..] == "signup";
      } else if path == "/forgot-password" {
        assert path[1..] == "forgot-password";
      } else {
        assert path == "/reset-password";
        assert path[1..] == "reset-password";
      }
    }
  }

  lemma PatternIsPublic(path: string)
    requires MatchesPublicPattern(path)
    ensures IsPublicPath(path)
  {
    var rest := path[1..];
    assert path == "/" + rest;
    if rest == "" {
      assert path == "/";
    } else if rest == "login" {
      assert path == "/login";
    } else if rest == "signup" {
      assert path == "/signup";
    } else if rest == "forgot-password" {
      assert path == "/forgot-password";
    } else {
      assert rest == "reset-password";
      assert path == "/reset-password";
    }
  }

  /** The pair stored after a refresh: the new access token, and the new refresh token
      when one came back, else the old one. */
  function NewTokens(stored: Tokens, access: Option<string>, refresh: Option<string>): (t: Tokens)
    ensures t.access == access
    ensures Text.Truthy(refresh) ==> t.refresh == refresh
    ensures !Text.Truthy(refresh) ==> t.refresh == stored.refresh
  {
    Tokens(access, if Text.Truthy(refresh) then refresh else stored.refresh)
  }

  /** The reply of the refresh endpoint. */
  datatype RefreshReply = Refreshed(access: Option<string>, refresh: Option<string>) | RefreshFailed

  /** A request as it reaches the server. */
  datatype Sent = Sent(url: string, headers: map<string, string>, body: map<string, string>)

  datatype Response = Response(status: int, body: map<string, string>)

  predicate IsSuccess(status: int) {
    200 <= status < 300
  }

  /** Why a call was rejected: the response's own error, or the failed refresh. */
  datatype Failure = HttpError(status: int) | RefreshError

  datatype Outcome = Resolved(response: Response) | Rejected(failure: Failure)

  /** What the error interceptor decides: replay the request, or reject. */
  datatype Action = Replay | Reject(failure: Failure)

  /** The location bar; assigning `href` navigates. */
  class Location {
    var pathname: string

    constructor(path: string)
      ensures pathname == path
    {
      pathname := path;
    }

    /** `window.location.href = '/login'` unless already on a public page. */
    method LeaveForLogin()
      modifies this
      ensures pathname == if IsPublicPath(old(pathname)) then old(pathname) else LoginPath
    {
      if !IsPublicPath(pathname) {
        pathname := LoginPath;
      }
    }
  }

  /** An axios request config, with the `_retry` mark the error interceptor sets. */
  class Request {
    var url: string
    var headers: map<string, string>
    var body: map<string, string>
    var retry: bool

    constructor(url: string, headers: map<string, string>, body: map<string, string>)
      ensures this.url == url && this.headers == headers && this.body == body && !retry
    {
      this.url := url;
      this.headers := headers;
      this.body := body;
      retry := false;
    }

    function AsSent(): Sent
      reads this
    {
      Sent(url, headers, body)
    }
  }

  /** The request interceptor. */
  method AttachToken(storage: LocalStorage, req: Request)
    modifies req
    ensures req.headers == Authorized(old(req.headers), StoredTokens(storage.items))
    ensures req.url == old(req.url) && req.body == old(req.body) && req.retry == old(req.retry)
  {
    var tokens := StoredTokens(storage.items);
    if Text.Truthy(tokens.access) {
      req.headers := req.headers[AuthorizationHeader := Bearer(tokens.access)];
    }
  }

  /** The error interceptor for a response with `status`. A first 401 marks the request
      and, with a stored refresh token, calls `refreshServer` once (the token sent is
      returned in `refreshed`): success stores the new pair and re-signs the request for
      a replay; failure clears the session and leaves for the login page. A 500 from a
      token-refresh URL clears the session too. Anything else is rejected as it came. */
  method OnError(storage: LocalStorage, location: Location, req: Request, status: int,
                 refreshServer: string -> RefreshReply) returns (act: Action, refreshed: Option<string>)
    modifies storage, location, req
    ensures req.retry == (old(req.retry) || status == 401) && req.url == old(req.url) && req.body == old(req.body)
    ensures storage.items - {TokensKey, UserKey} == old(storage.items) - {TokensKey, UserKey}
    ensures old(req.retry) || status != 401 ==> refreshed.None? && act.Reject?
    ensures refreshed.Some? ==> status == 401 && !old(req.retry) && Text.Truthy(StoredTokens(old(storage.items)).refresh)
                                && refreshed == StoredTokens(old(storage.items)).refresh
    ensures status == 401 && !old(req.retry) && Text.Truthy(StoredTokens(old(storage.items)).refresh) ==> refreshed.Some?
    ensures refreshed.Some? && refreshServer(refreshed.value).Refreshed? ==>
              var reply := refreshServer(refreshed.value);
              act == Replay
              && storage.items == old(storage.items)[TokensKey := TokensItem(NewTokens(StoredTokens(old(storage.items)), reply.access, reply.refresh))]
              && req.headers == old(req.headers)[AuthorizationHeader := Bearer(reply.access)]
              && location.pathname == old(location.pathname)
    ensures refreshed.Some? && refreshServer(refreshed.value).RefreshFailed? ==>
              act == Reject(RefreshError)
              && storage.items == old(storage.items) - {TokensKey, UserKey}
              && location.pathname == (if IsPublicPath(old(location.pathname)) then old(location.pathname) else LoginPath)
    ensures refreshed.None? ==>
              act == Reject(HttpError(status)) && req.headers == old(req.headers)
              && (status == 500 && Text.Contains(old(req.url), "token/refresh") ==>
                    storage.items == old(storage.items) - {TokensKey, UserKey}
                    && location.pathname == (if IsPublicPath(old(location.pathname)) then old(location.pathname) else LoginPath))
              && (!(status == 500 && Text.Contains(old(req.url), "token/refresh")) ==>
                    storage.items == old(storage.items) && location.pathname == old(location.pathname))
  {
    refreshed := None;
    if status == 401 && !req.retry {
      req.retry := true;
      var tokens := StoredTokens(storage.items);
      if Text.Truthy(tokens.refresh) {
        refreshed := tokens.refresh;
        match refreshServer(tokens.refresh.value)
        case Refreshed(access, refresh) =>
          var newTokens := NewTokens(tokens, access, refresh);
          storage.SetItem(TokensKey, TokensItem(newTokens));
          req.headers := req.headers[AuthorizationHeader := Bearer(newTokens.access)];
          return Replay, refreshed;
        case RefreshFailed =>
          storage.ClearSession();
          location.LeaveForLogin();
          return Reject(RefreshError), refreshed;
      }
    }
    if status == 500 && Text.Contains(req.url, "token/refresh") {
      storage.ClearSession();
      location.LeaveForLogin();
    }
    act := Reject(HttpError(status));
  }

  /** One call through the instance: the request interceptor, the server, and on an
      error the error interceptor, which may replay the request once. `sent` lists the
      requests the server saw and `refreshes` the refresh tokens sent to the refresh
      endpoint. */
  method Dispatch(storage: LocalStorage, location: Location, url: string, headers: map<string, string>,
                  body: map<string, string>, server: Sent -> Response, refreshServer: string -> RefreshReply)
    returns (out: Outcome, sent: seq<Sent>, refreshes: seq<string>)
    modifies storage, location
    ensures 1 <= |sent| <= 2 && |refreshes| <= 1 && (|sent| == 2 ==> |refreshes| == 1)
    ensures storage.items - {TokensKey, UserKey} == old(storage.items) - {TokensKey, UserKey}
    ensures sent[0] == Sent(url, Authorized(headers, StoredTokens(old(storage.items))), body)
    ensures IsSuccess(server(sent[0]).status) ==>
              out == Resolved(server(sent[0])) && |sent| == 1 && |refreshes| == 0
              && storage.items == old(storage.items) && location.pathname == old(location.pathname)
    ensures !IsSuccess(server(sent[0]).status) && server(sent[0]).status != 401 ==>
              out == Rejected(HttpError(server(sent[0]).status)) && |sent| == 1 && |refreshes| == 0
              && (if server(sent[0]).status == 500 && Text.Contains(url, "token/refresh")
                  then storage.items == old(storage.items) - {TokensKey, UserKey}
                       && location.pathname == (if IsPublicPath(old(location.pathname)) then old(location.pathname) else LoginPath)
                  else storage.items == old(storage.items) && location.pathname == old(location.pathname))
    ensures server(sent[0]).status == 401 && !Text.Truthy(StoredTokens(old(storage.items)).refresh) ==>
              out == Rejected(HttpError(401)) && |sent| == 1 && |refreshes| == 0
              && storage.items == old(storage.items) && location.pathname == old(location.pathname)
    ensures |refreshes| == 1 ==> server(sent[0]).status == 401 && Some(refreshes[0]) == StoredTokens(old(storage.items)).refresh
    ensures |refreshes| == 1 && refreshServer(refreshes[0]).RefreshFailed? ==>
              out == Rejected(RefreshError) && |sent| == 1
              && storage.items == old(storage.items) - {TokensKey, UserKey}
              && location.pathname == (if IsPublicPath(old(location.pathname)) then old(location.pathname) else LoginPath)
    ensures |refreshes| == 1 && refreshServer(refreshes[0]).Refreshed? ==>
              |sent| == 2 && sent[1].url == url && sent[1].body == body
              && AuthorizationHeader in sent[1].headers && sent[1].headers[AuthorizationHeader] == Bearer(refreshServer(refreshes[0]).access)
    ensures |refreshes| == 1 && refreshServer(refreshes[0]).Refreshed? ==>
              var reply := refreshServer(refreshes[0]);
              var stored := old(storage.items)[TokensKey := TokensItem(NewTokens(StoredTokens(old(storage.items)), reply.access, reply.refresh))];
              |sent| == 2
              && (if server(sent[1]).status == 500 && Text.Contains(url, "token/refresh")
                  then storage.items == stored - {TokensKey, UserKey}
                       && location.pathname == (if IsPublicPath(old(location.pathname)) then old(location.pathname) else LoginPath)
                  else storage.items == stored && location.pathname == old(location.pathname))
    ensures |sent| == 2 && IsSuccess(server(sent[1]).status) ==> out == Resolved(server(sent[1]))
    ensures |sent| == 2 && !IsSuccess(server(sent[1]).status) ==> out == Rejected(HttpError(server(sent[1]).status))
  {
    var req := new Request(url, headers, body);
    AttachToken(storage, req);
    sent := [req.AsSent()];
    refreshes := [];
    var response := server(sent[0]);
    if IsSuccess(response.status) {
      return Resolved(response), sent, refreshes;
    }
    var act, refreshed := OnError(storage, location, req, response.status, refreshServer);
    if refreshed.Some? {
      refreshes := [refreshed.value];
    }
    if act.Reject? {
      return Rejected(act.failure), sent, refreshes;
    }
    // `return api(originalRequest)`: the replay runs both interceptors again.
    ghost var signed := req.headers;
    AttachToken(storage, req);
    assert req.headers[AuthorizationHeader] == signed[AuthorizationHeader];
    sent := sent + [req.AsSent()];
    var replayed := server(sent[1]);
    if IsSuccess(replayed.status) {
      return Resolved(replayed), sent, refreshes;
    }
    var again, refreshedAgain := OnError(storage, location, req, replayed.status, refreshServer);
    out := Rejected(again.failure);
  }
}
