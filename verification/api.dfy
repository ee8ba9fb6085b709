/**
 * The client's HTTP layer: the request interceptor that attaches the stored
 * access token, and the response interceptor that, on a 401, refreshes the
 * access token once and replays the request.
 *
 * `localStorage` is a two-slot store of optional strings and
 * `window.location.href` a string. What the server answers (the refresh
 * call's outcome, the replayed request's answer) is an input.
 */
module Api {
  import opened Basics

  /** The `access_token` and `refresh_token` slots of `localStorage`; `None` is a missing item. */
  datatype Storage = Storage(accessToken: Option<string>, refreshToken: Option<string>)

  /** A request config: its URL, its headers and the `_retry` mark. */
  datatype Config = Config(url: string, headers: map<string, string>, retry: bool)

  /** What the refresh endpoint answers: a new access token, or a failure. */
  datatype RefreshResult = RefreshOk(access: string) | RefreshFailed

  /** What the server answers a request with: a successful status, or an error with its status if any response came. */
  datatype Answer = Success(code: int) | Failure(errorStatus: Option<int>)

  /** How the promise a caller holds settles: with the response, or with the error (its status and config). */
  datatype Outcome = Resolved(responseStatus: int) | Rejected(errorStatus: Option<int>, config: Config)

  const AuthorizationHeader: string := "Authorization"
  const LoginPath: string := "/login"

  /** A `localStorage` item tests true in a condition: present and not the empty string. */
  predicate Truthy(v: Option<string>)
  {
    v.Some? && v.value != ""
  }

  // ---------------------------------------------------------------------------
  // request interceptor

  /** The config the request interceptor produces from `c` when `s` is stored. */
  function AttachAuthorization(c: Config, s: Storage): Config
  {
    if Truthy(s.accessToken) then c.(headers := c.headers[AuthorizationHeader := "Bearer " + s.accessToken.value])
    else c
  }

  /**
   * With a non-empty access token stored, the Authorization header is set to
   * `Bearer <token>` and every other header, the URL and the `_retry` mark
   * are kept; otherwise the config is unchanged.
   */
  lemma AttachAuthorizationSpec(c: Config, s: Storage)
    ensures var r := AttachAuthorization(c, s);
      && r.url == c.url && r.retry == c.retry
      && (forall k :: k != AuthorizationHeader ==> (k in r.headers <==> k in c.headers))
      && (forall k :: k != AuthorizationHeader && k in c.headers ==> r.headers[k] == c.headers[k])
      && (Truthy(s.accessToken) ==>
            AuthorizationHeader in r.headers && r.headers[AuthorizationHeader] == "Bearer " + s.accessToken.value)
      && (!Truthy(s.accessToken) ==> r == c)
  {
  }

  // ---------------------------------------------------------------------------
  // response interceptor

  /** A successful response passes through unchanged. */
  function OnFulfilled(status: int): (o: Outcome)
    ensures o.Resolved? && o.responseStatus == status
  {
    Resolved(status)
  }

  /**
   * Everything the error handler leaves behind: the store, the location, the
   * original config object, the refresh tokens posted to the refresh
   * endpoint, the configs replayed, and how the caller's promise settles.
   */
  datatype Handling = Handling(
    storage: Storage,
    location: string,
    config: Config,
    refreshes: seq<string>,
    replays: seq<Config>,
    outcome: Outcome)

  /** Whether the error handler takes the refresh path for an error. */
  predicate WillRetry(status: Option<int>, c: Config)
  {
    status == Some(401) && !c.retry
  }

  /**
   * The error handler for an error with response status `status` on config
   * `c`, when the refresh endpoint answers `refresh` and the server answers
   * the replayed request with `answer`. A failed replay goes through this
   * same handler, on the replayed config.
   */
  function OnRejected(s: Storage, location: string, status: Option<int>, c: Config,
                      refresh: RefreshResult, answer: Answer): Handling
    decreases if c.retry then 0 else 1
  {
    if WillRetry(status, c) then
      var marked := c.(retry := true);
      if Truthy(s.refreshToken) then
        match refresh
        case RefreshOk(access) =>
          var s' := s.(accessToken := Some(access));
          var sent := AttachAuthorization(marked, s');
          (match answer
           case Success(st) => Handling(s', location, marked, [s.refreshToken.value], [sent], Resolved(st))
           case Failure(st) =>
             var inner := OnRejected(s', location, st, sent, refresh, answer);
             Handling(inner.storage, inner.location, marked,
                      [s.refreshToken.value] + inner.refreshes, [sent] + inner.replays, inner.outcome))
        case RefreshFailed =>
          Handling(Storage(None, None), LoginPath, marked, [s.refreshToken.value], [], Rejected(status, marked))
      else
        Handling(s, location, marked, [], [], Rejected(status, marked))
    else
      Handling(s, location, c, [], [], Rejected(status, c))
  }

  /** An error that is not a 401, or whose request was already retried, is rejected as it is and nothing else happens. */
  lemma NotRetriedRejectsUnchanged(s: Storage, location: string, status: Option<int>, c: Config,
                                   refresh: RefreshResult, answer: Answer)
    requires !WillRetry(status, c)
    ensures OnRejected(s, location, status, c, refresh, answer) == Handling(s, location, c, [], [], Rejected(status, c))
  {
  }

  /** Every config the handler leaves or replays carries the `_retry` mark once a 401 was seen. */
  lemma MarkedBeforeRefresh(s: Storage, location: string, status: Option<int>, c: Config,
                            refresh: RefreshResult, answer: Answer)
    requires WillRetry(status, c)
    ensures var h := OnRejected(s, location, status, c, refresh, answer);
      && h.config == c.(retry := true)
      && forall i :: 0 <= i < |h.replays| ==> h.replays[i].retry
  {
  }

  /**
   * A 401 is refreshed at most once and its request replayed at most once,
   * whatever the server answers: the replay carries the `_retry` mark, so a
   * 401 on it is rejected without a second refresh.
   */
  lemma RefreshAtMostOnce(s: Storage, location: string, status: Option<int>, c: Config,
                          refresh: RefreshResult, answer: Answer)
    ensures var h := OnRejected(s, location, status, c, refresh, answer);
      |h.refreshes| <= 1 && |h.replays| <= 1
  {
    if WillRetry(status, c) && Truthy(s.refreshToken) && refresh.RefreshOk? && answer.Failure? {
      var s' := s.(accessToken := Some(refresh.access));
      var sent := AttachAuthorization(c.(retry := true), s');
      NotRetriedRejectsUnchanged(s', location, answer.errorStatus, sent, refresh, answer);
    }
  }

  /**
   * With a stored refresh token and a successful refresh: only the access
   * token is replaced, the refresh token is posted once, the request is
   * replayed once with the new token attached, and the caller gets the
   * replay's answer (a failed replay is rejected with the replayed config).
   */
  lemma RefreshSucceeds(s: Storage, location: string, c: Config, access: string, answer: Answer)
    requires Truthy(s.refreshToken) && !c.retry
    ensures var h := OnRejected(s, location, Some(401), c, RefreshOk(access), answer);
      var s' := Storage(Some(access), s.refreshToken);
      var sent := AttachAuthorization(c.(retry := true), s');
      && h.storage == s' && h.location == location
      && h.refreshes == [s.refreshToken.value] && h.replays == [sent]
      && (access != "" ==> sent.headers[AuthorizationHeader] == "Bearer " + access)
      && (answer.Success? ==> h.outcome == Resolved(answer.code))
      && (answer.Failure? ==> h.outcome == Rejected(answer.errorStatus, sent))
  {
    var s' := Storage(Some(access), s.refreshToken);
    var sent := AttachAuthorization(c.(retry := true), s');
    if answer.Failure? {
      NotRetriedRejectsUnchanged(s', location, answer.errorStatus, sent, RefreshOk(access), answer);
    }
  }

  /**
   * When the refresh fails both tokens are removed, the browser is sent to
   * the login page, nothing is replayed and the original error is rejected.
   */
  lemma RefreshFails(s: Storage, location: string, c: Config, answer: Answer)
    requires Truthy(s.refreshToken) && !c.retry
    ensures var h := OnRejected(s, location, Some(401), c, RefreshFailed, answer);
      && h.storage == Storage(None, None) && h.location == LoginPath
      && h.refreshes == [s.refreshToken.value] && h.replays == []
      && h.outcome == Rejected(Some(401), c.(retry := true))
  {
  }

  /** Without a refresh token there is no refresh call, the store is untouched, and the original error is rejected. */
  lemma NoRefreshToken(s: Storage, location: string, c: Config, refresh: RefreshResult, answer: Answer)
    requires !Truthy(s.refreshToken) && !c.retry
    ensures var h := OnRejected(s, location, Some(401), c, refresh, answer);
      && h.storage == s && h.location == location
      && h.refreshes == [] && h.replays == []
      && h.outcome == Rejected(Some(401), c.(retry := true))
  {
  }

  /** The handler never adds a token of its own: a stored access token after it is the old one or the refreshed one. */
  lemma StoredTokensComeFromRefresh(s: Storage, location: string, status: Option<int>, c: Config,
                                    refresh: RefreshResult, answer: Answer)
    ensures var h := OnRejected(s, location, status, c, refresh, answer);
      && (h.storage.accessToken == s.accessToken
          || (refresh.RefreshOk? && h.storage.accessToken == Some(refresh.access))
          || h.storage.accessToken == None)
      && (h.storage.refreshToken == s.refreshToken || h.storage.refreshToken == None)
  {
    if WillRetry(status, c) && Truthy(s.refreshToken) && refresh.RefreshOk? && answer.Failure? {
      var s' := s.(accessToken := Some(refresh.access));
      NotRetriedRejectsUnchanged(s', location, answer.errorStatus, AttachAuthorization(c.(retry := true), s'), refresh, answer);
    }
  }

  // ---------------------------------------------------------------------------
  // the interceptors on mutable state

  /** A request config object: the interceptors write its headers and its `_retry` mark. */
  class RequestConfig {
    const url: string
    var headers: map<string, string>
    var retry: bool

    function Value(): Config
      reads this
    {
      Config(url, headers, retry)
    }

    constructor (c: Config)
      ensures Value() == c
    {
      url := c.url;
      headers := c.headers;
      retry := c.retry;
    }
  }

  /** The browser state the client touches: `localStorage` and `window.location.href`. */
  class ApiClient {
    var accessToken: Option<string>
    var refreshToken: Option<string>
    var location: string

    function Store(): Storage
      reads this
    {
      Storage(accessToken, refreshToken)
    }

    /** The request interceptor: writes the header into the config object. */
    method InterceptRequest(config: RequestConfig)
      modifies config
      ensures config.Value() == AttachAuthorization(old(config.Value()), Store())
    {
      var token := accessToken;
      if token.Some? && token.value != "" {
        config.headers := config.headers[AuthorizationHeader := "Bearer " + token.value];
      }
    }

    /**
     * The response interceptor's error handler. The replay is sent as a copy
     * of the marked config with the new token attached; its failure is
     * handled by this same handler, which rejects it since it is marked.
     */
    method InterceptError(status: Option<int>, config: RequestConfig, refresh: RefreshResult, answer: Answer)
      returns (outcome: Outcome, refreshes: seq<string>, replays: seq<Config>)
      modifies this, config
      ensures Handling(Store(), location, config.Value(), refreshes, replays, outcome)
              == OnRejected(old(Store()), old(location), status, old(config.Value()), refresh, answer)
    {
      refreshes, replays := [], [];
      if status == Some(401) && !config.retry {
        config.retry := true;
        var token := refreshToken;
        if token.Some? && token.value != "" {
          refreshes := [token.value];
          match refresh {
            case RefreshOk(access) =>
              accessToken := Some(access);
              var sent := AttachAuthorization(config.Value(), Store());
              replays := [sent];
              match answer {
                case Success(st) =>
                  outcome := Resolved(st);
                case Failure(st) =>
                  assert sent.retry;
                  outcome := Rejected(st, sent);
              }
              return;
            case RefreshFailed =>
              accessToken := None;
              refreshToken := None;
              location := LoginPath;
          }
        }
      }
      outcome := Rejected(status, config.Value());
    }
  }
}
