/**
 The session code as it runs: the provider of `lib/auth/auth-context.tsx`, the module variables of
 `lib/auth/session-store.ts`, the storage of `lib/auth/storage.ts` and `apiFetch` of `lib/api.ts`, which call each other
 in a circle. The network and the rest of the application are a parameter: the server may answer anything to each
 request, and while a request is under way the other operations may do anything to the session.
 */
module AuthProvider {
  import opened Wrappers
  import opened Text
  import opened Json
  import opened Users
  import opened Session

  // ---- requests ----

  /** `bearer` is the token of the Authorization header, `body` what is sent along (null for nothing). */
  datatype Request = Request(path: string, bearer: Option<string>, body: Json)

  /** `data` is what `parseResponse` reads: null, a JSON value, or unparsable text as a string. */
  datatype Answer = Lost | Reply(status: nat, data: Json)

  datatype Options = Options(token: Option<string>, skipAuth: bool, retried: bool)

  /** How a call ends: with data, with an `ApiError`, or with the exception `fetch` threw. */
  datatype Outcome = Data(data: Json) | Refused(message: string, status: nat, data: Json) | Offline

  const UNAUTHORIZED := 401
  const FORBIDDEN := 403

  const PLAIN := Options(None, false, false)

  const REFRESH_PATH := "/auth/refresh"
  const ME_PATH := "/auth/me"
  const LOGIN_PATH := "/auth/login"
  const LOGOUT_PATH := "/auth/logout"
  const PASSWORD_PATH := "/auth/change-password"

  function TokenBody(token: string): Json {
    Obj([Field("refresh_token", Str(token))])
  }

  /** The part of the page that other operations may change while one awaits. */
  datatype Page = Page(local: Local, registered: bool)

  /** The server's answer to the n-th request, and what becomes of the page while that request is under way. */
  datatype Around = Around(answer: nat -> Answer, others: (nat, Page) -> Page)

  datatype State = State(page: Page, sent: seq<Request>)

  // ---- what the code does, without its recursion ----

  /** One round trip. */
  function Exchanged(s: State, request: Request, around: Around): State {
    State(around.others(|s.sent|, s.page), s.sent + [request])
  }

  function AnswerNow(s: State, around: Around): Answer {
    around.answer(|s.sent|)
  }

  function WithLocal(s: State, l: Local): State {
    s.(page := s.page.(local := l))
  }

  function Ended(s: State): State {
    WithLocal(s, Cleared(s.page.local))
  }

  function ErrorMessage(data: Json, status: nat): string {
    var error := Lookup(AsRecord(data), "error");
    if error.Some? && error.value.Str? then error.value.s else "Request failed with status " + Digits(status)
  }

  predicate IsOk(a: Answer) {
    a.Reply? && 200 <= a.status <= 299
  }

  predicate IsRefusal(a: Answer) {
    a.Reply? && a.status == UNAUTHORIZED
  }

  /** The outcome of an answer that is passed on. */
  function Told(a: Answer): Outcome {
    match a
    case Lost => Offline
    case Reply(status, data) => if IsOk(a) then Data(data) else Refused(ErrorMessage(data, status), status, data)
  }

  /** The body a parser is given, if it gets that far. */
  function BodyOf(a: Answer): Option<Json> {
    if IsOk(a) then Some(a.data) else None
  }

  /** An empty token makes no header. */
  function Bearer(token: Option<string>): Option<string> {
    if Truthy(token) then token else None
  }

  function Opening(s: State, path: string, body: Json, options: Options): Request {
    Request(path, Bearer(OrElse(options.token, if options.skipAuth then None else s.page.local.moduleToken)), body)
  }

  /** How `refreshSession` ends: it throws, or gives a token or null. */
  datatype Refreshing = Threw | Gave(token: Option<string>)

  function RefreshRequest(token: string): Request {
    Request(REFRESH_PATH, None, TokenBody(token))
  }

  function ProfileRequest(access: string): Request {
    Request(ME_PATH, Bearer(Some(access)), Null)
  }

  function Refreshed(s: State, around: Around): (State, Refreshing) {
    var stored := s.page.local.storedRefresh;
    if !Truthy(stored) then (Ended(s), Gave(None))
    else
      var answered := Exchanged(s, RefreshRequest(stored.value), around);
      var reply := ParsedRefresh(BodyOf(AnswerNow(s, around)));
      if reply.None? then (answered, Threw) else Completed(answered, stored.value, reply.value, around)
  }

  /** `refreshSession` from the answer to `/auth/refresh` on. */
  function Completed(s: State, token: string, reply: RefreshReply, around: Around): (State, Refreshing) {
    var after := Exchanged(s, ProfileRequest(reply.access), around);
    var user := OrElse(ParsedProfile(BodyOf(AnswerNow(s, around))), Fallback(s.page.local, reply));
    if user.None? || !Admitted(user.value) then (after, Threw)
    else
      (WithLocal(after, Applied(after.page.local, reply.access, reply.refresh.GetOr(token), user.value)),
       Gave(Some(reply.access)))
  }

  /** `refreshAccessToken`, through the registered handler. */
  function Renewed(s: State, around: Around): (State, Option<string>) {
    if !s.page.registered then (s, None)
    else
      var (after, result) := Refreshed(s, around);
      if result.Threw? then (Ended(after), None) else (after, result.token)
  }

  /** `triggerSessionExpired`. */
  function Expired(s: State): State {
    if s.page.registered then Ended(s) else s
  }

  function Fetched(s: State, path: string, body: Json, options: Options, around: Around): (State, Outcome) {
    var answer := AnswerNow(s, around);
    var answered := Exchanged(s, Opening(s, path, body, options), around);
    if !IsRefusal(answer) || options.skipAuth || options.retried then (answered, Told(answer))
    else
      var (renewed, token) := Renewed(answered, around);
      if !Truthy(token) then (Expired(renewed), Told(answer))
      else (Exchanged(renewed, Request(path, token, body), around), Told(AnswerNow(renewed, around)))
  }

  function Loaded(s: State, around: Around): State {
    var l := s.page.local;
    if !Truthy(l.storedRefresh) then WithLocal(s, Cleared(l).(loading := false))
    else
      var (after, result) := Refreshed(WithLocal(s, l.(loading := true, refresh := l.storedRefresh)), around);
      var settled := if result.Threw? then Ended(after) else after;
      WithLocal(settled, settled.page.local.(loading := false))
  }

  /** The interval's turn. */
  function Ticked(s: State, around: Around): State {
    var (after, result) := Refreshed(s, around);
    if result.Threw? then Ended(after) else after
  }

  /** `login`; the second component is the status of the error thrown, if any. */
  function Entered(s: State, credentials: Json, around: Around): (State, Option<nat>) {
    var answer := AnswerNow(s, around);
    var answered := Exchanged(s, Request(LOGIN_PATH, None, credentials), around);
    var reply := ParsedLogin(BodyOf(answer));
    if reply.None? then
      (answered, Some(if answer.Reply? && answer.status == FORBIDDEN then FORBIDDEN else UNAUTHORIZED))
    else if !Admitted(reply.value.user) then (answered, Some(FORBIDDEN))
    else
      var login := reply.value;
      (WithLocal(answered, Applied(answered.page.local, login.access, login.refresh, login.user)), None)
  }

  /** `logout`; `captured` is the access token of the view's closure. */
  function LoggedOut(s: State, captured: Option<string>, around: Around): State {
    var stored := s.page.local.storedRefresh;
    if !Truthy(stored) then Ended(s)
    else Exchanged(Ended(s), Request(LOGOUT_PATH, Bearer(captured), TokenBody(stored.value)), around)
  }

  /**
   `changePassword` after its request; `captured` is the access token of the view's closure. The second component
   tells whether it throws.
   */
  function Updated(s: State, captured: Option<string>, outcome: Outcome, around: Around): (State, bool) {
    var user := if outcome.Data? then ParseMe(outcome.data) else None;
    if user.None? || !Admitted(user.value) then (s, true)
    else if !Truthy(s.page.local.storedRefresh) then (Ended(s), false)
    else
      var (after, token) := if captured.Some? then (s, Gave(captured)) else Refreshed(s, around);
      if token.Threw? then (after, true)
      else if !Truthy(token.token) then (after, false)
      else (WithLocal(after, after.page.local.(storedUser := Some(UserJson(user.value)), user := user)), false)
  }

  // ---- the code ----

  class Tab {
    // React state of the provider.
    var user: Option<User>
    var accessToken: Option<string>
    var refreshToken: Option<string>
    var isLoading: bool
    // Module variables of the session store; both handlers are registered and unregistered together.
    var moduleToken: Option<string>
    var registered: bool
    // Local storage.
    var storedRefresh: Option<string>
    var storedUser: Option<Json>
    // The network.
    var sent: seq<Request>
    const around: Around

    constructor (storedRefresh: Option<string>, storedUser: Option<Json>, around: Around)
      ensures Now() == State(Page(Local(None, None, None, true, None, storedRefresh, storedUser), true), [])
      ensures this.around == around
    {
      user, accessToken, refreshToken, isLoading, moduleToken := None, None, None, true, None;
      registered := true;
      this.storedRefresh, this.storedUser := storedRefresh, storedUser;
      sent := [];
      this.around := around;
    }

    function Now(): State
      reads this
    {
      State(Page(Local(user, accessToken, refreshToken, isLoading, moduleToken, storedRefresh, storedUser), registered),
            sent)
    }

    /** `await fetch(…)`: the request goes out, the rest of the application runs, the answer comes in. */
    method Send(request: Request) returns (answer: Answer)
      modifies this
      ensures Now() == Exchanged(old(Now()), request, around) && answer == AnswerNow(old(Now()), around)
    {
      answer := around.answer(|sent|);
      var page := around.others(|sent|, Now().page);
      var l := page.local;
      user, accessToken, refreshToken, isLoading := l.user, l.access, l.refresh, l.loading;
      moduleToken, storedRefresh, storedUser := l.moduleToken, l.storedRefresh, l.storedUser;
      registered := page.registered;
      sent := sent + [request];
    }

    method ClearAuthStorage()
      modifies `storedRefresh, `storedUser
      ensures storedRefresh.None? && storedUser.None?
    {
      storedRefresh := None;
      storedUser := None;
    }

    /** Reading back gives the token, absence standing for an empty one, which is never stored as such. */
    method SetStoredRefreshToken(token: string)
      modifies `storedRefresh
      ensures storedRefresh.GetOr("") == token && storedRefresh != Some("")
    {
      if token == "" {
        storedRefresh := None;
        return;
      }
      storedRefresh := Some(token);
    }

    method ClearSession()
      modifies this
      ensures Now() == Ended(old(Now()))
    {
      user := None;
      accessToken := None;
      refreshToken := None;
      moduleToken := None;
      ClearAuthStorage();
    }

    /** An access check that throws leaves everything as it is. */
    method ApplySession(access: string, refresh: string, nextUser: User) returns (denied: bool)
      modifies this
      ensures denied == !Admitted(nextUser)
      ensures Now() == if denied then old(Now())
                       else WithLocal(old(Now()), Applied(old(Now()).page.local, access, refresh, nextUser))
    {
      if !Admitted(nextUser) { return true; }
      moduleToken := Some(access);
      accessToken := Some(access);
      refreshToken := Some(refresh);
      SetStoredRefreshToken(refresh);
      storedUser := Some(UserJson(nextUser));
      user := Some(nextUser);
      denied := false;
    }

    /**
     `apiFetch`. Under `skipAuth` it never refreshes and a marked call never repeats, which is what ends the circle
     through the refresh.
     */
    method ApiFetch(path: string, body: Json, options: Options) returns (outcome: Outcome)
      modifies this
      ensures (Now(), outcome) == Fetched(old(Now()), path, body, options, around)
      decreases if options.skipAuth then 0 else if options.retried then 1 else 4
    {
      hide Refreshed, Completed, Cleared, ErrorMessage;
      var authToken := if options.token.Some? then options.token else if options.skipAuth then None else moduleToken;
      var answer := Send(Request(path, Bearer(authToken), body));
      if IsRefusal(answer) && !options.skipAuth && !options.retried {
        var newToken := RefreshAccessToken();
        if Truthy(newToken) {
          outcome := ApiFetch(path, body, options.(token := newToken, retried := true));
          return;
        }
        TriggerSessionExpired();
        return Refused(ErrorMessage(answer.data, UNAUTHORIZED), UNAUTHORIZED, answer.data);
      }
      if !IsOk(answer) {
        if answer.Lost? { return Offline; }
        return Refused(ErrorMessage(answer.data, answer.status), answer.status, answer.data);
      }
      outcome := Data(answer.data);
    }

    method RefreshAccessToken() returns (token: Option<string>)
      modifies this
      ensures (Now(), token) == Renewed(old(Now()), around)
      decreases 3
    {
      hide Refreshed, Cleared;
      if !registered { return None; }
      var result := RefreshSession();
      if result.Threw? {
        HandleSessionExpired();
        return None;
      }
      token := result.token;
    }

    method TriggerSessionExpired()
      modifies this
      ensures Now() == Expired(old(Now()))
    {
      if registered { HandleSessionExpired(); }
    }

    method HandleSessionExpired()
      modifies this
      ensures Now() == Ended(old(Now()))
    {
      ClearSession();
    }

    method RefreshSession() returns (result: Refreshing)
      modifies this
      ensures (Now(), result) == Refreshed(old(Now()), around)
      decreases 2
    {
      hide NormalizeUser, UserJson, Admitted, Cleared, Applied, ErrorMessage;
      var stored := storedRefresh;
      if !Truthy(stored) {
        ClearSession();
        return Gave(None);
      }
      var answer := ApiFetch(REFRESH_PATH, TokenBody(stored.value), Options(None, true, false));
      var refreshed := if answer.Data? then ParseRefresh(answer.data) else None;
      if refreshed.None? { return Threw; }
      var nextRefresh := refreshed.value.refresh.GetOr(stored.value);
      var nextUser := Fallback(Now().page.local, refreshed.value);
      var profile := ApiFetch(ME_PATH, Null, Options(Some(refreshed.value.access), true, false));
      var me := if profile.Data? then ParseMe(profile.data) else None;
      if me.Some? {
        nextUser := me;
      } else if nextUser.None? {
        return Threw;
      }
      var denied := ApplySession(refreshed.value.access, nextRefresh, nextUser.value);
      if denied { return Threw; }
      result := Gave(Some(refreshed.value.access));
    }

    method LoadSession()
      modifies this
      ensures Now() == Loaded(old(Now()), around)
    {
      hide Refreshed;
      isLoading := true;
      if !Truthy(storedRefresh) {
        ClearSession();
        isLoading := false;
        return;
      }
      refreshToken := storedRefresh;
      var result := RefreshSession();
      if result.Threw? { ClearSession(); }
      isLoading := false;
    }

    method IntervalElapsed()
      modifies this
      ensures Now() == Ticked(old(Now()), around)
    {
      hide Refreshed, Cleared;
      var result := RefreshSession();
      if result.Threw? { HandleSessionExpired(); }
    }

    method Login(credentials: Json) returns (thrown: Option<nat>)
      modifies this
      ensures (Now(), thrown) == Entered(old(Now()), credentials, around)
    {
      hide Admitted, Applied, ErrorMessage;
      var outcome := ApiFetch(LOGIN_PATH, credentials, Options(None, true, false));
      var result := if outcome.Data? then ParseLogin(outcome.data) else None;
      if result.None? {
        return Some(if outcome.Refused? && outcome.status == FORBIDDEN then FORBIDDEN else UNAUTHORIZED);
      }
      var denied := ApplySession(result.value.access, result.value.refresh, result.value.user);
      thrown := if denied then Some(FORBIDDEN) else None;
    }

    method Logout(captured: Option<string>)
      modifies this
      ensures Now() == LoggedOut(old(Now()), captured, around)
    {
      hide Cleared, ErrorMessage;
      var stored := storedRefresh;
      ClearSession();
      if Truthy(stored) {
        var ignored := ApiFetch(LOGOUT_PATH, TokenBody(stored.value), Options(captured, true, false));
      }
    }

    method ChangePassword(captured: Option<string>, passwords: Json) returns (thrown: bool)
      modifies this
      ensures var (after, outcome) := Fetched(old(Now()), PASSWORD_PATH, passwords, PLAIN, around);
              (Now(), thrown) == Updated(after, captured, outcome, around)
    {
      hide Refreshed, Fetched, Admitted, Cleared, NormalizeUser, UserJson;
      var outcome := ApiFetch(PASSWORD_PATH, passwords, PLAIN);
      var updated := if outcome.Data? then ParseMe(outcome.data) else None;
      if updated.None? || !Admitted(updated.value) { return true; }
      if !Truthy(storedRefresh) {
        ClearSession();
        return false;
      }
      var token := captured;
      if captured.None? {
        var result := RefreshSession();
        if result.Threw? { return true; }
        token := result.token;
      }
      if Truthy(token) {
        storedUser := Some(UserJson(updated.value));
        user := updated;
      }
      thrown := false;
    }
  }
}
