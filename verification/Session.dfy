/**
 The session of `lib/auth/auth-context.tsx` as a state machine. Each piece of code between two `await`s is one step;
 what an operation keeps across an `await` is held by an entry of `ops`, and any number of operations overlap. There
 is one tab, `setState` takes effect at once, and the two handlers of the session store are registered.

 The server is part of the state only as far as refresh tokens go: `live` are those it accepts, `known` those that
 exist or have existed anywhere, `wire` those a client has sent to it. It may revoke a token of `wire` at any moment,
 which covers requests that are processed although the client has given up on them.
 */
module Session {
  import opened Wrappers
  import opened Json
  import opened Users

  // ---- one browser tab ----

  /** React state, the module-level access token and the two local storage entries. */
  datatype Local = Local(
    user: Option<User>,
    access: Option<string>,
    refresh: Option<string>,
    loading: bool,
    moduleToken: Option<string>,
    storedRefresh: Option<string>,
    storedUser: Option<Json>)

  /** `clearSession`. */
  function Cleared(l: Local): Local {
    l.(user := None, access := None, refresh := None, moduleToken := None, storedRefresh := None, storedUser := None)
  }

  /** `applySession`, after the access check has passed. */
  function Applied(l: Local, access: string, refresh: string, user: User): Local {
    l.(moduleToken := Some(access), access := Some(access), refresh := Some(refresh),
       storedRefresh := if refresh == "" then None else Some(refresh), storedUser := Some(UserJson(user)),
       user := Some(user))
  }

  /** `getStoredUser`. */
  function StoredUser(l: Local): Option<User> {
    if l.storedUser.Some? then NormalizeUser(l.storedUser.value) else None
  }

  // ---- operations in flight ----

  /** What a call made through `apiFetch` is for. */
  datatype Purpose = Plain | PasswordChange

  /** Who awaits `refreshSession`: loading, the interval, or a call that was refused, through the registered handler. */
  datatype Caller = ByLoad | ByInterval | ByCall(purpose: Purpose)

  /**
   Where an operation stands. `issued` is the refresh token the server has put in the answer under way, if any, and
   `bearer` the access token a call was sent with.
   */
  datatype Op =
    | RefreshSent(caller: Caller, token: string, issued: Option<string>)
    | ProfileSent(caller: Caller, token: string, access: string, next: string, fallback: Option<User>)
    | RefreshFailed(caller: Caller, token: string)
    | RefreshDone(caller: Caller, result: Option<string>)
    | LoginSent(issued: Option<string>)
    | LogoutSent
    | CallSent(purpose: Purpose, retried: bool, bearer: Option<string>)

  type Id = nat

  datatype World = World(
    local: Local,
    ops: map<Id, Op>,
    live: set<string>,
    known: set<string>,
    wire: set<string>)

  // ---- steps of the code ----

  /** `refreshSession` up to its first `await`. */
  function BeginRefresh(w: World, id: Id, caller: Caller): World {
    var stored := w.local.storedRefresh;
    if !Truthy(stored) then
      w.(local := Cleared(w.local),
         ops := if caller.ByCall? then w.ops[id := RefreshDone(caller, None)] else w.ops - {id})
    else
      w.(ops := w.ops[id := RefreshSent(caller, stored.value, None)], wire := w.wire + {stored.value})
  }

  /** `loadSession` up to its first `await`. */
  function BeginLoad(w: World, id: Id): World {
    if !Truthy(w.local.storedRefresh) then w.(local := Cleared(w.local).(loading := false))
    else BeginRefresh(w.(local := w.local.(loading := true, refresh := w.local.storedRefresh)), id, ByLoad)
  }

  /** The user a refresh falls back on when the profile cannot be had: the one in the answer, or the stored one. */
  function Fallback(l: Local, reply: RefreshReply): Option<User> {
    OrElse(if reply.user.Some? then NormalizeUser(UserJson(reply.user.value)) else None, StoredUser(l))
  }

  /** `/auth/refresh` has answered, or failed. */
  function OnRefreshReply(w: World, id: Id, reply: Option<RefreshReply>): World
    requires id in w.ops && w.ops[id].RefreshSent?
  {
    var op := w.ops[id];
    if reply.None? then w.(ops := w.ops[id := RefreshFailed(op.caller, op.token)])
    else
      w.(ops := w.ops[id := ProfileSent(op.caller, op.token, reply.value.access, reply.value.refresh.GetOr(op.token),
                                        Fallback(w.local, reply.value))])
  }

  /** `/auth/me` has answered, or failed. */
  function OnProfileReply(w: World, id: Id, me: Option<User>): World
    requires id in w.ops && w.ops[id].ProfileSent?
  {
    var op := w.ops[id];
    var user := OrElse(me, op.fallback);
    if user.None? || !Admitted(user.value) then w.(ops := w.ops[id := RefreshFailed(op.caller, op.token)])
    else
      w.(local := Applied(w.local, op.access, op.next, user.value),
         ops := w.ops[id := RefreshDone(op.caller, Some(op.access))])
  }

  /** The caller's `catch`: every one of them clears the session. */
  function OnFailure(w: World, id: Id): World
    requires id in w.ops && w.ops[id].RefreshFailed?
  {
    var cleared := Cleared(w.local);
    match w.ops[id].caller
    case ByLoad => w.(local := cleared.(loading := false), ops := w.ops - {id})
    case ByInterval => w.(local := cleared, ops := w.ops - {id})
    case ByCall(_) => w.(local := cleared, ops := w.ops[id := RefreshDone(w.ops[id].caller, None)])
  }

  /** The caller resumes after `refreshSession`; a refused call is sent again, or ends the session. */
  function OnDone(w: World, id: Id): World
    requires id in w.ops && w.ops[id].RefreshDone?
  {
    var op := w.ops[id];
    match op.caller
    case ByLoad => w.(local := w.local.(loading := false), ops := w.ops - {id})
    case ByInterval => w.(ops := w.ops - {id})
    case ByCall(purpose) =>
      if Truthy(op.result) then w.(ops := w.ops[id := CallSent(purpose, true, op.result)])
      else w.(local := Cleared(w.local), ops := w.ops - {id})
  }

  function OnLoginReply(w: World, id: Id, reply: Option<LoginReply>): World
    requires id in w.ops && w.ops[id].LoginSent?
  {
    var ended := w.(ops := w.ops - {id});
    if reply.None? || !Admitted(reply.value.user) then ended
    else ended.(local := Applied(w.local, reply.value.access, reply.value.refresh, reply.value.user))
  }

  /** `logout` up to its `await`. */
  function OnLogout(w: World, id: Id): World {
    var stored := w.local.storedRefresh;
    if !Truthy(stored) then w.(local := Cleared(w.local))
    else w.(local := Cleared(w.local), ops := w.ops[id := LogoutSent], wire := w.wire + {stored.value})
  }

  datatype CallReply = Unauthorized | Failed | Answered(body: Json)

  /** What the code awaiting a call does with the answer. Plain calls leave the session alone. */
  function AfterCall(l: Local, purpose: Purpose, body: Json): Local {
    var user := ParseMe(body);
    if purpose.Plain? || user.None? || !Admitted(user.value) then l
    else if !Truthy(l.storedRefresh) then Cleared(l)
    else l.(storedUser := Some(UserJson(user.value)), user := user)
  }

  function OnCallReply(w: World, id: Id, reply: CallReply): World
    requires id in w.ops && w.ops[id].CallSent?
  {
    var op := w.ops[id];
    match reply
    case Unauthorized =>
      if op.retried then w.(ops := w.ops - {id}) else BeginRefresh(w, id, ByCall(op.purpose))
    case Failed => w.(ops := w.ops - {id})
    case Answered(body) => w.(local := AfterCall(w.local, op.purpose, body), ops := w.ops - {id})
  }

  // ---- events ----

  /** A body of None stands for every failed request: no answer, an error status, an unreadable body. */
  datatype Event =
    | Load(id: Id)
    | Tick(id: Id)
    | StartLogin(id: Id)
    | StartCall(id: Id, purpose: Purpose)
    | Logout(id: Id)
    | RefreshAnswered(id: Id, body: Option<Json>)
    | ProfileAnswered(id: Id, body: Option<Json>)
    | FailureCaught(id: Id)
    | DoneResumed(id: Id)
    | LoginAnswered(id: Id, body: Option<Json>)
    | LogoutAnswered(id: Id)
    | CallAnswered(id: Id, reply: CallReply)
    | ServerRotates(id: Id, minted: string)
    | ServerLogsIn(id: Id, minted: string)
    | ServerRevokes(token: string)

  /** `user && accessToken`, what an authenticated view is shown for. */
  predicate IsAuthenticated(l: Local) {
    l.user.Some? && Truthy(l.access)
  }

  predicate Unseen(w: World, token: string) {
    token != "" && token !in w.known
  }

  predicate CanHappen(w: World, e: Event) {
    match e
    case Load(id) => id !in w.ops
    case Tick(id) => id !in w.ops
    case StartLogin(id) => id !in w.ops
    case StartCall(id, purpose) => id !in w.ops && (purpose.PasswordChange? ==> IsAuthenticated(w.local))
    case Logout(id) => id !in w.ops
    case RefreshAnswered(id, _) => id in w.ops && w.ops[id].RefreshSent?
    case ProfileAnswered(id, _) => id in w.ops && w.ops[id].ProfileSent?
    case FailureCaught(id) => id in w.ops && w.ops[id].RefreshFailed?
    case DoneResumed(id) => id in w.ops && w.ops[id].RefreshDone?
    case LoginAnswered(id, _) => id in w.ops && w.ops[id].LoginSent?
    case LogoutAnswered(id) => id in w.ops && w.ops[id].LogoutSent?
    case CallAnswered(id, _) => id in w.ops && w.ops[id].CallSent?
    case ServerRotates(id, minted) =>
      id in w.ops && w.ops[id].RefreshSent? && w.ops[id].issued.None? && w.ops[id].token in w.live && Unseen(w, minted)
    case ServerLogsIn(id, minted) => id in w.ops && w.ops[id].LoginSent? && w.ops[id].issued.None? && Unseen(w, minted)
    case ServerRevokes(token) => token in w.wire
  }

  function ParsedRefresh(body: Option<Json>): Option<RefreshReply> {
    if body.None? then None else ParseRefresh(body.value)
  }

  function ParsedLogin(body: Option<Json>): Option<LoginReply> {
    if body.None? then None else ParseLogin(body.value)
  }

  function ParsedProfile(body: Option<Json>): Option<User> {
    if body.None? then None else ParseMe(body.value)
  }

  /** The answers a server that rotates refresh tokens gives: a readable one names the token issued for the request. */
  predicate Rotating(w: World, e: Event) {
    match e
    case RefreshAnswered(id, body) =>
      id in w.ops && w.ops[id].RefreshSent? ==> NamesIssued(w.ops[id], ParsedRefresh(body))
    case LoginAnswered(id, body) => id in w.ops && w.ops[id].LoginSent? ==> NamesLogin(w.ops[id], ParsedLogin(body))
    case _ => true
  }

  predicate NamesIssued(op: Op, reply: Option<RefreshReply>)
    requires op.RefreshSent?
  {
    reply.Some? ==> op.issued.Some? && reply.value.refresh == op.issued
  }

  predicate NamesLogin(op: Op, reply: Option<LoginReply>)
    requires op.LoginSent?
  {
    reply.Some? ==> op.issued == Some(reply.value.refresh)
  }

  /** The single use of a refresh token: the old one dies as the new one is issued. */
  function Rotated(w: World, id: Id, minted: string): World
    requires id in w.ops && w.ops[id].RefreshSent?
  {
    w.(ops := w.ops[id := w.ops[id].(issued := Some(minted))], live := w.live - {w.ops[id].token} + {minted},
       known := w.known + {minted})
  }

  function LoggedIn(w: World, id: Id, minted: string): World
    requires id in w.ops && w.ops[id].LoginSent?
  {
    w.(ops := w.ops[id := LoginSent(Some(minted))], live := w.live + {minted}, known := w.known + {minted})
  }

  function Step(w: World, e: Event): World
    requires CanHappen(w, e)
  {
    match e
    case Load(id) => BeginLoad(w, id)
    case Tick(id) => BeginRefresh(w, id, ByInterval)
    case StartLogin(id) => w.(ops := w.ops[id := LoginSent(None)])
    case StartCall(id, purpose) => w.(ops := w.ops[id := CallSent(purpose, false, w.local.moduleToken)])
    case Logout(id) => OnLogout(w, id)
    case RefreshAnswered(id, body) => OnRefreshReply(w, id, ParsedRefresh(body))
    case ProfileAnswered(id, body) => OnProfileReply(w, id, ParsedProfile(body))
    case FailureCaught(id) => OnFailure(w, id)
    case DoneResumed(id) => OnDone(w, id)
    case LoginAnswered(id, body) => OnLoginReply(w, id, ParsedLogin(body))
    case LogoutAnswered(id) => w.(ops := w.ops - {id})
    case CallAnswered(id, reply) => OnCallReply(w, id, reply)
    case ServerRotates(id, minted) => Rotated(w, id, minted)
    case ServerLogsIn(id, minted) => LoggedIn(w, id, minted)
    case ServerRevokes(token) => w.(live := w.live - {token})
  }

  /** A page that has just mounted: nothing in memory, whatever was left in storage, and loading begun. */
  function Mounted(storedRefresh: Option<string>, storedUser: Option<Json>, live: set<string>, known: set<string>,
                   wire: set<string>): World {
    BeginLoad(World(Local(None, None, None, true, None, storedRefresh, storedUser), map[], live, known, wire), 0)
  }

  predicate IsRun(w: World, es: seq<Event>)
    decreases |es|
  {
    es == [] || (CanHappen(w, es[0]) && IsRun(Step(w, es[0]), es[1..]))
  }

  /** The world after a run. Every prefix of a run is a run, so what holds after runs holds throughout. */
  function After(w: World, es: seq<Event>): World
    requires IsRun(w, es)
    decreases |es|
  {
    if es == [] then w else After(Step(w, es[0]), es[1..])
  }

  /** A run against a rotating server. */
  predicate IsRotatingRun(w: World, es: seq<Event>)
    decreases |es|
  {
    es == [] || (CanHappen(w, es[0]) && Rotating(w, es[0]) && IsRotatingRun(Step(w, es[0]), es[1..]))
  }
}
