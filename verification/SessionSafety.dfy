/** What every run of the session keeps, however its operations overlap. */
module SessionSafety {
  import opened Wrappers
  import opened Json
  import opened Users
  import opened Session

  // ---- the session is whole ----

  /** All parts present and in agreement; an empty refresh token is not kept in storage. */
  predicate SignedIn(l: Local) {
    && l.user.Some? && Admitted(l.user.value) && l.storedUser == Some(UserJson(l.user.value))
    && Truthy(l.access) && l.moduleToken == l.access
    && l.refresh.Some? && l.storedRefresh == NonEmpty(l.refresh.value)
  }

  /** No user and no access token anywhere; a refresh token may be left in storage. */
  predicate SignedOut(l: Local) {
    && l.user.None? && l.access.None? && l.moduleToken.None?
    && l.storedRefresh != Some("") && (l.refresh.Some? ==> l.refresh == l.storedRefresh)
  }

  predicate Whole(l: Local) {
    SignedIn(l) || SignedOut(l)
  }

  predicate ChangesPassword(op: Op) {
    match op
    case RefreshSent(c, _, _) => c == ByCall(PasswordChange)
    case ProfileSent(c, _, _, _, _) => c == ByCall(PasswordChange)
    case RefreshFailed(c, _) => c == ByCall(PasswordChange)
    case RefreshDone(c, _) => c == ByCall(PasswordChange)
    case CallSent(p, _, _) => p.PasswordChange?
    case _ => false
  }

  /** The values an operation carries across an `await` are usable. */
  predicate CarriesTokens(op: Op) {
    (op.RefreshSent? ==> op.token != "") && (op.ProfileSent? ==> op.access != "")
  }

  /**
   A password change is started by an authenticated view, so by the time it is answered a token in storage means a
   session in memory, although its closure may be stale.
   */
  predicate Sound(w: World) {
    && Whole(w.local)
    && (forall id | id in w.ops :: CarriesTokens(w.ops[id]))
    && (forall id | id in w.ops :: ChangesPassword(w.ops[id]) && w.local.storedRefresh.Some? ==> SignedIn(w.local))
  }

  lemma ParsedTokens(body: Option<Json>)
    ensures ParsedRefresh(body).Some? ==> ParsedRefresh(body).value.access != ""
    ensures ParsedLogin(body).Some? ==> ParsedLogin(body).value.access != "" && ParsedLogin(body).value.refresh != ""
  {
  }

  lemma BeginRefreshSound(w: World, id: Id, caller: Caller)
    requires Sound(w)
    requires caller == ByCall(PasswordChange) ==> id in w.ops && ChangesPassword(w.ops[id])
    ensures Sound(BeginRefresh(w, id, caller))
  {
    hide Admitted, UserJson;
  }

  lemma StartsSound(w: World, e: Event)
    requires CanHappen(w, e) && Sound(w)
    requires e.Load? || e.Tick? || e.StartLogin? || e.StartCall? || e.Logout?
    ensures Sound(Step(w, e))
  {
    hide Admitted, UserJson;
    match e
    case Load(id) =>
      if Truthy(w.local.storedRefresh) {
        BeginRefreshSound(w.(local := w.local.(loading := true, refresh := w.local.storedRefresh)), id, ByLoad);
      }
    case Tick(id) => BeginRefreshSound(w, id, ByInterval);
    case _ =>
  }

  lemma RefreshSound(w: World, e: Event)
    requires CanHappen(w, e) && Sound(w)
    requires e.RefreshAnswered? || e.ProfileAnswered? || e.FailureCaught? || e.DoneResumed?
    ensures Sound(Step(w, e))
  {
    hide Admitted, UserJson, NormalizeUser, ParsedRefresh, ParsedProfile;
    if e.RefreshAnswered? { ParsedTokens(e.body); }
  }

  lemma CallsSound(w: World, e: Event)
    requires CanHappen(w, e) && Sound(w)
    requires e.LoginAnswered? || e.LogoutAnswered? || e.CallAnswered?
    ensures Sound(Step(w, e))
  {
    hide Admitted, UserJson, ParsedLogin, ParseMe;
    if e.LoginAnswered? { ParsedTokens(e.body); }
    if e.CallAnswered? && e.reply.Unauthorized? && !w.ops[e.id].retried {
      BeginRefreshSound(w, e.id, ByCall(w.ops[e.id].purpose));
    }
  }

  lemma StepIsSound(w: World, e: Event)
    requires CanHappen(w, e) && Sound(w)
    ensures Sound(Step(w, e))
  {
    hide Sound;
    match e
    case Load(_) => StartsSound(w, e);
    case Tick(_) => StartsSound(w, e);
    case StartLogin(_) => StartsSound(w, e);
    case StartCall(_, _) => StartsSound(w, e);
    case Logout(_) => StartsSound(w, e);
    case RefreshAnswered(_, _) => RefreshSound(w, e);
    case ProfileAnswered(_, _) => RefreshSound(w, e);
    case FailureCaught(_) => RefreshSound(w, e);
    case DoneResumed(_) => RefreshSound(w, e);
    case LoginAnswered(_, _) => CallsSound(w, e);
    case LogoutAnswered(_) => CallsSound(w, e);
    case CallAnswered(_, _) => CallsSound(w, e);
    case ServerRotates(_, _) => ServerSound(w, e);
    case ServerLogsIn(_, _) => ServerSound(w, e);
    case ServerRevokes(_) => ServerSound(w, e);
  }

  lemma ServerSound(w: World, e: Event)
    requires CanHappen(w, e) && Sound(w)
    requires e.ServerRotates? || e.ServerLogsIn? || e.ServerRevokes?
    ensures Sound(Step(w, e))
  {
    hide Admitted, UserJson;
  }

  lemma MountedIsSound(storedRefresh: Option<string>, storedUser: Option<Json>, live: set<string>,
                       known: set<string>, wire: set<string>)
    ensures Sound(Mounted(storedRefresh, storedUser, live, known, wire))
  {
    hide Admitted, UserJson;
  }

  lemma {:induction false} RunIsSound(w: World, es: seq<Event>)
    requires Sound(w) && IsRun(w, es)
    ensures Sound(After(w, es))
    decreases |es|
  {
    hide Sound, Step, CanHappen;
    if es != [] {
      StepIsSound(w, es[0]);
      RunIsSound(Step(w, es[0]), es[1..]);
    }
  }

  /**
   From a freshly mounted page, every run keeps the parts of the session in agreement, whatever the server answers: the
   module's access token is React's, a user comes with an access token and an equal stored copy, and a refresh token in
   React is the stored one, except that an empty one is not stored.
   */
  lemma SessionAgrees(storedRefresh: Option<string>, storedUser: Option<Json>, live: set<string>, known: set<string>,
                      wire: set<string>, es: seq<Event>)
    requires IsRun(Mounted(storedRefresh, storedUser, live, known, wire), es)
    ensures var l := After(Mounted(storedRefresh, storedUser, live, known, wire), es).local;
            && l.moduleToken == l.access
            && (l.refresh.Some? ==> (l.refresh == l.storedRefresh <==> l.refresh.value != ""))
            && (l.user.Some? ==> Truthy(l.access) && l.storedUser == Some(UserJson(l.user.value)))
            && (l.user.Some? <==> l.access.Some?)
  {
    hide Admitted, UserJson, Step, CanHappen, IsRun;
    MountedIsSound(storedRefresh, storedUser, live, known, wire);
    RunIsSound(Mounted(storedRefresh, storedUser, live, known, wire), es);
  }

  /** Completing a refresh makes memory and storage differ exactly when the server has named an empty token. */
  lemma EmptyTokenSplits(w: World, id: Id, me: User)
    requires id in w.ops && w.ops[id].ProfileSent? && Admitted(me)
    ensures var l := OnProfileReply(w, id, Some(me)).local;
            && l.refresh == Some(w.ops[id].next)
            && (l.refresh == l.storedRefresh <==> w.ops[id].next != "")
  {
    hide Admitted, UserJson;
  }

  /** The server does not name an empty refresh token. */
  predicate NamesTokens(e: Event) {
    e.RefreshAnswered? && ParsedRefresh(e.body).Some? ==> ParsedRefresh(e.body).value.refresh != Some("")
  }

  /** No empty refresh token in memory, in storage or on its way to either. */
  predicate NoEmptyToken(w: World) {
    && w.local.refresh != Some("")
    && (forall id | id in w.ops ::
          (w.ops[id].RefreshSent? ==> w.ops[id].token != "") && (w.ops[id].ProfileSent? ==> w.ops[id].next != ""))
  }

  lemma StepNamesTokens(w: World, e: Event)
    requires CanHappen(w, e) && NoEmptyToken(w) && NamesTokens(e)
    ensures NoEmptyToken(Step(w, e))
  {
    hide Admitted, UserJson, NormalizeUser, ParsedRefresh, ParsedProfile, ParsedLogin, ParseMe;
    if e.LoginAnswered? { ParsedTokens(e.body); }
  }

  lemma {:induction false} RunNamesTokens(w: World, es: seq<Event>)
    requires NoEmptyToken(w) && IsRun(w, es) && forall i | 0 <= i < |es| :: NamesTokens(es[i])
    ensures NoEmptyToken(After(w, es))
    decreases |es|
  {
    hide NoEmptyToken, NamesTokens, Step, CanHappen;
    if es != [] {
      StepNamesTokens(w, es[0]);
      assert forall i | 0 <= i < |es[1..]| :: es[1..][i] == es[i + 1];
      RunNamesTokens(Step(w, es[0]), es[1..]);
    }
  }

  /** So with a server that names no empty token a refresh token in React is always the stored one. */
  lemma NamedTokensAgree(storedRefresh: Option<string>, storedUser: Option<Json>, live: set<string>,
                         known: set<string>, wire: set<string>, es: seq<Event>)
    requires IsRun(Mounted(storedRefresh, storedUser, live, known, wire), es)
    requires forall i | 0 <= i < |es| :: NamesTokens(es[i])
    ensures var l := After(Mounted(storedRefresh, storedUser, live, known, wire), es).local;
            l.refresh.Some? ==> l.refresh == l.storedRefresh
  {
    var w := Mounted(storedRefresh, storedUser, live, known, wire);
    assert NoEmptyToken(w);
    hide Admitted, UserJson, Step, CanHappen, IsRun, After, Mounted, NamesTokens;
    SessionAgrees(storedRefresh, storedUser, live, known, wire, es);
    RunNamesTokens(w, es);
  }

  // ---- loading ends ----

  predicate IsLoading(op: Op) {
    match op
    case RefreshSent(caller, _, _) => caller.ByLoad?
    case ProfileSent(caller, _, _, _, _) => caller.ByLoad?
    case RefreshFailed(caller, _) => caller.ByLoad?
    case RefreshDone(caller, _) => caller.ByLoad?
    case _ => false
  }

  /** The loading flag is up only while a load is under way to take it down. */
  predicate LoadingIsWatched(w: World) {
    w.local.loading ==> exists id | id in w.ops :: IsLoading(w.ops[id])
  }

  lemma StepWatchesLoading(w: World, e: Event)
    requires CanHappen(w, e) && LoadingIsWatched(w)
    ensures LoadingIsWatched(Step(w, e))
  {
    hide Admitted, UserJson, NormalizeUser, ParsedRefresh, ParsedProfile, ParsedLogin, ParseMe, Fallback;
    var next := Step(w, e);
    if next.local.loading {
      if e.Load? {
        assert IsLoading(next.ops[e.id]);
      } else {
        var id :| id in w.ops && IsLoading(w.ops[id]);
        assert id in next.ops && IsLoading(next.ops[id]);
      }
    }
  }

  /** In every run the loading flag is up only while some load is under way, whose end takes it down. */
  lemma {:induction false} RunWatchesLoading(w: World, es: seq<Event>)
    requires LoadingIsWatched(w) && IsRun(w, es)
    ensures LoadingIsWatched(After(w, es))
    decreases |es|
  {
    hide LoadingIsWatched, Step, CanHappen;
    if es != [] {
      StepWatchesLoading(w, es[0]);
      RunWatchesLoading(Step(w, es[0]), es[1..]);
    }
  }

  lemma LoadingEnds(storedRefresh: Option<string>, storedUser: Option<Json>, live: set<string>, known: set<string>,
                    wire: set<string>, es: seq<Event>)
    requires IsRun(Mounted(storedRefresh, storedUser, live, known, wire), es)
    ensures var w := After(Mounted(storedRefresh, storedUser, live, known, wire), es);
            && LoadingIsWatched(w)
            && (forall id | id in w.ops && IsLoading(w.ops[id]) && w.ops[id].RefreshFailed? ::
                  !Step(w, FailureCaught(id)).local.loading)
            && (forall id | id in w.ops && IsLoading(w.ops[id]) && w.ops[id].RefreshDone? ::
                  !Step(w, DoneResumed(id)).local.loading)
  {
    var w := Mounted(storedRefresh, storedUser, live, known, wire);
    assert LoadingIsWatched(w) by {
      if w.local.loading { assert IsLoading(w.ops[0]); }
    }
    RunWatchesLoading(w, es);
  }

  // ---- only admitted users ----

  predicate OnlyAdmitted(l: Local) {
    l.user.Some? ==> Admitted(l.user.value)
  }

  lemma StepAdmits(w: World, e: Event)
    requires CanHappen(w, e) && OnlyAdmitted(w.local)
    ensures OnlyAdmitted(Step(w, e).local)
  {
    hide Admitted, UserJson, NormalizeUser, ParsedRefresh, ParsedProfile, ParsedLogin, ParseMe;
  }

  lemma {:induction false} RunAdmits(w: World, es: seq<Event>)
    requires OnlyAdmitted(w.local) && IsRun(w, es)
    ensures OnlyAdmitted(After(w, es).local)
    decreases |es|
  {
    hide OnlyAdmitted, Step, CanHappen;
    if es != [] {
      StepAdmits(w, es[0]);
      RunAdmits(Step(w, es[0]), es[1..]);
    }
  }

  /**
   Whatever the server answers and whatever was stored, the user in state is active and has a dashboard role.
   */
  lemma UserIsAlwaysAdmitted(storedRefresh: Option<string>, storedUser: Option<Json>, live: set<string>,
                             known: set<string>, wire: set<string>, es: seq<Event>)
    requires IsRun(Mounted(storedRefresh, storedUser, live, known, wire), es)
    ensures var user := After(Mounted(storedRefresh, storedUser, live, known, wire), es).local.user;
            user.Some? ==> user.value.status == Active && user.value.role != Parent
  {
    hide Admitted, Step, CanHappen, IsRun, After;
    var w := Mounted(storedRefresh, storedUser, live, known, wire);
    assert w.local.user.None?;
    RunAdmits(w, es);
    if After(w, es).local.user.Some? { AdmittedExactly(After(w, es).local.user.value); }
  }

  /** A login changes the session exactly when its answer is readable and its user admitted, and then as a whole. */
  lemma LoginAllOrNothing(w: World, id: Id, body: Option<Json>)
    requires CanHappen(w, LoginAnswered(id, body))
    ensures var reply, l := ParsedLogin(body), Step(w, LoginAnswered(id, body)).local;
            l == if reply.Some? && Admitted(reply.value.user)
                 then Applied(w.local, reply.value.access, reply.value.refresh, reply.value.user) else w.local
    ensures var reply, l := ParsedLogin(body), Step(w, LoginAnswered(id, body)).local;
            reply.Some? && Admitted(reply.value.user) ==>
              SignedIn(l) && Truthy(l.refresh) && l.storedRefresh == l.refresh
  {
    hide Admitted, UserJson, ParsedLogin;
    ParsedTokens(body);
  }

  // ---- the stored refresh token ----

  function OwnedToken(op: Op): Option<string> {
    match op
    case RefreshSent(_, _, issued) => issued
    case ProfileSent(_, _, _, next, _) => Some(next)
    case LoginSent(issued) => issued
    case _ => None
  }

  /** The token a refresh started from, kept until its caller has dealt with the outcome. */
  function HeldToken(op: Op): Option<string> {
    match op
    case RefreshSent(_, token, _) => Some(token)
    case ProfileSent(_, token, _, _, _) => Some(token)
    case RefreshFailed(_, token) => Some(token)
    case _ => None
  }

  predicate IsHeld(w: World, token: string) {
    exists id | id in w.ops :: HeldToken(w.ops[id]) == Some(token)
  }

  /** Issued and on its way to this page only: accepted by the server, never sent to it, not yet stored. */
  predicate Unspent(w: World, token: string) {
    token != "" && token in w.live && token !in w.wire && token in w.known && w.local.storedRefresh != Some(token)
  }

  predicate TokensAreKnown(w: World) {
    && w.live <= w.known && w.wire <= w.known
    && (forall id | id in w.ops && HeldToken(w.ops[id]).Some? :: HeldToken(w.ops[id]).value in w.wire)
  }

  predicate OwnedAreUnspent(w: World) {
    && (forall id | id in w.ops && OwnedToken(w.ops[id]).Some? :: Unspent(w, OwnedToken(w.ops[id]).value))
    && (forall i, j | i in w.ops && j in w.ops && i != j && OwnedToken(w.ops[i]).Some? ::
          OwnedToken(w.ops[i]) != OwnedToken(w.ops[j]))
  }

  /** The token in storage: none, or live and never sent, or held by a refresh under way. */
  predicate StoredIsGood(w: World) {
    var stored := w.local.storedRefresh;
    stored.Some? ==>
      && stored.value != "" && stored.value in w.known
      && ((stored.value in w.live && stored.value !in w.wire) || IsHeld(w, stored.value))
  }

  predicate TokensInOrder(w: World) {
    TokensAreKnown(w) && OwnedAreUnspent(w) && StoredIsGood(w)
  }

  /** A hold survives a change of another operation, and of the holding one as long as it keeps the token. */
  lemma StillHeld(w: World, next: World, id: Id, token: string)
    requires IsHeld(w, token)
    requires forall i | i in w.ops && i != id :: i in next.ops && next.ops[i] == w.ops[i]
    requires id in w.ops && HeldToken(w.ops[id]) == Some(token) ==>
               id in next.ops && HeldToken(next.ops[id]) == Some(token)
    ensures IsHeld(next, token)
  {
    var i :| i in w.ops && HeldToken(w.ops[i]) == Some(token);
    assert i in next.ops && HeldToken(next.ops[i]) == Some(token);
  }

  /** Steps that leave the stored token alone and do not let go of it. */
  lemma StoredStaysGood(w: World, next: World, id: Id)
    requires StoredIsGood(w) && next.local.storedRefresh == w.local.storedRefresh
    requires w.known <= next.known && next.wire == w.wire
    requires forall t | t in w.live && t !in w.wire :: t in next.live
    requires forall i | i in w.ops && i != id :: i in next.ops && next.ops[i] == w.ops[i]
    requires id in w.ops && HeldToken(w.ops[id]).Some? ==>
               id in next.ops && HeldToken(next.ops[id]) == HeldToken(w.ops[id])
    ensures StoredIsGood(next)
  {
    var stored := w.local.storedRefresh;
    if stored.Some? && IsHeld(w, stored.value) {
      StillHeld(w, next, id, stored.value);
    }
  }

  lemma BeginRefreshInOrder(w: World, id: Id, caller: Caller)
    requires TokensInOrder(w) && (id in w.ops ==> OwnedToken(w.ops[id]).None? && HeldToken(w.ops[id]).None?)
    ensures TokensInOrder(BeginRefresh(w, id, caller))
  {
    if Truthy(w.local.storedRefresh) {
      assert HeldToken(BeginRefresh(w, id, caller).ops[id]) == w.local.storedRefresh;
    }
  }

  lemma LoadInOrder(w: World, id: Id)
    requires TokensInOrder(w) && id !in w.ops
    ensures TokensInOrder(BeginLoad(w, id))
  {
    if Truthy(w.local.storedRefresh) {
      var shown := w.(local := w.local.(loading := true, refresh := w.local.storedRefresh));
      StoredStaysGood(w, shown, id);
      BeginRefreshInOrder(shown, id, ByLoad);
    }
  }

  /** A new operation that neither holds nor owns a token. */
  lemma StartInOrder(w: World, id: Id, op: Op)
    requires TokensInOrder(w) && id !in w.ops && OwnedToken(op).None? && HeldToken(op).None?
    ensures TokensInOrder(w.(ops := w.ops[id := op]))
  {
    hide IsHeld;
    StoredStaysGood(w, w.(ops := w.ops[id := op]), id);
  }

  /** An operation that holds no token ends, the stored token staying as it is. */
  lemma EndInOrder(w: World, id: Id)
    requires TokensInOrder(w) && id in w.ops && HeldToken(w.ops[id]).None?
    ensures TokensInOrder(w.(ops := w.ops - {id}))
  {
    hide IsHeld;
    StoredStaysGood(w, w.(ops := w.ops - {id}), id);
  }

  /** Clearing the session, whatever becomes of an operation that then holds and owns nothing. */
  lemma ClearInOrder(w: World, next: World, id: Id)
    requires TokensInOrder(w) && next.local.storedRefresh.None?
    requires next.live == w.live && next.known == w.known && w.wire <= next.wire <= w.known
    requires forall t | t in next.wire && t !in w.wire :: w.local.storedRefresh == Some(t)
    requires next.ops.Keys <= w.ops.Keys + {id}
    requires forall i | i in next.ops && i != id :: i in w.ops && next.ops[i] == w.ops[i]
    requires id in next.ops ==> OwnedToken(next.ops[id]).None? && HeldToken(next.ops[id]).None?
    ensures TokensInOrder(next)
  {
    hide IsHeld;
  }

  lemma RefreshReplyInOrder(w: World, id: Id, reply: Option<RefreshReply>)
    requires TokensInOrder(w) && id in w.ops && w.ops[id].RefreshSent? && NamesIssued(w.ops[id], reply)
    ensures TokensInOrder(OnRefreshReply(w, id, reply))
  {
    hide NormalizeUser, UserJson, StoredUser, IsHeld;
    StoredStaysGood(w, OnRefreshReply(w, id, reply), id);
  }

  /** A token that was on its way takes the place of the stored one. */
  lemma ApplyInOrder(w: World, next: World, id: Id, token: string)
    requires TokensInOrder(w) && id in w.ops && OwnedToken(w.ops[id]) == Some(token)
    requires next.local.storedRefresh == Some(token)
    requires next.live == w.live && next.known == w.known && next.wire == w.wire
    requires forall i | i in next.ops && i != id :: i in w.ops && next.ops[i] == w.ops[i]
    requires id in next.ops ==> OwnedToken(next.ops[id]).None? && HeldToken(next.ops[id]).None?
    ensures TokensInOrder(next)
  {
    hide IsHeld;
    assert Unspent(w, token);
  }

  lemma ProfileReplyInOrder(w: World, id: Id, me: Option<User>)
    requires TokensInOrder(w) && id in w.ops && w.ops[id].ProfileSent?
    ensures TokensInOrder(OnProfileReply(w, id, me))
  {
    hide TokensInOrder, UserJson, Admitted;
    var user := OrElse(me, w.ops[id].fallback);
    if user.None? || !Admitted(user.value) {
      GivenUpInOrder(w, id);
    } else {
      OwnedIsNotEmpty(w, id);
      ApplyInOrder(w, OnProfileReply(w, id, me), id, w.ops[id].next);
    }
  }

  lemma OwnedIsNotEmpty(w: World, id: Id)
    requires TokensInOrder(w) && id in w.ops && OwnedToken(w.ops[id]).Some?
    ensures OwnedToken(w.ops[id]).value != "" && w.local.storedRefresh != OwnedToken(w.ops[id])
  {
    hide IsHeld;
    assert Unspent(w, OwnedToken(w.ops[id]).value);
  }

  /** A refresh fails: it keeps its hold and drops the token it was bringing. */
  lemma GivenUpInOrder(w: World, id: Id)
    requires TokensInOrder(w) && id in w.ops && w.ops[id].ProfileSent?
    ensures TokensInOrder(w.(ops := w.ops[id := RefreshFailed(w.ops[id].caller, w.ops[id].token)]))
  {
    hide IsHeld;
    StoredStaysGood(w, w.(ops := w.ops[id := RefreshFailed(w.ops[id].caller, w.ops[id].token)]), id);
  }

  lemma FailureInOrder(w: World, id: Id)
    requires TokensInOrder(w) && id in w.ops && w.ops[id].RefreshFailed?
    ensures TokensInOrder(OnFailure(w, id))
  {
    WireIsKnown(w);
    hide TokensInOrder;
    ClearInOrder(w, OnFailure(w, id), id);
  }

  lemma WireIsKnown(w: World)
    requires TokensInOrder(w)
    ensures w.wire <= w.known && (w.local.storedRefresh.Some? ==> w.local.storedRefresh.value in w.known)
  {
    hide IsHeld;
  }

  lemma DoneInOrder(w: World, id: Id)
    requires TokensInOrder(w) && id in w.ops && w.ops[id].RefreshDone?
    ensures TokensInOrder(OnDone(w, id))
  {
    WireIsKnown(w);
    if w.ops[id].caller.ByCall? && !Truthy(w.ops[id].result) {
      hide TokensInOrder;
      ClearInOrder(w, OnDone(w, id), id);
    } else {
      hide IsHeld;
      StoredStaysGood(w, OnDone(w, id), id);
    }
  }

  lemma LogoutInOrder(w: World, id: Id)
    requires TokensInOrder(w) && id !in w.ops
    ensures TokensInOrder(OnLogout(w, id))
  {
    WireIsKnown(w);
    hide TokensInOrder;
    ClearInOrder(w, OnLogout(w, id), id);
  }

  lemma LoginReplyInOrder(w: World, id: Id, reply: Option<LoginReply>)
    requires TokensInOrder(w) && id in w.ops && w.ops[id].LoginSent? && NamesLogin(w.ops[id], reply)
    ensures TokensInOrder(OnLoginReply(w, id, reply))
  {
    hide TokensInOrder, UserJson, Admitted;
    if reply.None? || !Admitted(reply.value.user) {
      EndInOrder(w, id);
    } else {
      OwnedIsNotEmpty(w, id);
      ApplyInOrder(w, OnLoginReply(w, id, reply), id, reply.value.refresh);
    }
  }

  lemma CallReplyInOrder(w: World, id: Id, reply: CallReply)
    requires TokensInOrder(w) && id in w.ops && w.ops[id].CallSent?
    ensures TokensInOrder(OnCallReply(w, id, reply))
  {
    WireIsKnown(w);
    hide TokensInOrder, ParseMe, UserJson, Admitted;
    var next := OnCallReply(w, id, reply);
    if reply.Unauthorized? && !w.ops[id].retried {
      BeginRefreshInOrder(w, id, ByCall(w.ops[id].purpose));
    } else if next.local.storedRefresh == w.local.storedRefresh {
      EndInOrder(w, id);
      SameTokensInOrder(w.(ops := w.ops - {id}), next);
    } else {
      ClearInOrder(w, next, id);
    }
  }

  /** Order does not depend on the user, the access token or the loading flag. */
  lemma SameTokensInOrder(w: World, next: World)
    requires TokensInOrder(w) && next == w.(local := next.local)
    requires next.local.storedRefresh == w.local.storedRefresh
    ensures TokensInOrder(next)
  {
    hide IsHeld;
    StoredStaysGood(w, next, 0);
  }

  lemma RotationInOrder(w: World, id: Id, minted: string)
    requires TokensInOrder(w) && id in w.ops && w.ops[id].RefreshSent? && Unseen(w, minted)
    ensures TokensInOrder(Rotated(w, id, minted))
  {
    hide IsHeld;
    assert HeldToken(w.ops[id]).value in w.wire;
    StoredStaysGood(w, Rotated(w, id, minted), id);
  }

  /** A refresh token is good for one exchange: it is then dead, and no other refresh that carries it gets another. */
  lemma SingleUse(w: World, id: Id, minted: string, j: Id, other: string)
    requires CanHappen(w, ServerRotates(id, minted)) && TokensAreKnown(w)
    ensures var token, next := w.ops[id].token, Step(w, ServerRotates(id, minted));
            && token in w.live && token !in next.live && minted in next.live && minted !in w.live
            && next.ops[id].issued == Some(minted) && next.local == w.local
            && (j in w.ops && w.ops[j].RefreshSent? && w.ops[j].token == token ==>
                  !CanHappen(next, ServerRotates(j, other)))
  {
    assert minted != w.ops[id].token;
  }

  lemma ServerLoginInOrder(w: World, id: Id, minted: string)
    requires TokensInOrder(w) && id in w.ops && w.ops[id].LoginSent? && Unseen(w, minted)
    ensures TokensInOrder(LoggedIn(w, id, minted))
  {
    hide IsHeld;
    StoredStaysGood(w, LoggedIn(w, id, minted), id);
  }

  lemma RevocationInOrder(w: World, token: string)
    requires TokensInOrder(w) && token in w.wire
    ensures TokensInOrder(w.(live := w.live - {token}))
  {
    hide IsHeld;
    StoredStaysGood(w, w.(live := w.live - {token}), 0);
  }

  /** One step, of the page or of the server, keeps the tokens in order. */
  lemma StepInOrder(w: World, e: Event)
    requires CanHappen(w, e) && Rotating(w, e) && TokensInOrder(w)
    ensures TokensInOrder(Step(w, e))
  {
    hide TokensInOrder, ParsedRefresh, ParsedLogin, ParsedProfile;
    match e
    case Load(id) => LoadInOrder(w, id);
    case Tick(id) => BeginRefreshInOrder(w, id, ByInterval);
    case StartLogin(id) => StartInOrder(w, id, LoginSent(None));
    case StartCall(id, purpose) => StartInOrder(w, id, CallSent(purpose, false, w.local.moduleToken));
    case Logout(id) => LogoutInOrder(w, id);
    case RefreshAnswered(id, body) => RefreshReplyInOrder(w, id, ParsedRefresh(body));
    case ProfileAnswered(id, body) => ProfileReplyInOrder(w, id, ParsedProfile(body));
    case FailureCaught(id) => FailureInOrder(w, id);
    case DoneResumed(id) => DoneInOrder(w, id);
    case LoginAnswered(id, body) => LoginReplyInOrder(w, id, ParsedLogin(body));
    case LogoutAnswered(id) => EndInOrder(w, id);
    case CallAnswered(id, reply) => CallReplyInOrder(w, id, reply);
    case ServerRotates(id, minted) => RotationInOrder(w, id, minted);
    case ServerLogsIn(id, minted) => ServerLoginInOrder(w, id, minted);
    case ServerRevokes(token) => RevocationInOrder(w, token);
  }

  lemma {:induction false} RunInOrder(w: World, es: seq<Event>)
    requires TokensInOrder(w) && IsRun(w, es) && IsRotatingRun(w, es)
    ensures TokensInOrder(After(w, es))
    decreases |es|
  {
    hide TokensInOrder, Rotating, Step, CanHappen;
    if es != [] {
      StepInOrder(w, es[0]);
      RunInOrder(Step(w, es[0]), es[1..]);
    }
  }

  lemma MountedInOrder(storedRefresh: Option<string>, storedUser: Option<Json>, live: set<string>,
                       known: set<string>, wire: set<string>)
    requires live <= known && wire <= known && (storedRefresh.Some? ==> storedRefresh.value in known)
    ensures TokensInOrder(Mounted(storedRefresh, storedUser, live, known, wire))
  {
    var w := Mounted(storedRefresh, storedUser, live, known, wire);
    if Truthy(storedRefresh) { assert HeldToken(w.ops[0]) == storedRefresh; }
  }

  /**
   Against a rotating server every run, with any overlap of refreshes, logins, logouts and calls and any answers lost
   or refused, keeps a stored refresh token that is none, or live, or held by a refresh under way. With no refresh
   under way it is none or live. Whatever the page found in storage when it mounted, dead tokens included.
   */
  lemma StoredTokenIsGood(storedRefresh: Option<string>, storedUser: Option<Json>, live: set<string>,
                          known: set<string>, wire: set<string>, es: seq<Event>)
    requires live <= known && wire <= known && (storedRefresh.Some? ==> storedRefresh.value in known)
    requires var w := Mounted(storedRefresh, storedUser, live, known, wire); IsRun(w, es) && IsRotatingRun(w, es)
    ensures var w := After(Mounted(storedRefresh, storedUser, live, known, wire), es);
            && StoredIsGood(w)
            && ((forall id | id in w.ops :: HeldToken(w.ops[id]).None?) ==>
                  w.local.storedRefresh.None? || w.local.storedRefresh.value in w.live)
  {
    hide Step, CanHappen, IsRotatingRun, IsRun;
    MountedInOrder(storedRefresh, storedUser, live, known, wire);
    RunInOrder(Mounted(storedRefresh, storedUser, live, known, wire), es);
  }

  /** An operation other than `id` holds the token. */
  predicate HeldElsewhere(w: World, id: Id, token: string) {
    exists j | j in w.ops && j != id :: HeldToken(w.ops[j]) == Some(token)
  }

  /**
   Rotation is needed: when an answer names no new token the page goes on with the old one. That one is live exactly if
   the server has not retired it, and as it has been sent, what is then stored is good exactly if another refresh still
   holds it.
   */
  lemma OmittedTokenStrands(w: World, id: Id, reply: RefreshReply, me: User)
    requires id in w.ops && w.ops[id].RefreshSent? && w.ops[id].token != ""
    requires reply.refresh.None? && Admitted(me)
    ensures var token, done := w.ops[id].token, OnProfileReply(OnRefreshReply(w, id, Some(reply)), id, Some(me));
            && done.local.storedRefresh == Some(token)
            && (token in done.live <==> token in w.live)
            && (StoredIsGood(done) <==>
                  && token in w.known
                  && ((token in w.live && token !in w.wire) || HeldElsewhere(w, id, token)))
            && (token in w.known && token in w.wire ==> (StoredIsGood(done) <==> HeldElsewhere(w, id, token)))
  {
    hide Admitted, UserJson, Fallback;
    var token := w.ops[id].token;
    assert HeldToken(w.ops[id]) == Some(token);
    var done := OnProfileReply(OnRefreshReply(w, id, Some(reply)), id, Some(me));
    assert HeldToken(done.ops[id]).None?;
    assert forall j | j != id :: j in done.ops <==> j in w.ops;
    assert forall j | j in w.ops && j != id :: done.ops[j] == w.ops[j];
    if HeldElsewhere(w, id, token) {
      var j :| j in w.ops && j != id && HeldToken(w.ops[j]) == Some(token);
      assert j in done.ops && HeldToken(done.ops[j]) == Some(token);
    }
  }
}
