/**
 What goes over the wire. Every request the code sends is the one the machine's operation stands for at that point: a
 call bears the access token the operation carries, a refresh sends its refresh token, a profile request bears the
 access token the refresh has brought.
 */
module Wire {
  import opened Wrappers
  import opened Json
  import opened Users
  import opened Session
  import opened SessionLifecycle
  import opened AuthProvider
  import opened Refinement

  // ---- operations and requests ----

  /** The request an operation of the machine waits for the answer of; `path` and `body` are those of a call. */
  predicate StandsFor(op: Op, request: Request, path: string, body: Json) {
    match op
    case CallSent(_, _, bearer) =>
      && request.path == path && request.body == body
      && (bearer.Some? && bearer.value != "" ==> request.bearer == bearer)
      && (bearer.None? || bearer.value == "" ==> request.bearer == None)
    case RefreshSent(_, token, _) =>
      request == Request("/auth/refresh", None, Obj([Field("refresh_token", Str(token))]))
    case ProfileSent(_, _, access, _, _) => request == Request("/auth/me", Some(access), Null)
    case LoginSent(_) => request == Request("/auth/login", None, body)
    case LogoutSent => request.path == "/auth/logout" && request.body == body
    case _ => false
  }

  /** The operation as it waits, once for each request, from here to its end. */
  ghost function Waiting(w: World, id: Id, n: nat, c: Setting): seq<Op>
    requires Woven(w, id, n, c)
    decreases StepsLeft(w, id)
  {
    if id !in w.ops then []
    else
      SomethingLeft(w, id);
      (if Waits(w.ops[id]) then [w.ops[id]] else [])
      + Waiting(Next(w, id, n, c), id, Advanced(w.ops[id], n), c)
  }

  predicate StandForAll(ops: seq<Op>, requests: seq<Request>, path: string, body: Json) {
    |ops| == |requests| && forall i | 0 <= i < |ops| :: StandsFor(ops[i], requests[i], path, body)
  }

  /** From `s` on the code sends what the operation in `w` stands for until its end. */
  ghost predicate Sends(w: World, id: Id, s: State, t: State, path: string, body: Json, c: Setting)
    requires Woven(w, id, |s.sent|, c)
  {
    && |s.sent| <= |t.sent| && t.sent[..|s.sent|] == s.sent
    && StandForAll(Waiting(w, id, |s.sent|, c), t.sent[|s.sent|..], path, body)
  }

  lemma WaitingUnfolds(w: World, id: Id, n: nat, c: Setting)
    requires Woven(w, id, n, c) && id in w.ops
    ensures Woven(Next(w, id, n, c), id, Advanced(w.ops[id], n), c)
    ensures Waiting(w, id, n, c)
            == (if Waits(w.ops[id]) then [w.ops[id]] else [])
               + Waiting(Next(w, id, n, c), id, Advanced(w.ops[id], n), c)
  {
    hide Next;
    Unfolded(w, id, n, c);
  }

  /** One request, and then what follows it. */
  lemma SendsOne(w: World, id: Id, s: State, request: Request, t: State, path: string, body: Json, c: Setting)
    requires Woven(w, id, |s.sent|, c) && id in w.ops && Waits(w.ops[id])
    requires StandsFor(w.ops[id], request, path, body)
    requires Woven(Next(w, id, |s.sent|, c), id, |s.sent| + 1, c)
    requires Sends(Next(w, id, |s.sent|, c), id, Exchanged(s, request, c.around), t, path, body, c)
    ensures Sends(w, id, s, t, path, body, c)
  {
    hide Next, StandsFor, Woven, Waiting;
    WaitingUnfolds(w, id, |s.sent|, c);
    var after := Exchanged(s, request, c.around);
    assert t.sent[..|after.sent|] == s.sent + [request];
    assert t.sent[..|s.sent|] == t.sent[..|after.sent|][..|s.sent|];
    assert t.sent[|s.sent|] == t.sent[..|after.sent|][|s.sent|] == request;
    assert t.sent[|s.sent|..] == [request] + t.sent[|after.sent|..];
  }

  /** A step that waits for nothing. */
  lemma SendsNone(w: World, id: Id, s: State, t: State, path: string, body: Json, c: Setting)
    requires Woven(w, id, |s.sent|, c) && id in w.ops && !Waits(w.ops[id])
    requires Woven(Next(w, id, |s.sent|, c), id, |s.sent|, c)
    requires Sends(Next(w, id, |s.sent|, c), id, s, t, path, body, c)
    ensures Sends(w, id, s, t, path, body, c)
  {
    hide Next, StandsFor, Woven, Waiting;
    WaitingUnfolds(w, id, |s.sent|, c);
  }

  lemma SendsNothingMore(w: World, id: Id, s: State, path: string, body: Json, c: Setting)
    requires id !in w.ops && Woven(w, id, |s.sent|, c)
    ensures Sends(w, id, s, s, path, body, c)
  {
  }

  // ---- refreshes ----

  lemma RefreshSendsAsCarried(w: World, id: Id, s: State, t: State, path: string, body: Json, c: Setting)
    requires Same(s, w) && id in w.ops && w.ops[id].RefreshSent?
    requires s.page.local.storedRefresh == Some(w.ops[id].token) && w.ops[id].token != ""
    requires Woven(w, id, |s.sent|, c)
    requires var after := Refreshed(s, c.around).0;
             && Woven(AfterRefresh(w, id, |s.sent|, c), id, |after.sent|, c)
             && Sends(AfterRefresh(w, id, |s.sent|, c), id, after, t, path, body, c)
    ensures Sends(w, id, s, t, path, body, c)
  {
    hide Weaves, ParsedRefresh, ParsedProfile, ParsedLogin, Fallback, Admitted, Applied, Sends, Cleared, AfterCall,
      BeginRefresh;
    var token := w.ops[id].token;
    var v := Next(w, id, |s.sent|, c);
    var request := RefreshRequest(token);
    var answered := Exchanged(s, request, c.around);
    var reply := ParsedRefresh(BodyOf(AnswerNow(s, c.around)));
    if reply.Some? {
      assert reply.value.access != "" by { AccessIsGiven(BodyOf(AnswerNow(s, c.around))); }
      assert v.ops[id].ProfileSent? && v.ops[id].access == reply.value.access;
      assert StandsFor(v.ops[id], ProfileRequest(reply.value.access), path, body);
      Unfolded(v, id, |answered.sent|, c);
      var after := Exchanged(answered, ProfileRequest(reply.value.access), c.around);
      SameSent(Next(v, id, |answered.sent|, c), id, Refreshed(s, c.around).0, after, t, path, body, c);
      SendsOne(v, id, answered, ProfileRequest(reply.value.access), t, path, body, c);
    }
    SendsOne(w, id, s, request, t, path, body, c);
  }

  lemma AccessIsGiven(body: Option<Json>)
    ensures ParsedRefresh(body).Some? ==> ParsedRefresh(body).value.access != ""
  {
  }

  /** What is sent from a state on does not depend on its page. */
  lemma SameSent(w: World, id: Id, s: State, r: State, t: State, path: string, body: Json, c: Setting)
    requires s.sent == r.sent && Woven(w, id, |s.sent|, c) && Sends(w, id, s, t, path, body, c)
    ensures Sends(w, id, r, t, path, body, c)
  {
    hide Waiting, Woven;
  }

  // ---- calls ----

  /** A call that is not refused again sends its one request. */
  lemma AnsweredSends(w: World, id: Id, s: State, request: Request, path: string, body: Json, c: Setting)
    requires Same(s, w) && id in w.ops && w.ops[id].CallSent? && StandsFor(w.ops[id], request, path, body)
    requires !IsRefusal(AnswerNow(s, c.around)) || w.ops[id].retried
    requires Woven(w, id, |s.sent|, c)
    ensures Sends(w, id, s, Exchanged(s, request, c.around), path, body, c)
  {
    hide Weaves, AfterCall, Sends, StandsFor, Woven;
    Unfolded(w, id, |s.sent|, c);
    var v, after := Next(w, id, |s.sent|, c), Exchanged(s, request, c.around);
    assert id !in v.ops;
    SendsNothingMore(v, id, after, path, body, c);
    SendsOne(w, id, s, request, after, path, body, c);
  }

  /** A refused call, once its refresh has ended, is sent again with the token the refresh gave, or not at all. */
  lemma RenewedSends(w: World, id: Id, s: State, result: Refreshing, path: string, body: Json, c: Setting)
    requires Same(s, w) && id in w.ops && Woven(w, id, |s.sent|, c)
    requires w.ops[id].RefreshFailed? || w.ops[id].RefreshDone?
    requires w.ops[id].caller.ByCall?
    requires if result.Threw? then w.ops[id].RefreshFailed?
             else w.ops[id].RefreshDone? && w.ops[id].result == result.token
    ensures var t := if result.Gave? && Truthy(result.token)
                     then Exchanged(s, Request(path, result.token, body), c.around) else s;
            Sends(w, id, s, t, path, body, c)
  {
    hide Weaves, Woven, Sends, StandsFor, BeginRefresh, Applied, AfterCall, ParsedRefresh, ParsedProfile, ParsedLogin;
    Unfolded(w, id, |s.sent|, c);
    var v := Next(w, id, |s.sent|, c);
    if result.Threw? {
      Unfolded(v, id, |s.sent|, c);
      var u := Next(v, id, |s.sent|, c);
      SendsNothingMore(u, id, s, path, body, c);
      SendsNone(v, id, s, s, path, body, c);
      SendsNone(w, id, s, s, path, body, c);
    } else if Truthy(result.token) {
      var request := Request(path, result.token, body);
      RepeatedStandsFor(v.ops[id], request, path, body);
      AnsweredSends(v, id, s, request, path, body, c);
      SendsNone(w, id, s, Exchanged(s, request, c.around), path, body, c);
    } else {
      SendsNothingMore(v, id, s, path, body, c);
      SendsNone(w, id, s, s, path, body, c);
    }
  }

  lemma RepeatedStandsFor(op: Op, request: Request, path: string, body: Json)
    requires op.CallSent? && Truthy(op.bearer) && request == Request(path, op.bearer, body)
    ensures StandsFor(op, request, path, body)
  {
  }

  /** A call refused for the first time. */
  lemma RefusedSends(u: World, id: Id, purpose: Purpose, s: State, path: string, body: Json, c: Setting)
    requires Same(s, u)
    requires Woven(BeginRefresh(u, id, ByCall(purpose)), id, |s.sent|, c)
    ensures var (renewed, token) := Renewed(s, c.around);
            var t := if Truthy(token) then Exchanged(renewed, Request(path, token, body), c.around) else renewed;
            Sends(BeginRefresh(u, id, ByCall(purpose)), id, s, t, path, body, c)
  {
    hide Woven, Finished, Weaves, Completed, Sends, StandsFor;
    var v := BeginRefresh(u, id, ByCall(purpose));
    var (after, result) := Refreshed(s, c.around);
    var (renewed, token) := Renewed(s, c.around);
    if Truthy(u.local.storedRefresh) {
      hide Refreshed, AfterRefresh;
      var done := RefreshedFollows(v, id, s, c);
      RenewedSends(done, id, after, result, path, body, c);
      var t := if Truthy(token) then Exchanged(after, Request(path, token, body), c.around) else after;
      RefreshSendsAsCarried(v, id, s, t, path, body, c);
      var r := if Truthy(token) then Exchanged(renewed, Request(path, token, body), c.around) else renewed;
      SameTarget(v, id, s, t, r, path, body, c);
    } else {
      RenewedSends(v, id, after, result, path, body, c);
      SameSent(v, id, after, s, after, path, body, c);
      SameTarget(v, id, s, after, renewed, path, body, c);
    }
  }

  lemma SameTarget(w: World, id: Id, s: State, t: State, r: State, path: string, body: Json, c: Setting)
    requires t.sent == r.sent && Woven(w, id, |s.sent|, c) && Sends(w, id, s, t, path, body, c)
    ensures Sends(w, id, s, r, path, body, c)
  {
    hide Waiting, Woven;
  }

  /** The first request of a call bears the module's token, as the operation does. */
  lemma OpeningStandsFor(s: State, op: Op, path: string, body: Json)
    requires op.CallSent? && op.bearer == s.page.local.moduleToken
    ensures StandsFor(op, Opening(s, path, body, PLAIN), path, body)
  {
  }

  /** Every request of a call, of its refresh and of its repetition is the one the machine stands for. */
  lemma CallSendsAsCarried(w: World, id: Id, s: State, path: string, body: Json, c: Setting)
    requires Same(s, w) && id in w.ops && w.ops[id].CallSent? && !w.ops[id].retried
    requires w.ops[id].bearer == w.local.moduleToken && Woven(w, id, |s.sent|, c)
    ensures Sends(w, id, s, Fetched(s, path, body, PLAIN, c.around).0, path, body, c)
  {
    hide Woven, Next, Weaves, Renewed, BeginRefresh, AfterCall, Sends, StandsFor, Opening, ErrorMessage;
    var own := Opening(s, path, body, PLAIN);
    OpeningStandsFor(s, w.ops[id], path, body);
    if !IsRefusal(AnswerNow(s, c.around)) {
      AnsweredSends(w, id, s, own, path, body, c);
    } else {
      FirstRefusal(w, id, |s.sent|, c);
      Unfolded(w, id, |s.sent|, c);
      var u := Resumed(w, id, |s.sent|, c);
      var answered := Exchanged(s, own, c.around);
      RefusedSends(u, id, w.ops[id].purpose, answered, path, body, c);
      var (renewed, token) := Renewed(answered, c.around);
      var t := if Truthy(token) then Exchanged(renewed, Request(path, token, body), c.around) else renewed;
      SendsOne(w, id, s, own, t, path, body, c);
      SameTarget(w, id, s, t, Fetched(s, path, body, PLAIN, c.around).0, path, body, c);
    }
  }

  /** A call, plain or a password change, from the moment it is made. */
  lemma CallSends(w: World, id: Id, purpose: Purpose, s: State, path: string, body: Json, c: Setting)
    requires Same(s, w) && CanHappen(w, StartCall(id, purpose))
    requires Woven(Step(w, StartCall(id, purpose)), id, |s.sent|, c)
    ensures Sends(Step(w, StartCall(id, purpose)), id, s, Fetched(s, path, body, PLAIN, c.around).0, path, body, c)
  {
    hide Woven, Sends, Fetched;
    CallSendsAsCarried(Step(w, StartCall(id, purpose)), id, s, path, body, c);
  }

  // ---- the other operations ----

  lemma OwnRefreshSends(w: World, id: Id, s: State, path: string, body: Json, c: Setting)
    requires id in w.ops && (w.ops[id].RefreshFailed? || w.ops[id].RefreshDone?) && !w.ops[id].caller.ByCall?
    requires Woven(w, id, |s.sent|, c)
    ensures Sends(w, id, s, s, path, body, c)
  {
    hide Woven, Weaves, Sends;
    Unfolded(w, id, |s.sent|, c);
    assert id !in Next(w, id, |s.sent|, c).ops;
    SendsNothingMore(Next(w, id, |s.sent|, c), id, s, path, body, c);
    SendsNone(w, id, s, s, path, body, c);
  }

  lemma PageRefreshSends(w: World, id: Id, s: State, path: string, body: Json, c: Setting)
    requires Same(s, w) && id in w.ops && w.ops[id].RefreshSent? && !w.ops[id].caller.ByCall?
    requires s.page.local.storedRefresh == Some(w.ops[id].token) && w.ops[id].token != ""
    requires Woven(w, id, |s.sent|, c)
    ensures Sends(w, id, s, Refreshed(s, c.around).0, path, body, c)
  {
    hide Woven, Weaves, Sends, Refreshed, AfterRefresh;
    var done := RefreshedFollows(w, id, s, c);
    OwnRefreshSends(done, id, Refreshed(s, c.around).0, path, body, c);
    RefreshSendsAsCarried(w, id, s, Refreshed(s, c.around).0, path, body, c);
  }

  lemma LoadSends(w: World, id: Id, s: State, path: string, body: Json, c: Setting)
    requires Same(s, w) && id !in w.ops && Woven(Step(w, Load(id)), id, |s.sent|, c)
    ensures Sends(Step(w, Load(id)), id, s, Loaded(s, c.around), path, body, c)
  {
    hide Woven, Sends, Completed;
    var v, l := Step(w, Load(id)), w.local;
    if Truthy(l.storedRefresh) {
      hide Refreshed;
      var shown := WithLocal(s, l.(loading := true, refresh := l.storedRefresh));
      PageRefreshSends(v, id, shown, path, body, c);
      var after := Refreshed(shown, c.around).0;
      SameSent(v, id, shown, s, after, path, body, c);
      SameTarget(v, id, s, after, Loaded(s, c.around), path, body, c);
    } else {
      SendsNothingMore(v, id, s, path, body, c);
      SameTarget(v, id, s, s, Loaded(s, c.around), path, body, c);
    }
  }

  lemma TickSends(w: World, id: Id, s: State, path: string, body: Json, c: Setting)
    requires Same(s, w) && id !in w.ops && Woven(Step(w, Tick(id)), id, |s.sent|, c)
    ensures Sends(Step(w, Tick(id)), id, s, Ticked(s, c.around), path, body, c)
  {
    hide Woven, Sends, Completed;
    var v := Step(w, Tick(id));
    if Truthy(w.local.storedRefresh) {
      hide Refreshed;
      PageRefreshSends(v, id, s, path, body, c);
      SameTarget(v, id, s, Refreshed(s, c.around).0, Ticked(s, c.around), path, body, c);
    } else {
      SendsNothingMore(v, id, s, path, body, c);
      SameTarget(v, id, s, s, Ticked(s, c.around), path, body, c);
    }
  }

  lemma LoginSends(w: World, id: Id, s: State, path: string, credentials: Json, c: Setting)
    requires Same(s, w) && id !in w.ops && Woven(Step(w, StartLogin(id)), id, |s.sent|, c)
    ensures Sends(Step(w, StartLogin(id)), id, s, Entered(s, credentials, c.around).0, path, credentials, c)
  {
    hide Woven, Weaves, Sends, ParsedLogin, Admitted, Applied;
    var v, request := Step(w, StartLogin(id)), Request(LOGIN_PATH, None, credentials);
    Unfolded(v, id, |s.sent|, c);
    var after := Exchanged(s, request, c.around);
    SendsNothingMore(Next(v, id, |s.sent|, c), id, after, path, credentials, c);
    SendsOne(v, id, s, request, after, path, credentials, c);
    SameTarget(v, id, s, after, Entered(s, credentials, c.around).0, path, credentials, c);
  }

  lemma LogoutSends(w: World, id: Id, s: State, captured: Option<string>, path: string, c: Setting)
    requires Same(s, w) && id !in w.ops && Woven(Step(w, Logout(id)), id, |s.sent|, c)
    ensures var body := Obj([Field("refresh_token", Str(w.local.storedRefresh.GetOr("")))]);
            Sends(Step(w, Logout(id)), id, s, LoggedOut(s, captured, c.around), path, body, c)
  {
    hide Woven, Weaves, Sends;
    var v, body := Step(w, Logout(id)), TokenBody(w.local.storedRefresh.GetOr(""));
    if Truthy(w.local.storedRefresh) {
      var request := Request(LOGOUT_PATH, Bearer(captured), body);
      var out := Ended(s);
      Unfolded(v, id, |out.sent|, c);
      var after := Exchanged(out, request, c.around);
      SendsNothingMore(Next(v, id, |out.sent|, c), id, after, path, body, c);
      SendsOne(v, id, out, request, after, path, body, c);
      SameSent(v, id, out, s, after, path, body, c);
    } else {
      SendsNothingMore(v, id, s, path, body, c);
      SameTarget(v, id, s, s, LoggedOut(s, captured, c.around), path, body, c);
    }
  }
}
