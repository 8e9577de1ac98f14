/**
 The session code refines the session machine. What an operation of `AuthProvider` does, with any run of other
 operations taking place while it waits for an answer, is a run of `Session`, so whatever every run of the machine
 keeps is kept by the code.
 */
module Refinement {
  import opened Wrappers
  import opened Json
  import opened Users
  import opened Session
  import opened SessionLifecycle
  import opened SessionSafety
  import opened AuthProvider

  // ---- runs ----

  /** A condition on steps, such as what the server may answer. */
  type Allowed = (World, Event) -> bool

  predicate Obeys(w: World, es: seq<Event>, allowed: Allowed)
    requires IsRun(w, es)
    decreases |es|
  {
    es != [] ==> allowed(w, es[0]) && Obeys(Step(w, es[0]), es[1..], allowed)
  }

  ghost predicate Reaches(w: World, v: World, allowed: Allowed) {
    exists es :: IsRun(w, es) && Obeys(w, es, allowed) && After(w, es) == v
  }

  lemma {:induction false} RunsConcatenate(w: World, a: seq<Event>, b: seq<Event>, allowed: Allowed)
    requires IsRun(w, a) && IsRun(After(w, a), b) && Obeys(w, a, allowed) && Obeys(After(w, a), b, allowed)
    ensures IsRun(w, a + b) && Obeys(w, a + b, allowed) && After(w, a + b) == After(After(w, a), b)
    decreases |a|
  {
    hide CanHappen, Step;
    if a == [] {
      assert a + b == b;
    } else {
      RunsConcatenate(Step(w, a[0]), a[1..], b, allowed);
      assert (a + b)[0] == a[0] && (a + b)[1..] == a[1..] + b;
    }
  }

  lemma ReachesTransitively(w: World, v: World, u: World, allowed: Allowed)
    requires Reaches(w, v, allowed) && Reaches(v, u, allowed)
    ensures Reaches(w, u, allowed)
  {
    hide IsRun, After, Obeys;
    var a :| IsRun(w, a) && Obeys(w, a, allowed) && After(w, a) == v;
    var b :| IsRun(v, b) && Obeys(v, b, allowed) && After(v, b) == u;
    RunsConcatenate(w, a, b, allowed);
  }

  lemma ReachesByRun(w: World, es: seq<Event>, allowed: Allowed)
    requires IsRun(w, es) && Obeys(w, es, allowed)
    ensures Reaches(w, After(w, es), allowed)
  {
    hide IsRun, After, Obeys;
  }

  lemma ReachesItself(w: World, allowed: Allowed)
    ensures Reaches(w, w, allowed)
  {
    ReachesByRun(w, [], allowed);
  }

  lemma ReachesByStep(w: World, e: Event, allowed: Allowed)
    requires CanHappen(w, e) && allowed(w, e)
    ensures Reaches(w, Step(w, e), allowed)
  {
    hide CanHappen, Step, Reaches;
    var es := [e];
    var next := Step(w, e);
    assert es[0] == e && es[1..] == [];
    assert IsRun(next, es[1..]) && After(next, es[1..]) == next && Obeys(next, es[1..], allowed);
    ReachesByRun(w, es, allowed);
  }

  // ---- the other operations ----

  /** The same operation at the same point; only the server may have issued a token for it. */
  predicate Alike(a: Op, b: Op) {
    if a.RefreshSent? then b.RefreshSent? && b.caller == a.caller && b.token == a.token
    else if a.LoginSent? then b.LoginSent?
    else a == b
  }

  /** What takes place while each request is under way. */
  type Meanwhile = nat -> seq<Event>

  predicate Elsewhere(es: seq<Event>, id: Id) {
    forall i | 0 <= i < |es| :: !Resumes(es[i], id)
  }

  lemma StepElsewhere(w: World, e: Event, id: Id)
    requires CanHappen(w, e) && id in w.ops && !Resumes(e, id)
    ensures id in Step(w, e).ops && Alike(w.ops[id], Step(w, e).ops[id])
  {
    hide ParsedRefresh, ParsedProfile, ParsedLogin, ParseMe, Admitted, UserJson, NormalizeUser;
  }

  lemma {:induction false} RunElsewhere(w: World, es: seq<Event>, id: Id)
    requires IsRun(w, es) && Elsewhere(es, id) && id in w.ops
    ensures id in After(w, es).ops && Alike(w.ops[id], After(w, es).ops[id])
    decreases |es|
  {
    hide CanHappen, Step, Resumes;
    if es != [] {
      StepElsewhere(w, es[0], id);
      assert forall i | 0 <= i < |es[1..]| :: es[1..][i] == es[i + 1];
      RunElsewhere(Step(w, es[0]), es[1..], id);
    }
  }

  /** The server and the others as one operation meets them, and what the steps of all of them are allowed to be. */
  datatype Setting = Setting(around: Around, meanwhile: Meanwhile, allowed: Allowed)

  /** During request `n` of operation `id` the machine does `meanwhile(n)`, and that is what the code sees of it. */
  ghost predicate Weaves(w: World, id: Id, n: nat, c: Setting) {
    && IsRun(w, c.meanwhile(n)) && Obeys(w, c.meanwhile(n), c.allowed) && Elsewhere(c.meanwhile(n), id)
    && c.around.others(n, Page(w.local, true)) == Page(After(w, c.meanwhile(n)).local, true)
  }

  // ---- one operation carried to its end ----

  predicate Waits(op: Op) {
    !op.RefreshFailed? && !op.RefreshDone?
  }

  function ReplyOf(a: Answer): CallReply {
    if IsOk(a) then Answered(a.data) else if IsRefusal(a) then Unauthorized else Failed
  }

  function Resumption(op: Op, id: Id, a: Answer): Event {
    match op
    case RefreshSent(_, _, _) => RefreshAnswered(id, BodyOf(a))
    case ProfileSent(_, _, _, _, _) => ProfileAnswered(id, BodyOf(a))
    case RefreshFailed(_, _) => FailureCaught(id)
    case RefreshDone(_, _) => DoneResumed(id)
    case LoginSent(_) => LoginAnswered(id, BodyOf(a))
    case LogoutSent => LogoutAnswered(id)
    case CallSent(_, _, _) => CallAnswered(id, ReplyOf(a))
  }

  lemma ResumptionHappens(w: World, id: Id, a: Answer)
    requires id in w.ops
    ensures CanHappen(w, Resumption(w.ops[id], id, a)) && Resumes(Resumption(w.ops[id], id, a), id)
  {
  }

  /** The moment the operation's code goes on: when its request is answered, or at once. */
  ghost function Resumed(w: World, id: Id, n: nat, c: Setting): (u: World)
    requires id in w.ops && (Waits(w.ops[id]) ==> Weaves(w, id, n, c))
    ensures id in u.ops && Alike(w.ops[id], u.ops[id]) && (!Waits(w.ops[id]) ==> u == w)
    ensures Waits(w.ops[id]) ==> c.around.others(n, Page(w.local, true)) == Page(u.local, true)
  {
    if Waits(w.ops[id]) then
      RunElsewhere(w, c.meanwhile(n), id);
      After(w, c.meanwhile(n))
    else w
  }

  ghost function Next(w: World, id: Id, n: nat, c: Setting): (v: World)
    requires id in w.ops && (Waits(w.ops[id]) ==> Weaves(w, id, n, c))
    ensures id in v.ops ==> Rank(v.ops[id]) < Rank(w.ops[id])
  {
    var u := Resumed(w, id, n, c);
    ResumptionHappens(u, id, c.around.answer(n));
    ResumingDescends(u, Resumption(u.ops[id], id, c.around.answer(n)), id);
    Step(u, Resumption(u.ops[id], id, c.around.answer(n)))
  }

  function Advanced(op: Op, n: nat): nat {
    if Waits(op) then n + 1 else n
  }

  function StepsLeft(w: World, id: Id): nat {
    if id in w.ops then Rank(w.ops[id]) else 0
  }

  lemma SomethingLeft(w: World, id: Id)
    requires id in w.ops
    ensures StepsLeft(w, id) > 0
  {
  }

  /** The step by which the operation's code goes on. */
  ghost predicate GoesOn(w: World, id: Id, n: nat, c: Setting)
    requires id in w.ops && (Waits(w.ops[id]) ==> Weaves(w, id, n, c))
  {
    var u := Resumed(w, id, n, c);
    c.allowed(u, Resumption(u.ops[id], id, c.around.answer(n)))
  }

  /**
   What the code sees of the others is what the machine does, from here to the end of the operation, every step of
   theirs and of its own being allowed.
   */
  ghost predicate Woven(w: World, id: Id, n: nat, c: Setting)
    decreases StepsLeft(w, id)
  {
    id in w.ops ==>
      && (Waits(w.ops[id]) ==> Weaves(w, id, n, c))
      && GoesOn(w, id, n, c)
      && (SomethingLeft(w, id);
          Woven(Next(w, id, n, c), id, Advanced(w.ops[id], n), c))
  }

  /** The world in which the operation has ended. */
  ghost function Finished(w: World, id: Id, n: nat, c: Setting): World
    requires Woven(w, id, n, c)
    decreases StepsLeft(w, id)
  {
    if id !in w.ops then w
    else
      SomethingLeft(w, id);
      Finished(Next(w, id, n, c), id, Advanced(w.ops[id], n), c)
  }

  lemma Unfolded(w: World, id: Id, n: nat, c: Setting)
    requires Woven(w, id, n, c) && id in w.ops
    ensures Waits(w.ops[id]) ==> Weaves(w, id, n, c)
    ensures GoesOn(w, id, n, c)
    ensures var v, m := Next(w, id, n, c), Advanced(w.ops[id], n);
            && Woven(v, id, m, c)
            && Finished(w, id, n, c) == Finished(v, id, m, c)
  {
    hide Next;
  }

  lemma NextIsReached(w: World, id: Id, n: nat, c: Setting)
    requires id in w.ops && (Waits(w.ops[id]) ==> Weaves(w, id, n, c))
    requires GoesOn(w, id, n, c)
    ensures Reaches(w, Next(w, id, n, c), c.allowed)
  {
    hide Reaches, CanHappen, Step, BodyOf, Alike;
    var u := Resumed(w, id, n, c);
    if Waits(w.ops[id]) { ReachesByRun(w, c.meanwhile(n), c.allowed); } else { ReachesItself(w, c.allowed); }
    var e := Resumption(u.ops[id], id, c.around.answer(n));
    ResumptionHappens(u, id, c.around.answer(n));
    ReachesByStep(u, e, c.allowed);
    ReachesTransitively(w, u, Step(u, e), c.allowed);
  }

  lemma {:induction false} FinishedIsReached(w: World, id: Id, n: nat, c: Setting)
    requires Woven(w, id, n, c)
    ensures Reaches(w, Finished(w, id, n, c), c.allowed) && id !in Finished(w, id, n, c).ops
    decreases StepsLeft(w, id)
  {
    hide Reaches, Next;
    if id !in w.ops {
      ReachesItself(w, c.allowed);
    } else {
      SomethingLeft(w, id);
      var next := Next(w, id, n, c);
      NextIsReached(w, id, n, c);
      FinishedIsReached(next, id, Advanced(w.ops[id], n), c);
      ReachesTransitively(w, next, Finished(w, id, n, c), c.allowed);
    }
  }

  // ---- the refresh ----

  /** The code and the machine see the same session. */
  predicate Same(s: State, w: World) {
    s.page == Page(w.local, true)
  }

  predicate Outcomes(op: Op, caller: Caller, token: string, result: Refreshing) {
    op == if result.Threw? then RefreshFailed(caller, token) else RefreshDone(caller, result.token)
  }

  /** From the answer to `/auth/refresh` on. */
  lemma CompletedFollows(w: World, id: Id, s: State, token: string, reply: RefreshReply, c: Setting)
    returns (v: World)
    requires Same(s, w) && id in w.ops && w.ops[id].ProfileSent? && w.ops[id].token == token
    requires w.ops[id].access == reply.access && w.ops[id].next == reply.refresh.GetOr(token)
    requires w.ops[id].fallback == Fallback(w.local, reply)
    requires Woven(w, id, |s.sent|, c)
    ensures v == Next(w, id, |s.sent|, c)
    ensures var (t, result) := Completed(s, token, reply, c.around);
            && Same(t, v) && id in v.ops && Outcomes(v.ops[id], w.ops[id].caller, token, result)
            && Woven(v, id, |t.sent|, c)
            && Finished(v, id, |t.sent|, c) == Finished(w, id, |s.sent|, c)
  {
    hide Weaves, ParsedProfile, Admitted, Applied, Fallback;
    v := Next(w, id, |s.sent|, c);
  }

  /** The world in which a refresh has ended, one way or the other. */
  ghost function AfterRefresh(w: World, id: Id, n: nat, c: Setting): World
    requires Woven(w, id, n, c) && id in w.ops && w.ops[id].RefreshSent?
  {
    Unfolded(w, id, n, c);
    var answered := Next(w, id, n, c);
    if id in answered.ops && answered.ops[id].ProfileSent? then
      Unfolded(answered, id, n + 1, c);
      Next(answered, id, n + 1, c)
    else answered
  }

  lemma RefreshedFollows(w: World, id: Id, s: State, c: Setting)
    returns (v: World)
    requires Same(s, w) && id in w.ops && w.ops[id].RefreshSent?
    requires s.page.local.storedRefresh == Some(w.ops[id].token) && w.ops[id].token != ""
    requires Woven(w, id, |s.sent|, c)
    ensures v == AfterRefresh(w, id, |s.sent|, c)
    ensures var (t, result) := Refreshed(s, c.around);
            && Same(t, v) && id in v.ops && Outcomes(v.ops[id], w.ops[id].caller, w.ops[id].token, result)
            && Woven(v, id, |t.sent|, c)
            && Finished(v, id, |t.sent|, c) == Finished(w, id, |s.sent|, c)
  {
    hide Weaves, ParsedRefresh, Fallback, Completed;
    v := Next(w, id, |s.sent|, c);
    var token := w.ops[id].token;
    var reply := ParsedRefresh(BodyOf(AnswerNow(s, c.around)));
    if reply.Some? {
      var answered := Exchanged(s, RefreshRequest(token), c.around);
      v := CompletedFollows(v, id, answered, token, reply.value, c);
    }
  }

  // ---- calls ----

  /** The session once the code that made a call has dealt with its outcome. */
  function Concluded(purpose: Purpose, s: State, outcome: Outcome): Local {
    if outcome.Data? then AfterCall(s.page.local, purpose, outcome.data) else s.page.local
  }

  /** An answer that is passed on ends the call. */
  lemma AnswerFollows(w: World, id: Id, s: State, request: Request, c: Setting)
    requires Same(s, w) && id in w.ops && w.ops[id].CallSent?
    requires !IsRefusal(AnswerNow(s, c.around)) || w.ops[id].retried
    requires Woven(w, id, |s.sent|, c)
    ensures Finished(w, id, |s.sent|, c).local
            == Concluded(w.ops[id].purpose, Exchanged(s, request, c.around), Told(AnswerNow(s, c.around)))
  {
    hide Weaves, AfterCall, ErrorMessage;
    var v := Next(w, id, |s.sent|, c);
    assert id !in v.ops;
  }

  /** A refused call, once its refresh has ended, is sent again or fails. */
  lemma RenewedFollows(w: World, id: Id, s: State, result: Refreshing, request: Request, c: Setting)
    requires Same(s, w) && id in w.ops && Woven(w, id, |s.sent|, c)
    requires w.ops[id].RefreshFailed? || w.ops[id].RefreshDone?
    requires w.ops[id].caller.ByCall?
    requires if result.Threw? then w.ops[id].RefreshFailed?
             else w.ops[id].RefreshDone? && w.ops[id].result == result.token
    ensures var repeats := result.Gave? && Truthy(result.token);
            Finished(w, id, |s.sent|, c).local
            == if repeats
               then Concluded(w.ops[id].caller.purpose, Exchanged(s, request, c.around), Told(AnswerNow(s, c.around)))
               else Cleared(s.page.local)
  {
    hide Weaves, Woven, Concluded;
    Unfolded(w, id, |s.sent|, c);
    var v := Next(w, id, |s.sent|, c);
    if result.Threw? {
      Unfolded(v, id, |s.sent|, c);
      var u := Next(v, id, |s.sent|, c);
      assert id !in u.ops;
    } else if Truthy(result.token) {
      AnswerFollows(v, id, s, request, c);
    } else {
      assert id !in v.ops;
    }
  }

  /** A call refused for the first time, `u` being the world the answer came into. */
  lemma RefusedFollows(u: World, id: Id, purpose: Purpose, s: State, path: string, body: Json, c: Setting)
    requires Same(s, u)
    requires Woven(BeginRefresh(u, id, ByCall(purpose)), id, |s.sent|, c)
    ensures var (renewed, token) := Renewed(s, c.around);
            Finished(BeginRefresh(u, id, ByCall(purpose)), id, |s.sent|, c).local
            == if Truthy(token)
               then Concluded(purpose, Exchanged(renewed, Request(path, token, body), c.around),
                              Told(AnswerNow(renewed, c.around)))
               else Expired(renewed).page.local
  {
    hide Woven, Finished, Weaves, Concluded, Completed;
    var v := BeginRefresh(u, id, ByCall(purpose));
    var (after, result) := Refreshed(s, c.around);
    var token := if result.Threw? then None else result.token;
    var request := Request(path, token, body);
    if Truthy(u.local.storedRefresh) {
      hide Refreshed;
      var done := RefreshedFollows(v, id, s, c);
      RenewedFollows(done, id, after, result, request, c);
    } else {
      RenewedFollows(v, id, after, result, request, c);
    }
  }

  lemma FirstRefusal(w: World, id: Id, n: nat, c: Setting)
    requires Woven(w, id, n, c) && id in w.ops && w.ops[id].CallSent? && !w.ops[id].retried
    requires IsRefusal(c.around.answer(n))
    ensures Weaves(w, id, n, c)
    ensures var u := Resumed(w, id, n, c);
            && c.around.others(n, Page(w.local, true)) == Page(u.local, true)
            && Next(w, id, n, c) == BeginRefresh(u, id, ByCall(w.ops[id].purpose))
  {
    hide Woven, Weaves, BeginRefresh;
    Unfolded(w, id, n, c);
  }

  /**
   `apiFetch` for a call that takes part in the session: the machine carries it to the same session, through the
   refresh and the repetition, with anything the machine can do taking place at every `await`.
   */
  lemma CallFollows(w: World, id: Id, s: State, path: string, body: Json, c: Setting)
    requires Same(s, w) && id in w.ops && w.ops[id].CallSent? && !w.ops[id].retried
    requires Woven(w, id, |s.sent|, c)
    ensures var (t, outcome) := Fetched(s, path, body, PLAIN, c.around);
            Finished(w, id, |s.sent|, c).local == Concluded(w.ops[id].purpose, t, outcome)
  {
    hide Woven, Finished, Next, Weaves, Renewed, ErrorMessage, BeginRefresh, AfterCall;
    var answer := AnswerNow(s, c.around);
    var own := Opening(s, path, body, PLAIN);
    if !IsRefusal(answer) {
      AnswerFollows(w, id, s, own, c);
    } else {
      FirstRefusal(w, id, |s.sent|, c);
      Unfolded(w, id, |s.sent|, c);
      var u := Resumed(w, id, |s.sent|, c);
      RefusedFollows(u, id, w.ops[id].purpose, Exchanged(s, own, c.around), path, body, c);
    }
  }

  /** With nothing else going on, every operation at every point is woven, so what follows holds of it. */
  lemma {:induction false} AloneIsWoven(w: World, id: Id, n: nat, c: Setting)
    requires forall k, p :: c.around.others(k, p) == p
    requires forall k :: c.meanwhile(k) == []
    requires forall u, e :: c.allowed(u, e)
    ensures Woven(w, id, n, c)
    decreases StepsLeft(w, id)
  {
    hide Next, Waits;
    if id in w.ops {
      assert Weaves(w, id, n, c) by {
        assert c.meanwhile(n) == [];
      }
      SomethingLeft(w, id);
      AloneIsWoven(Next(w, id, n, c), id, Advanced(w.ops[id], n), c);
    }
  }

  // ---- whole operations, from any state of the page ----

  lemma BegunAndFinished(w: World, e: Event, id: Id, n: nat, c: Setting)
    requires CanHappen(w, e) && c.allowed(w, e) && Woven(Step(w, e), id, n, c)
    ensures var v := Finished(Step(w, e), id, n, c); Reaches(w, v, c.allowed) && id !in v.ops
  {
    hide CanHappen, Step, Woven, Finished, Reaches;
    ReachesByStep(w, e, c.allowed);
    FinishedIsReached(Step(w, e), id, n, c);
    ReachesTransitively(w, Step(w, e), Finished(Step(w, e), id, n, c), c.allowed);
  }

  /** A plain call through `apiFetch`, started anywhere in the application. */
  lemma CallRefines(w: World, id: Id, s: State, path: string, body: Json, c: Setting)
    requires Same(s, w) && id !in w.ops
    requires c.allowed(w, StartCall(id, Plain))
    requires Woven(Step(w, StartCall(id, Plain)), id, |s.sent|, c)
    ensures var v := Finished(Step(w, StartCall(id, Plain)), id, |s.sent|, c);
            && Reaches(w, v, c.allowed) && id !in v.ops
            && v.local == Fetched(s, path, body, PLAIN, c.around).0.page.local
  {
    hide Woven, Finished, Reaches, Fetched;
    BegunAndFinished(w, StartCall(id, Plain), id, |s.sent|, c);
    CallFollows(Step(w, StartCall(id, Plain)), id, s, path, body, c);
  }

  /** A password change made by an authenticated view, whose closure keeps the access token of that moment. */
  lemma PasswordChangeRefines(w: World, id: Id, s: State, passwords: Json, c: Setting)
    requires Same(s, w) && id !in w.ops && IsAuthenticated(w.local)
    requires c.allowed(w, StartCall(id, PasswordChange))
    requires Woven(Step(w, StartCall(id, PasswordChange)), id, |s.sent|, c)
    ensures var v := Finished(Step(w, StartCall(id, PasswordChange)), id, |s.sent|, c);
            var (t, outcome) := Fetched(s, PASSWORD_PATH, passwords, PLAIN, c.around);
            && Reaches(w, v, c.allowed) && id !in v.ops
            && v.local == Updated(t, w.local.access, outcome, c.around).0.page.local
  {
    hide Woven, Finished, Reaches, Fetched, ParseMe, Admitted, UserJson, Refreshed;
    BegunAndFinished(w, StartCall(id, PasswordChange), id, |s.sent|, c);
    CallFollows(Step(w, StartCall(id, PasswordChange)), id, s, PASSWORD_PATH, passwords, c);
  }

  /** The end of a refresh for which nobody waits but the page itself. */
  lemma OwnRefreshEnds(w: World, id: Id, s: State, result: Refreshing, c: Setting)
    requires Same(s, w) && id in w.ops && Woven(w, id, |s.sent|, c)
    requires if result.Threw? then w.ops[id].RefreshFailed? else w.ops[id].RefreshDone?
    requires !w.ops[id].caller.ByCall?
    ensures var l := if result.Threw? then Cleared(s.page.local) else s.page.local;
            Finished(w, id, |s.sent|, c).local
            == if w.ops[id].caller.ByLoad? then l.(loading := false) else l
  {
    hide Woven, Weaves;
    Unfolded(w, id, |s.sent|, c);
    assert id !in Next(w, id, |s.sent|, c).ops;
  }

  lemma LoadRefines(w: World, id: Id, s: State, c: Setting)
    requires Same(s, w) && id !in w.ops && c.allowed(w, Load(id))
    requires Woven(Step(w, Load(id)), id, |s.sent|, c)
    ensures var v := Finished(Step(w, Load(id)), id, |s.sent|, c);
            Reaches(w, v, c.allowed) && id !in v.ops && v.local == Loaded(s, c.around).page.local
  {
    hide Woven, Reaches, Completed;
    BegunAndFinished(w, Load(id), id, |s.sent|, c);
    var l := w.local;
    if Truthy(l.storedRefresh) {
      hide Refreshed, Finished;
      var shown := WithLocal(s, l.(loading := true, refresh := l.storedRefresh));
      var done := RefreshedFollows(Step(w, Load(id)), id, shown, c);
      var (after, result) := Refreshed(shown, c.around);
      OwnRefreshEnds(done, id, after, result, c);
    }
  }

  lemma TickRefines(w: World, id: Id, s: State, c: Setting)
    requires Same(s, w) && id !in w.ops && c.allowed(w, Tick(id))
    requires Woven(Step(w, Tick(id)), id, |s.sent|, c)
    ensures var v := Finished(Step(w, Tick(id)), id, |s.sent|, c);
            Reaches(w, v, c.allowed) && id !in v.ops && v.local == Ticked(s, c.around).page.local
  {
    hide Woven, Reaches, Completed;
    BegunAndFinished(w, Tick(id), id, |s.sent|, c);
    if Truthy(w.local.storedRefresh) {
      hide Refreshed, Finished;
      var done := RefreshedFollows(Step(w, Tick(id)), id, s, c);
      var (after, result) := Refreshed(s, c.around);
      OwnRefreshEnds(done, id, after, result, c);
    }
  }

  lemma LoginRefines(w: World, id: Id, s: State, credentials: Json, c: Setting)
    requires Same(s, w) && id !in w.ops && c.allowed(w, StartLogin(id))
    requires Woven(Step(w, StartLogin(id)), id, |s.sent|, c)
    ensures var v := Finished(Step(w, StartLogin(id)), id, |s.sent|, c);
            Reaches(w, v, c.allowed) && id !in v.ops && v.local == Entered(s, credentials, c.around).0.page.local
  {
    hide Woven, Weaves, Reaches, ParsedLogin, Admitted, Applied;
    BegunAndFinished(w, StartLogin(id), id, |s.sent|, c);
    Unfolded(Step(w, StartLogin(id)), id, |s.sent|, c);
  }

  lemma LogoutRefines(w: World, id: Id, s: State, captured: Option<string>, c: Setting)
    requires Same(s, w) && id !in w.ops && c.allowed(w, Logout(id))
    requires Woven(Step(w, Logout(id)), id, |s.sent|, c)
    ensures var v := Finished(Step(w, Logout(id)), id, |s.sent|, c);
            Reaches(w, v, c.allowed) && id !in v.ops && v.local == LoggedOut(s, captured, c.around).page.local
  {
    hide Woven, Weaves, Reaches;
    BegunAndFinished(w, Logout(id), id, |s.sent|, c);
    if Truthy(w.local.storedRefresh) {
      Unfolded(Step(w, Logout(id)), id, |s.sent|, c);
    }
  }

  // ---- what runs of the machine keep, the code keeps ----

  /** An operation of the code. */
  datatype Task =
    | ACall(path: string, body: Json)
    | APasswordChange(passwords: Json)
    | ALoad
    | ATick
    | ALogin(credentials: Json)
    | ALogout(captured: Option<string>)

  function Begins(task: Task, id: Id): Event {
    match task
    case ACall(_, _) => StartCall(id, Plain)
    case APasswordChange(_) => StartCall(id, PasswordChange)
    case ALoad => Load(id)
    case ATick => Tick(id)
    case ALogin(_) => StartLogin(id)
    case ALogout(_) => Logout(id)
  }

  /** The session the code leaves behind; a password change is made with the access token of its view. */
  function Performed(task: Task, s: State, around: Around): Local {
    match task
    case ACall(path, body) => Fetched(s, path, body, PLAIN, around).0.page.local
    case APasswordChange(passwords) =>
      var (t, outcome) := Fetched(s, PASSWORD_PATH, passwords, PLAIN, around);
      Updated(t, s.page.local.access, outcome, around).0.page.local
    case ALoad => Loaded(s, around).page.local
    case ATick => Ticked(s, around).page.local
    case ALogin(credentials) => Entered(s, credentials, around).0.page.local
    case ALogout(captured) => LoggedOut(s, captured, around).page.local
  }

  /** The operation begins here, among others, and every step from here to its end is allowed. */
  ghost predicate Runs(task: Task, w: World, id: Id, s: State, c: Setting) {
    && Same(s, w) && CanHappen(w, Begins(task, id)) && c.allowed(w, Begins(task, id))
    && Woven(Step(w, Begins(task, id)), id, |s.sent|, c)
  }

  ghost function EndWorld(task: Task, w: World, id: Id, s: State, c: Setting): World
    requires Runs(task, w, id, s, c)
  {
    Finished(Step(w, Begins(task, id)), id, |s.sent|, c)
  }

  /** Every operation of the code is a run of the machine, all of whose steps are allowed. */
  lemma CodeRefines(task: Task, w: World, id: Id, s: State, c: Setting)
    requires Runs(task, w, id, s, c)
    ensures var v := EndWorld(task, w, id, s, c);
            Reaches(w, v, c.allowed) && id !in v.ops && v.local == Performed(task, s, c.around)
  {
    hide Woven, Finished, Reaches, Step, Fetched, Updated, Loaded, Ticked, Entered, LoggedOut;
    match task
    case ACall(path, body) => CallRefines(w, id, s, path, body, c);
    case APasswordChange(passwords) => PasswordChangeRefines(w, id, s, passwords, c);
    case ALoad => LoadRefines(w, id, s, c);
    case ATick => TickRefines(w, id, s, c);
    case ALogin(credentials) => LoginRefines(w, id, s, credentials, c);
    case ALogout(captured) => LogoutRefines(w, id, s, captured, c);
  }

  /** The code leaves no user in state who is not active or has no dashboard role. */
  lemma CodeAdmits(task: Task, w: World, id: Id, s: State, c: Setting)
    requires OnlyAdmitted(w.local) && Runs(task, w, id, s, c)
    ensures OnlyAdmitted(Performed(task, s, c.around))
  {
    hide Runs, EndWorld, Performed, OnlyAdmitted, IsRun, After, Obeys;
    CodeRefines(task, w, id, s, c);
    var v := EndWorld(task, w, id, s, c);
    var es :| IsRun(w, es) && Obeys(w, es, c.allowed) && After(w, es) == v;
    RunAdmits(w, es);
  }

  /** The code leaves the session complete or signed out, with memory and storage in agreement. */
  lemma CodeKeepsWhole(task: Task, w: World, id: Id, s: State, c: Setting)
    requires Sound(w) && Runs(task, w, id, s, c)
    ensures Whole(Performed(task, s, c.around)) && Sound(EndWorld(task, w, id, s, c))
  {
    hide Runs, EndWorld, Performed, Whole, IsRun, After, Obeys, CarriesTokens, ChangesPassword, SignedIn;
    CodeRefines(task, w, id, s, c);
    var v := EndWorld(task, w, id, s, c);
    var es :| IsRun(w, es) && Obeys(w, es, c.allowed) && After(w, es) == v;
    RunIsSound(w, es);
  }

  lemma {:induction false} ObeyingRunsLogNobodyIn(w: World, es: seq<Event>, allowed: Allowed)
    requires IsRun(w, es) && Obeys(w, es, allowed) && forall u, e :: allowed(u, e) ==> !LoginSucceeds(e)
    ensures NoLoginSucceeds(es)
    decreases |es|
  {
    hide Step, CanHappen, LoginSucceeds;
    if es != [] {
      ObeyingRunsLogNobodyIn(Step(w, es[0]), es[1..], allowed);
      assert forall i | 0 < i < |es| :: es[i] == es[1..][i - 1];
    }
  }

  /** Begun in an ended session with no refresh pending, the code leaves it empty unless a login succeeds meanwhile. */
  lemma CodeStaysSignedOut(task: Task, w: World, id: Id, s: State, c: Setting)
    requires Quiet(w) && Runs(task, w, id, s, c)
    requires forall u, e :: c.allowed(u, e) ==> !LoginSucceeds(e)
    ensures Empty(Performed(task, s, c.around)) && Quiet(EndWorld(task, w, id, s, c))
  {
    hide Runs, EndWorld, Performed, Empty, IsRun, After, Obeys, RefreshPending, LoginSucceeds, NoLoginSucceeds;
    CodeRefines(task, w, id, s, c);
    var v := EndWorld(task, w, id, s, c);
    var es :| IsRun(w, es) && Obeys(w, es, c.allowed) && After(w, es) == v;
    ObeyingRunsLogNobodyIn(w, es, c.allowed);
    StaysSignedOut(w, es);
  }

  lemma {:induction false} ObeyingRunsRotate(w: World, es: seq<Event>, allowed: Allowed)
    requires IsRun(w, es) && Obeys(w, es, allowed) && forall u, e :: allowed(u, e) ==> Rotating(u, e)
    ensures IsRotatingRun(w, es)
    decreases |es|
  {
    hide Step, CanHappen, Rotating;
    if es != [] { ObeyingRunsRotate(Step(w, es[0]), es[1..], allowed); }
  }

  /**
   Against a rotating server the code leaves a stored refresh token that is none, or live, or held by a refresh still
   under way.
   */
  lemma CodeKeepsTokenGood(task: Task, w: World, id: Id, s: State, c: Setting)
    requires TokensInOrder(w) && Runs(task, w, id, s, c)
    requires forall u, e :: c.allowed(u, e) ==> Rotating(u, e)
    ensures var v := EndWorld(task, w, id, s, c);
            TokensInOrder(v) && StoredIsGood(v) && v.local == Performed(task, s, c.around)
  {
    CodeRefines(task, w, id, s, c);
    hide Runs, EndWorld, Performed, IsRun, After, Obeys, Rotating, StoredIsGood, TokensAreKnown, OwnedAreUnspent;
    var v := EndWorld(task, w, id, s, c);
    var es :| IsRun(w, es) && Obeys(w, es, c.allowed) && After(w, es) == v;
    ObeyingRunsRotate(w, es, c.allowed);
    RunInOrder(w, es);
  }
}
