/** When a session ends, stays ended, can come back, and how long a call can keep the page busy. */
module SessionLifecycle {
  import opened Wrappers
  import opened Json
  import opened Users
  import opened Session

  // ---- an ended session stays ended ----

  predicate Empty(l: Local) {
    && l.user.None? && l.access.None? && l.refresh.None? && l.moduleToken.None?
    && l.storedRefresh.None? && l.storedUser.None?
  }

  predicate RefreshPending(op: Op) {
    op.RefreshSent? || op.ProfileSent?
  }

  predicate Quiet(w: World) {
    Empty(w.local) && forall id | id in w.ops :: !RefreshPending(w.ops[id])
  }

  predicate LoginSucceeds(e: Event) {
    e.LoginAnswered? && ParsedLogin(e.body).Some? && Admitted(ParsedLogin(e.body).value.user)
  }

  predicate NoLoginSucceeds(es: seq<Event>) {
    forall i | 0 <= i < |es| :: !LoginSucceeds(es[i])
  }

  lemma StepStaysQuiet(w: World, e: Event)
    requires Quiet(w) && CanHappen(w, e) && !LoginSucceeds(e)
    ensures Quiet(Step(w, e))
  {
    hide ParsedRefresh, ParsedProfile, ParsedLogin, ParseMe, Admitted, UserJson, NormalizeUser;
  }

  /**
   Once the session is cleared with no refresh pending it stays empty, through late answers to calls, logouts and
   password changes, new refreshes and failing logins, until a login succeeds.
   */
  lemma {:induction false} StaysSignedOut(w: World, es: seq<Event>)
    requires Quiet(w) && IsRun(w, es) && NoLoginSucceeds(es)
    ensures Quiet(After(w, es))
    decreases |es|
  {
    hide Quiet, Step, CanHappen, LoginSucceeds;
    if es != [] {
      assert !LoginSucceeds(es[0]);
      StepStaysQuiet(w, es[0]);
      assert NoLoginSucceeds(es[1..]) by {
        assert forall i | 0 <= i < |es[1..]| :: es[1..][i] == es[i + 1];
      }
      StaysSignedOut(Step(w, es[0]), es[1..]);
    }
  }

  /** The profile answer completes a refresh with an admitted user. */
  predicate RefreshSucceeds(w: World, e: Event)
    requires CanHappen(w, e)
  {
    && e.ProfileAnswered?
    && var user := OrElse(ParsedProfile(e.body), w.ops[e.id].fallback);
       user.Some? && Admitted(user.value)
  }

  /** The only steps that bring back an empty session: a successful login, or the end of a refresh still under way. */
  lemma RevivedExactly(w: World, e: Event)
    requires Empty(w.local) && CanHappen(w, e)
    ensures !Empty(Step(w, e).local) <==> LoginSucceeds(e) || RefreshSucceeds(w, e)
  {
    hide ParsedRefresh, ParsedProfile, ParsedLogin, ParseMe, Admitted, UserJson, NormalizeUser;
  }

  /** Logging out does not stop a refresh under way: its answer signs the user in again. */
  lemma RefreshOutlivesLogout(w: World, id: Id, logout: Id, body: Option<Json>)
    requires CanHappen(w, ProfileAnswered(id, body)) && RefreshSucceeds(w, ProfileAnswered(id, body))
    requires CanHappen(w, Logout(logout))
    ensures var out := Step(w, Logout(logout));
            && Empty(out.local) && CanHappen(out, ProfileAnswered(id, body))
            && Step(out, ProfileAnswered(id, body)).local.user.Some?
  {
    hide ParsedProfile, Admitted, UserJson;
  }

  // ---- calls come to an end ----

  /** How many more times the code of an operation can resume. */
  function Rank(op: Op): nat {
    match op
    case CallSent(_, retried, _) => if retried then 1 else 6
    case RefreshSent(_, _, _) => 5
    case ProfileSent(_, _, _, _, _) => 4
    case RefreshFailed(_, _) => 3
    case RefreshDone(_, _) => 2
    case LoginSent(_) => 1
    case LogoutSent => 1
  }

  /** The code of operation `id` resumes. */
  predicate Resumes(e: Event, id: Id) {
    match e
    case RefreshAnswered(i, _) => i == id
    case ProfileAnswered(i, _) => i == id
    case FailureCaught(i) => i == id
    case DoneResumed(i) => i == id
    case LoginAnswered(i, _) => i == id
    case LogoutAnswered(i) => i == id
    case CallAnswered(i, _) => i == id
    case _ => false
  }

  predicate Starts(e: Event, id: Id) {
    match e
    case Load(i) => i == id
    case Tick(i) => i == id
    case StartLogin(i) => i == id
    case StartCall(i, _) => i == id
    case Logout(i) => i == id
    case _ => false
  }

  lemma ResumingDescends(w: World, e: Event, id: Id)
    requires CanHappen(w, e) && id in w.ops
    ensures Rank(w.ops[id]) >= 1
    ensures Resumes(e, id) && id in Step(w, e).ops ==> Rank(Step(w, e).ops[id]) < Rank(w.ops[id])
    ensures !Resumes(e, id) ==> id in Step(w, e).ops && Rank(Step(w, e).ops[id]) == Rank(w.ops[id])
  {
    hide ParsedRefresh, ParsedProfile, ParsedLogin, ParseMe, Admitted, Cleared, Applied, AfterCall, Truthy, Fallback;
  }

  function TimesResumed(es: seq<Event>, id: Id): nat {
    if es == [] then 0 else (if Resumes(es[0], id) then 1 else 0) + TimesResumed(es[1..], id)
  }

  lemma NotThere(w: World, e: Event, id: Id)
    requires CanHappen(w, e) && id !in w.ops && !Starts(e, id)
    ensures id !in Step(w, e).ops && !Resumes(e, id)
  {
    hide ParsedRefresh, ParsedProfile, ParsedLogin, ParseMe, Admitted, UserJson, NormalizeUser;
  }

  lemma {:induction false} GoneIsGone(w: World, es: seq<Event>, id: Id)
    requires IsRun(w, es) && id !in w.ops && forall i | 0 <= i < |es| :: !Starts(es[i], id)
    ensures TimesResumed(es, id) == 0
    decreases |es|
  {
    hide Step, CanHappen, Starts, Resumes;
    if es != [] {
      NotThere(w, es[0], id);
      assert forall i | 0 <= i < |es[1..]| :: es[1..][i] == es[i + 1];
      GoneIsGone(Step(w, es[0]), es[1..], id);
    }
  }

  /** In any run the code of an operation, its refresh included, resumes at most as often as its rank says. */
  lemma {:induction false} OperationsTerminate(w: World, es: seq<Event>, id: Id)
    requires IsRun(w, es) && id in w.ops && forall i | 0 <= i < |es| :: !Starts(es[i], id)
    ensures TimesResumed(es, id) <= Rank(w.ops[id])
    decreases |es|
  {
    hide Step, CanHappen, Starts, Resumes, Rank;
    if es != [] {
      ResumingDescends(w, es[0], id);
      assert forall i | 0 <= i < |es[1..]| :: es[1..][i] == es[i + 1];
      var next := Step(w, es[0]);
      if id in next.ops {
        OperationsTerminate(next, es[1..], id);
      } else {
        GoneIsGone(next, es[1..], id);
      }
    }
  }
}
