/**
 Whose session it is, over whole runs: the user shown owns the tokens held, now and however any one operation under way
 is answered, exactly when no other user has been put in place meanwhile.
 */
module SessionOwnerRuns {
  import opened Wrappers
  import opened Json
  import opened Users
  import opened ServerReplies
  import opened Session
  import opened SessionSafety
  import opened SessionLifecycle
  import opened SessionOwner

  // ---- safety at one moment ----

  predicate AllResume(es: seq<Event>, id: Id) {
    forall i | 0 <= i < |es| :: Resumes(es[i], id)
  }

  /** Honest answers to the one operation, as far as they go, leave the user shown the owner of the tokens. */
  ghost predicate AnswersAreSafe(owner: Owners, w: World, id: Id) {
    forall es | IsRun(w, es) && IsHonestRun(owner, w, es) && AllResume(es, id) ::
      UserOwnsTokens(owner, After(w, es).local)
  }

  ghost predicate SafeNow(owner: Owners, w: World) {
    UserOwnsTokens(owner, w.local) && forall id | id in w.ops :: AnswersAreSafe(owner, w, id)
  }

  lemma {:induction false} OwnAnswersKeep(owner: Owners, w: World, id: Id, es: seq<Event>)
    requires IsRun(w, es) && IsHonestRun(owner, w, es) && AllResume(es, id) && Sound(w) && LocalIsOne(owner, w.local)
    requires id in w.ops ==> OpIsOne(owner, w.local, w.ops[id])
    ensures UserOwnsTokens(owner, After(w, es).local)
    decreases |es|
  {
    hide Step, CanHappen, Honest, Sound, OpIsOne, Resumes, Offered;
    if es != [] {
      assert Resumes(es[0], id);
      ResumedIsThere(w, es[0], id);
      OwnStep(owner, w, es[0], id);
      StepIsSound(w, es[0]);
      assert forall i | 0 <= i < |es[1..]| :: es[1..][i] == es[i + 1];
      OwnAnswersKeep(owner, Step(w, es[0]), id, es[1..]);
    }
  }

  lemma ResumedIsThere(w: World, e: Event, id: Id)
    requires CanHappen(w, e) && Resumes(e, id)
    ensures id in w.ops
  {
  }

  lemma OneSessionIsSafe(owner: Owners, w: World)
    requires Sound(w) && OneSession(owner, w)
    ensures SafeNow(owner, w)
  {
    hide Sound, OpIsOne, IsRun, IsHonestRun, AllResume, After, Offered;
    forall id, es | id in w.ops && IsRun(w, es) && IsHonestRun(owner, w, es) && AllResume(es, id)
      ensures UserOwnsTokens(owner, After(w, es).local)
    {
      OwnAnswersKeep(owner, w, id, es);
    }
  }

  // ---- how users and tokens are mixed up ----

  lemma TwoSteps(owner: Owners, w: World, e: Event, f: Event)
    requires CanHappen(w, e) && Honest(owner, w, e) && CanHappen(Step(w, e), f) && Honest(owner, Step(w, e), f)
    ensures IsHonestRun(owner, w, [e, f]) && IsRun(w, [e, f]) && After(w, [e, f]) == Step(Step(w, e), f)
  {
    hide CanHappen, Step, Honest;
    var es := [e, f];
    var next := Step(w, e);
    assert es[1..] == [f] && [f][1..] == [];
    assert IsHonestRun(owner, next, [f]) && IsRun(next, [f]) && After(next, [f]) == Step(next, f);
  }

  lemma OneStep(owner: Owners, w: World, e: Event)
    requires CanHappen(w, e) && Honest(owner, w, e)
    ensures IsHonestRun(owner, w, [e]) && IsRun(w, [e]) && After(w, [e]) == Step(w, e)
  {
    hide CanHappen, Step, Honest;
    var es := [e];
    assert es[1..] == [];
  }

  /** The server answers with the token itself as access token, and names neither a new token nor a user. */
  function BareRefresh(token: string): Option<Json> {
    Some(Enveloped(false, ReplyFields(token, None, None, false)))
  }

  lemma BareRefreshReads(token: string)
    requires token != ""
    ensures ParsedRefresh(BareRefresh(token)) == Some(RefreshReply(token, None, None))
  {
    RefreshReplyReads(RefreshReply(token, None, None), false, false);
  }

  lemma BareAnswer(owner: Owners, w: World, id: Id)
    requires id in w.ops && w.ops[id].RefreshSent? && w.ops[id].token != ""
    ensures var token, e := w.ops[id].token, RefreshAnswered(id, BareRefresh(w.ops[id].token));
            && CanHappen(w, e) && Honest(owner, w, e) && id in Step(w, e).ops
            && Step(w, e).ops[id] == ProfileSent(w.ops[id].caller, token, token, token, StoredUser(w.local))
  {
    hide BareRefresh, ParsedRefresh, NormalizeUser, UserJson, StoredUser;
    BareRefreshReads(w.ops[id].token);
  }

  lemma LostProfile(owner: Owners, w: World, id: Id)
    requires id in w.ops && w.ops[id].ProfileSent? && w.ops[id].fallback.Some?
    requires Admitted(w.ops[id].fallback.value) && w.ops[id].fallback.value.id != owner(w.ops[id].access)
    ensures var e := ProfileAnswered(id, None);
            CanHappen(w, e) && Honest(owner, w, e) && !UserOwnsTokens(owner, Step(w, e).local)
  {
    hide Admitted, UserJson;
  }

  /** A refresh that finds another user in storage shows that user, if the profile is lost. */
  lemma RefreshCanMix(owner: Owners, w: World, id: Id)
    requires Sound(w) && id in w.ops && w.ops[id].RefreshSent? && !OffersOnly(w.local, owner(w.ops[id].token))
    ensures !AnswersAreSafe(owner, w, id)
  {
    assert CarriesTokens(w.ops[id]);
    hide BareRefresh, Sound, Step, CanHappen, Honest, StoredUser, Admitted, UserOwnsTokens, IsRun, IsHonestRun, After;
    var e, f := RefreshAnswered(id, BareRefresh(w.ops[id].token)), ProfileAnswered(id, None);
    BareAnswer(owner, w, id);
    LostProfile(owner, Step(w, e), id);
    TwoSteps(owner, w, e, f);
    assert AllResume([e, f], id);
  }

  /** Somebody with a given id, in a form the parsers accept. */
  function SomeoneWith(id: string): User {
    User(id, "a", SuperAdmin, Active, None, false)
  }

  function ChangeAnswer(id: string): Json {
    Enveloped(false, UserField(Some(SomeoneWith(id))))
  }

  lemma ChangeAnswerReads(id: string)
    requires id != ""
    ensures ParseMe(ChangeAnswer(id)) == Some(SomeoneWith(id)) && Admitted(SomeoneWith(id)) && SomeoneWith(id).id == id
  {
    TrimmedLetter();
    StoredUserReadsBack(SomeoneWith(id));
    AdmittedExactly(SomeoneWith(id));
    ProfileReads(SomeoneWith(id), false, true);
  }

  lemma TrimmedLetter()
    ensures Text.Trimmed("a")
  {
  }

  lemma ChangedToSomeone(owner: Owners, l: Local, who: string)
    requires SignedIn(l) && l.refresh != Some("") && who != "" && who != owner(l.access.value)
    ensures !UserOwnsTokens(owner, AfterCall(l, PasswordChange, ChangeAnswer(who)))
  {
    hide ChangeAnswer, ParseMe, Admitted, UserJson, SomeoneWith;
    ChangeAnswerReads(who);
  }

  lemma AnsweredForSomeone(owner: Owners, w: World, id: Id, who: string)
    requires id in w.ops && w.ops[id].CallSent? && w.ops[id].purpose.PasswordChange? && w.ops[id].bearer.Some?
    requires owner(w.ops[id].bearer.value) == who != "" && SignedIn(w.local) && w.local.refresh != Some("")
    requires who != owner(w.local.access.value)
    ensures var e := CallAnswered(id, Answered(ChangeAnswer(who)));
            CanHappen(w, e) && Honest(owner, w, e) && !UserOwnsTokens(owner, Step(w, e).local)
  {
    hide ChangeAnswer, ParseMe, AfterCall, SignedIn, UserOwnsTokens, SomeoneWith, Admitted;
    ChangeAnswerReads(who);
    ChangedToSomeone(owner, w.local, who);
  }

  lemma PasswordResumed(owner: Owners, w: World, id: Id)
    requires id in w.ops && w.ops[id].RefreshDone? && PasswordBearer(w.ops[id]).Some?
    ensures var e := DoneResumed(id);
            && CanHappen(w, e) && Honest(owner, w, e) && id in Step(w, e).ops && Step(w, e).local == w.local
            && Step(w, e).ops[id] == CallSent(PasswordChange, true, PasswordBearer(w.ops[id]))
  {
  }

  /** A password change sent with another user's token shows that user. */
  lemma PasswordCanMix(owner: Owners, w: World, id: Id)
    requires id in w.ops && PasswordBearer(w.ops[id]).Some? && SignedIn(w.local) && w.local.refresh != Some("")
    requires owner(PasswordBearer(w.ops[id]).value) != owner(w.local.access.value)
    requires owner(PasswordBearer(w.ops[id]).value) != ""
    ensures !AnswersAreSafe(owner, w, id)
  {
    var who := owner(PasswordBearer(w.ops[id]).value);
    var e, done := CallAnswered(id, Answered(ChangeAnswer(who))), DoneResumed(id);
    assert w.local.access.Some?;
    hide ChangeAnswer, Step, CanHappen, Honest, SignedIn, UserOwnsTokens, IsRun, IsHonestRun, After;
    if w.ops[id].CallSent? {
      AnsweredForSomeone(owner, w, id, who);
      OneStep(owner, w, e);
      assert AllResume([e], id);
    } else {
      PasswordResumed(owner, w, id);
      AnsweredForSomeone(owner, Step(w, done), id, who);
      TwoSteps(owner, w, done, e);
      assert AllResume([done, e], id);
    }
  }

  // ---- runs ----

  /** Some honest answers to an operation that is not of the session would mix users and tokens. */
  lemma AnotherIsUnsafe(owner: Owners, w: World, id: Id)
    requires Sound(w) && LocalIsOne(owner, w.local) && w.local.user.Some? && id in w.ops
    requires !OpIsOne(owner, w.local, w.ops[id])
    requires w.ops[id].RefreshSent? || PasswordBearer(w.ops[id]).Some?
    requires forall t :: owner(t) != ""
    ensures !SafeNow(owner, w)
  {
    hide AnswersAreSafe, Admitted, UserJson, Offered;
    if w.ops[id].RefreshSent? {
      RefreshCanMix(owner, w, id);
    } else {
      PasswordCanMix(owner, w, id);
    }
  }

  lemma ConflictIsUnsafe(owner: Owners, w: World, e: Event)
    requires CanHappen(w, e) && Honest(owner, w, e) && Sound(w) && OneSession(owner, w) && Conflicts(owner, w, e)
    requires forall t :: owner(t) != ""
    ensures !SafeNow(owner, Step(w, e))
  {
    StepIsOneExactly(owner, w, e);
    StepIsSound(w, e);
    StepPuts(w, e);
    hide Step, CanHappen, Honest, Sound, LocalIsOne, OpIsOne, Resumes, OfAnother, PutInPlace, PasswordBearer, SafeNow;
    var u := PutInPlace(w, e).value;
    var id :| id in w.ops && !Resumes(e, id) && OfAnother(owner, w.ops[id], u);
    OthersStep(owner, w, e, id);
    AnotherIsUnsafe(owner, Step(w, e), id);
  }

  /** Safe at every moment of the run. */
  ghost predicate SafeThroughout(owner: Owners, w: World, es: seq<Event>)
    requires IsHonestRun(owner, w, es)
    decreases |es|
  {
    SafeNow(owner, w) && (es != [] ==> SafeThroughout(owner, Step(w, es[0]), es[1..]))
  }

  lemma {:induction false} RunIsSafeExactly(owner: Owners, w: World, es: seq<Event>)
    requires IsHonestRun(owner, w, es) && Sound(w) && OneSession(owner, w)
    requires forall t :: owner(t) != ""
    ensures SafeThroughout(owner, w, es) <==> NeverConflicts(owner, w, es)
    decreases |es|
  {
    hide Step, CanHappen, Honest, Sound, OneSession, Conflicts, SafeNow;
    OneSessionIsSafe(owner, w);
    if es != [] {
      StepIsOneExactly(owner, w, es[0]);
      StepIsSound(w, es[0]);
      if Conflicts(owner, w, es[0]) {
        ConflictIsUnsafe(owner, w, es[0]);
      } else {
        RunIsSafeExactly(owner, Step(w, es[0]), es[1..]);
      }
    }
  }

  /** The user left in storage, if it can be let in, owns the token left beside it. */
  predicate StoredAsOne(owner: Owners, storedRefresh: Option<string>, storedUser: Option<Json>) {
    Truthy(storedRefresh) && storedUser.Some? ==>
      var u := NormalizeUser(storedUser.value);
      u.Some? && Admitted(u.value) ==> u.value.id == owner(storedRefresh.value)
  }

  lemma MountedIsOneExactly(owner: Owners, storedRefresh: Option<string>, storedUser: Option<Json>, live: set<string>,
                            known: set<string>, wire: set<string>)
    ensures var w := Mounted(storedRefresh, storedUser, live, known, wire);
            && (OneSession(owner, w) <==> StoredAsOne(owner, storedRefresh, storedUser))
            && (!StoredAsOne(owner, storedRefresh, storedUser) ==>
                  0 in w.ops && w.ops[0].RefreshSent? && !OffersOnly(w.local, owner(w.ops[0].token)))
  {
    hide NormalizeUser, Admitted;
    var w := Mounted(storedRefresh, storedUser, live, known, wire);
    if Truthy(storedRefresh) {
      assert w.ops == map[0 := RefreshSent(ByLoad, storedRefresh.value, None)];
      assert OffersOnly(w.local, owner(storedRefresh.value)) <==> StoredAsOne(owner, storedRefresh, storedUser);
    } else {
      assert w.ops == map[];
    }
  }

  /**
   From a mounted page on, with a server that answers a token with data of its owner only: the user shown owns the
   tokens at every moment of the run, however any one operation then under way is answered, exactly when the user and
   the token left in storage are of one user and no step of the run puts a user in place while a refresh or a password
   change of another waits for its answer.
   */
  lemma OwnershipExactly(owner: Owners, storedRefresh: Option<string>, storedUser: Option<Json>, live: set<string>,
                         known: set<string>, wire: set<string>, es: seq<Event>)
    requires IsHonestRun(owner, Mounted(storedRefresh, storedUser, live, known, wire), es)
    requires forall t :: owner(t) != ""
    ensures var w := Mounted(storedRefresh, storedUser, live, known, wire);
            SafeThroughout(owner, w, es)
            <==> StoredAsOne(owner, storedRefresh, storedUser) && NeverConflicts(owner, w, es)
  {
    hide Mounted, IsHonestRun, OneSession, StoredAsOne, NeverConflicts, Sound, AnswersAreSafe, OffersOnly;
    var w := Mounted(storedRefresh, storedUser, live, known, wire);
    MountedIsSound(storedRefresh, storedUser, live, known, wire);
    MountedIsOneExactly(owner, storedRefresh, storedUser, live, known, wire);
    if OneSession(owner, w) {
      RunIsSafeExactly(owner, w, es);
    } else {
      RefreshCanMix(owner, w, 0);
    }
  }

  // ---- a condition on logins alone ----

  /** The token whose owner an operation under way acts for, if it bears on the session. */
  function ActsFor(op: Op): Option<string> {
    match op
    case RefreshSent(_, token, _) => Some(token)
    case ProfileSent(_, _, access, _, _) => Some(access)
    case _ => PasswordBearer(op)
  }

  /** A login that succeeds while a refresh or a password change is under way is by that operation's own user. */
  predicate LoginAgrees(owner: Owners, w: World, e: Event)
    requires CanHappen(w, e)
  {
    e.LoginAnswered? && PutInPlace(w, e).Some? ==>
      forall id | id in w.ops && ActsFor(w.ops[id]).Some? ::
        owner(ActsFor(w.ops[id]).value) == PutInPlace(w, e).value.id
  }

  predicate LoginsAgree(owner: Owners, w: World, es: seq<Event>)
    requires IsHonestRun(owner, w, es)
    decreases |es|
  {
    es != [] ==> LoginAgrees(owner, w, es[0]) && LoginsAgree(owner, Step(w, es[0]), es[1..])
  }

  /** The session and everything under way that bears on it are of one user. */
  predicate OneUser(owner: Owners, w: World, id: string) {
    && (Truthy(w.local.storedRefresh) ==> owner(w.local.storedRefresh.value) == id)
    && (w.local.access.Some? ==> owner(w.local.access.value) == id)
    && (forall i | i in w.ops && ActsFor(w.ops[i]).Some? :: owner(ActsFor(w.ops[i]).value) == id)
  }

  lemma OneUserNeverConflicts(owner: Owners, w: World, e: Event, id: string)
    requires CanHappen(w, e) && Honest(owner, w, e) && Sound(w) && OneSession(owner, w) && OneUser(owner, w, id)
    requires LoginAgrees(owner, w, e)
    ensures !Conflicts(owner, w, e)
    ensures !e.LoginAnswered? && PutInPlace(w, e).Some? ==> PutInPlace(w, e).value.id == id
  {
    hide ParsedLogin, ParsedProfile, ParsedRefresh, ParseMe, Admitted, Restorable, Sound, LocalIsOne, NormalizeUser;
    if e.ProfileAnswered? || e.CallAnswered? {
      assert OpIsOne(owner, w.local, w.ops[e.id]);
    }
  }

  lemma OneUserLogin(owner: Owners, w: World, id: Id, reply: Option<LoginReply>, who: string)
    requires id in w.ops && w.ops[id].LoginSent? && HonestLogin(owner, reply) && OneUser(owner, w, who)
    requires reply.Some? && Admitted(reply.value.user) ==>
               forall i | i in w.ops && ActsFor(w.ops[i]).Some? :: owner(ActsFor(w.ops[i]).value) == reply.value.user.id
    ensures var next := if reply.Some? && Admitted(reply.value.user) then reply.value.user.id else who;
            OneUser(owner, OnLoginReply(w, id, reply), next)
  {
    hide Admitted, UserJson;
  }

  lemma OneUserRefresh(owner: Owners, w: World, id: Id, reply: Option<RefreshReply>, who: string)
    requires id in w.ops && w.ops[id].RefreshSent? && HonestRefresh(owner, w.ops[id].token, reply)
    requires OneUser(owner, w, who)
    ensures OneUser(owner, OnRefreshReply(w, id, reply), who)
  {
    hide Fallback;
  }

  lemma OneUserProfile(owner: Owners, w: World, id: Id, me: Option<User>, who: string)
    requires id in w.ops && w.ops[id].ProfileSent? && OpIsOne(owner, w.local, w.ops[id]) && OneUser(owner, w, who)
    ensures OneUser(owner, OnProfileReply(w, id, me), who)
  {
    hide Admitted, UserJson;
  }

  lemma OneUserCall(owner: Owners, w: World, id: Id, reply: CallReply, who: string)
    requires id in w.ops && w.ops[id].CallSent? && OneUser(owner, w, who)
    ensures OneUser(owner, OnCallReply(w, id, reply), who)
  {
    hide Admitted, UserJson, ParseMe;
  }

  lemma OneUserOther(owner: Owners, w: World, e: Event, who: string)
    requires CanHappen(w, e) && Sound(w) && OneUser(owner, w, who)
    requires !e.LoginAnswered? && !e.RefreshAnswered? && !e.ProfileAnswered? && !e.CallAnswered?
    ensures OneUser(owner, Step(w, e), who)
  {
    hide Admitted, UserJson;
  }

  lemma OneUserStep(owner: Owners, w: World, e: Event, who: string) returns (next: string)
    requires CanHappen(w, e) && Honest(owner, w, e) && Sound(w) && OneSession(owner, w) && OneUser(owner, w, who)
    requires LoginAgrees(owner, w, e)
    ensures OneUser(owner, Step(w, e), next)
  {
    next := who;
    hide ParsedLogin, ParsedProfile, ParseMe, ParsedRefresh, Admitted, OneUser, Sound, OpIsOne, LocalIsOne;
    match e
    case LoginAnswered(id, body) =>
      next := if PutInPlace(w, e).Some? then PutInPlace(w, e).value.id else who;
      OneUserLogin(owner, w, id, ParsedLogin(body), who);
    case RefreshAnswered(id, body) => OneUserRefresh(owner, w, id, ParsedRefresh(body), who);
    case ProfileAnswered(id, body) => OneUserProfile(owner, w, id, ParsedProfile(body), who);
    case CallAnswered(id, reply) => OneUserCall(owner, w, id, reply, who);
    case Load(_) => OneUserOther(owner, w, e, who);
    case Tick(_) => OneUserOther(owner, w, e, who);
    case StartLogin(_) => OneUserOther(owner, w, e, who);
    case StartCall(_, _) => OneUserOther(owner, w, e, who);
    case Logout(_) => OneUserOther(owner, w, e, who);
    case FailureCaught(_) => OneUserOther(owner, w, e, who);
    case DoneResumed(_) => OneUserOther(owner, w, e, who);
    case LogoutAnswered(_) => OneUserOther(owner, w, e, who);
    case ServerRotates(_, _) => OneUserOther(owner, w, e, who);
    case ServerLogsIn(_, _) => OneUserOther(owner, w, e, who);
    case ServerRevokes(_) => OneUserOther(owner, w, e, who);
  }

  lemma {:induction false} AgreeingLoginsNeverConflict(owner: Owners, w: World, es: seq<Event>, who: string)
    requires IsHonestRun(owner, w, es) && LoginsAgree(owner, w, es)
    requires Sound(w) && OneSession(owner, w) && OneUser(owner, w, who)
    ensures NeverConflicts(owner, w, es)
    decreases |es|
  {
    hide Step, CanHappen, Honest, Sound, OneSession, OneUser, Conflicts, LoginAgrees;
    if es != [] {
      OneUserNeverConflicts(owner, w, es[0], who);
      var next := OneUserStep(owner, w, es[0], who);
      StepIsOneExactly(owner, w, es[0]);
      StepIsSound(w, es[0]);
      AgreeingLoginsNeverConflict(owner, Step(w, es[0]), es[1..], next);
    }
  }

  /**
   So it is enough that what was left in storage is of one user and that every login that succeeds while a refresh or a
   password change is under way is by that operation's own user.
   */
  lemma AgreeingLoginsAreSafe(owner: Owners, storedRefresh: Option<string>, storedUser: Option<Json>, live: set<string>,
                              known: set<string>, wire: set<string>, es: seq<Event>)
    requires IsHonestRun(owner, Mounted(storedRefresh, storedUser, live, known, wire), es)
    requires LoginsAgree(owner, Mounted(storedRefresh, storedUser, live, known, wire), es)
    requires StoredAsOne(owner, storedRefresh, storedUser) && forall t :: owner(t) != ""
    ensures SafeThroughout(owner, Mounted(storedRefresh, storedUser, live, known, wire), es)
  {
    var w := Mounted(storedRefresh, storedUser, live, known, wire);
    var who := owner(storedRefresh.GetOr(""));
    assert OneUser(owner, w, who);
    hide Mounted, IsHonestRun, OneSession, StoredAsOne, NeverConflicts, Sound, LoginsAgree, SafeThroughout, OneUser;
    MountedIsSound(storedRefresh, storedUser, live, known, wire);
    MountedIsOneExactly(owner, storedRefresh, storedUser, live, known, wire);
    AgreeingLoginsNeverConflict(owner, w, es, who);
    OwnershipExactly(owner, storedRefresh, storedUser, live, known, wire, es);
  }
}
