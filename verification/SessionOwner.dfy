/**
 Whose session it is. Every token belongs to the user it was issued to, and an honest server answers a token with data
 of its owner only. Nothing in the code ties an answer to the session in which it was asked for, so the user shown can
 come to stand over the tokens of another. This module proves exactly when that is ruled out.
 */
module SessionOwner {
  import opened Wrappers
  import opened Json
  import opened Users
  import opened ServerReplies
  import opened Session
  import opened SessionSafety
  import opened SessionLifecycle

  /** The id of the user a token was issued to. */
  type Owners = string -> string

  // ---- honest answers ----

  predicate HonestLogin(owner: Owners, reply: Option<LoginReply>) {
    reply.Some? ==> owner(reply.value.access) == owner(reply.value.refresh) == reply.value.user.id
  }

  predicate HonestRefresh(owner: Owners, token: string, reply: Option<RefreshReply>) {
    reply.Some? ==>
      && owner(reply.value.access) == owner(token)
      && (reply.value.refresh.Some? ==>
            reply.value.refresh.value != "" && owner(reply.value.refresh.value) == owner(token))
      && (reply.value.user.Some? ==> reply.value.user.value.id == owner(token))
  }

  /** The user named in the answer to a token, if any, is its owner. */
  predicate HonestUser(owner: Owners, token: Option<string>, user: Option<User>) {
    token.Some? && user.Some? ==> user.value.id == owner(token.value)
  }

  predicate Honest(owner: Owners, w: World, e: Event)
    requires CanHappen(w, e)
  {
    match e
    case LoginAnswered(_, body) => HonestLogin(owner, ParsedLogin(body))
    case RefreshAnswered(id, body) => HonestRefresh(owner, w.ops[id].token, ParsedRefresh(body))
    case ProfileAnswered(id, body) => HonestUser(owner, Some(w.ops[id].access), ParsedProfile(body))
    case CallAnswered(id, reply) =>
      w.ops[id].purpose.PasswordChange? && reply.Answered? ==>
        HonestUser(owner, w.ops[id].bearer, ParseMe(reply.body))
    case _ => true
  }

  predicate IsHonestRun(owner: Owners, w: World, es: seq<Event>)
    decreases |es|
  {
    es == [] || (CanHappen(w, es[0]) && Honest(owner, w, es[0]) && IsHonestRun(owner, Step(w, es[0]), es[1..]))
  }

  lemma {:induction false} HonestRunIsRun(owner: Owners, w: World, es: seq<Event>)
    requires IsHonestRun(owner, w, es)
    ensures IsRun(w, es)
    decreases |es|
  {
    hide CanHappen, Step, Honest;
    if es != [] { HonestRunIsRun(owner, Step(w, es[0]), es[1..]); }
  }

  // ---- user and tokens of one session ----

  predicate UserOwnsTokens(owner: Owners, l: Local) {
    l.user.Some? ==>
      && l.access.Some? && owner(l.access.value) == l.user.value.id
      && l.refresh.Some? && owner(l.refresh.value) == l.user.value.id
  }

  /** The user a refresh would fall back on from storage and let in. */
  function Offered(l: Local): Option<User> {
    var u := StoredUser(l);
    if u.Some? && Admitted(u.value) then u else None
  }

  predicate OffersOnly(l: Local, id: string) {
    Offered(l).Some? ==> Offered(l).value.id == id
  }

  /** The access token an open password change is answered for, or will be when it is repeated. */
  function PasswordBearer(op: Op): Option<string> {
    match op
    case CallSent(purpose, _, bearer) => if purpose.PasswordChange? then bearer else None
    case RefreshDone(caller, result) =>
      if caller == ByCall(PasswordChange) && Truthy(result) then result else None
    case _ => None
  }

  /** What is in memory and in storage belongs to one user. */
  predicate LocalIsOne(owner: Owners, l: Local) {
    && UserOwnsTokens(owner, l) && l.refresh != Some("")
    && (Truthy(l.storedRefresh) ==> OffersOnly(l, owner(l.storedRefresh.value)))
  }

  /** An operation under way goes with the session: what it brings, or meets when it is answered, is of one user. */
  predicate OpIsOne(owner: Owners, l: Local, op: Op) {
    match op
    case RefreshSent(_, token, _) => OffersOnly(l, owner(token))
    case ProfileSent(_, _, access, next, fallback) =>
      && next != "" && owner(next) == owner(access)
      && (fallback.Some? && Admitted(fallback.value) ==> fallback.value.id == owner(access))
    case _ => BearerIsOne(owner, l, op)
  }

  predicate BearerIsOne(owner: Owners, l: Local, op: Op) {
    && (op.CallSent? && op.purpose.PasswordChange? ==> op.bearer.Some?)
    && (PasswordBearer(op).Some? && l.access.Some? ==> owner(PasswordBearer(op).value) == owner(l.access.value))
  }

  predicate OneSession(owner: Owners, w: World) {
    && LocalIsOne(owner, w.local)
    && forall id | id in w.ops :: OpIsOne(owner, w.local, w.ops[id])
  }

  // ---- steps that replace the session ----

  /** The user a step puts in place. */
  function PutInPlace(w: World, e: Event): Option<User>
    requires CanHappen(w, e)
  {
    match e
    case LoginAnswered(_, body) =>
      var reply := ParsedLogin(body);
      if reply.Some? && Admitted(reply.value.user) then Some(reply.value.user) else None
    case ProfileAnswered(id, body) =>
      var user := OrElse(ParsedProfile(body), w.ops[id].fallback);
      if user.Some? && Admitted(user.value) then user else None
    case CallAnswered(id, reply) =>
      if w.ops[id].purpose.PasswordChange? && reply.Answered? && Truthy(w.local.storedRefresh) then
        var user := ParseMe(reply.body);
        if user.Some? && Admitted(user.value) then user else None
      else None
    case _ => None
  }

  /** The stored copy of the user can be read back and let in; only a blank e-mail stands in the way. */
  predicate Restorable(u: User) {
    var read := NormalizeUser(UserJson(u));
    read.Some? && Admitted(read.value)
  }

  /** A refresh begun, or a password change sent, with the token of somebody else. */
  predicate OfAnother(owner: Owners, op: Op, u: User) {
    if op.RefreshSent? then owner(op.token) != u.id && Restorable(u)
    else PasswordBearer(op).Some? && owner(PasswordBearer(op).value) != u.id
  }

  /** The step puts a user in place while a refresh or a password change of another user waits for its answer. */
  predicate Conflicts(owner: Owners, w: World, e: Event)
    requires CanHappen(w, e)
  {
    var u := PutInPlace(w, e);
    u.Some? && exists id | id in w.ops && !Resumes(e, id) :: OfAnother(owner, w.ops[id], u.value)
  }

  predicate NeverConflicts(owner: Owners, w: World, es: seq<Event>)
    requires IsHonestRun(owner, w, es)
    decreases |es|
  {
    es != [] ==> !Conflicts(owner, w, es[0]) && NeverConflicts(owner, Step(w, es[0]), es[1..])
  }

  // ---- one step ----

  lemma ReadBackKeepsId(u: User)
    ensures NormalizeUser(UserJson(u)).Some? ==> NormalizeUser(UserJson(u)).value.id == u.id
  {
    hide UserJson, Lookup, NormalizeRole, NormalizeStatus;
    StoredPicks(u);
    StoredFields(u);
    UserIsObject(u);
  }

  lemma OffersStored(l: Local, u: User)
    requires l.storedUser == Some(UserJson(u))
    ensures OffersOnly(l, u.id)
    ensures Offered(l).Some? <==> Restorable(u)
  {
    hide UserJson, NormalizeUser, Admitted;
    ReadBackKeepsId(u);
  }

  /** A refresh's own answers leave it, and what it puts in place, in one piece, whatever the others are up to. */
  lemma RefreshOwnStep(owner: Owners, w: World, id: Id, reply: Option<RefreshReply>)
    requires id in w.ops && w.ops[id].RefreshSent? && w.ops[id].token != ""
    requires HonestRefresh(owner, w.ops[id].token, reply) && OpIsOne(owner, w.local, w.ops[id])
    ensures var next := OnRefreshReply(w, id, reply);
            next.local == w.local && id in next.ops && OpIsOne(owner, next.local, next.ops[id])
  {
    hide UserJson, NormalizeUser, Admitted;
    if reply.Some? && reply.value.user.Some? { ReadBackKeepsId(reply.value.user.value); }
  }

  lemma AppliedIsOne(owner: Owners, l: Local, access: string, refresh: string, user: User)
    requires refresh != "" && owner(access) == owner(refresh) == user.id
    ensures LocalIsOne(owner, Applied(l, access, refresh, user))
    ensures OffersOnly(Applied(l, access, refresh, user), user.id)
    ensures Offered(Applied(l, access, refresh, user)).Some? <==> Restorable(user)
  {
    hide UserJson, Offered, Restorable;
    OffersStored(Applied(l, access, refresh, user), user);
  }

  lemma ProfileOwnStep(owner: Owners, w: World, id: Id, me: Option<User>)
    requires id in w.ops && w.ops[id].ProfileSent? && HonestUser(owner, Some(w.ops[id].access), me)
    requires LocalIsOne(owner, w.local) && OpIsOne(owner, w.local, w.ops[id])
    ensures var next := OnProfileReply(w, id, me);
            LocalIsOne(owner, next.local) && id in next.ops && OpIsOne(owner, next.local, next.ops[id])
  {
    hide UserJson, Admitted, Offered, LocalIsOne;
    var op := w.ops[id];
    var user := OrElse(me, op.fallback);
    if user.Some? && Admitted(user.value) {
      AppliedIsOne(owner, w.local, op.access, op.next, user.value);
    }
  }

  lemma ChangeAnswered(owner: Owners, l: Local, bearer: string, body: Json)
    requires LocalIsOne(owner, l) && (l.storedRefresh.Some? ==> SignedIn(l) && owner(bearer) == owner(l.access.value))
    requires HonestUser(owner, Some(bearer), ParseMe(body))
    ensures LocalIsOne(owner, AfterCall(l, PasswordChange, body))
  {
    hide UserJson, Admitted, ParseMe, Offered;
    var user := ParseMe(body);
    if user.Some? && Admitted(user.value) && Truthy(l.storedRefresh) {
      OffersStored(AfterCall(l, PasswordChange, body), user.value);
    }
  }

  lemma CallOwnStep(owner: Owners, w: World, id: Id, reply: CallReply)
    requires id in w.ops && w.ops[id].CallSent? && LocalIsOne(owner, w.local) && OpIsOne(owner, w.local, w.ops[id])
    requires w.ops[id].purpose.PasswordChange? && w.local.storedRefresh.Some? ==> SignedIn(w.local)
    requires w.ops[id].purpose.PasswordChange? && reply.Answered? ==>
               HonestUser(owner, w.ops[id].bearer, ParseMe(reply.body))
    ensures var next := OnCallReply(w, id, reply);
            && LocalIsOne(owner, next.local)
            && (id in next.ops ==> OpIsOne(owner, next.local, next.ops[id]))
  {
    hide UserJson, Admitted, ParseMe, Offered;
    if reply.Answered? {
      if w.ops[id].purpose.PasswordChange? {
        hide AfterCall, LocalIsOne;
        ChangeAnswered(owner, w.local, w.ops[id].bearer.value, reply.body);
      }
    }
  }

  /** Nothing put in place: memory and storage are as before, or emptied. */
  predicate NothingNew(l: Local, next: Local) {
    || (next.user == l.user && next.access == l.access && next.storedUser == l.storedUser
        && next.storedRefresh == l.storedRefresh && (next.refresh == l.refresh || next.refresh == l.storedRefresh))
    || next == Cleared(next)
  }

  lemma NothingNewIsOne(owner: Owners, l: Local, next: Local, op: Op)
    requires NothingNew(l, next)
    ensures OpIsOne(owner, l, op) ==> OpIsOne(owner, next, op)
    ensures LocalIsOne(owner, l) && Whole(l) ==> LocalIsOne(owner, next)
  {
    hide UserJson, Admitted, NormalizeUser;
  }

  /** A user put in place: it is shown over the tokens, and its copy is in storage. */
  predicate InPlace(l: Local, u: User) {
    l.user == Some(u) && l.storedUser == Some(UserJson(u)) && l.access.Some?
  }

  lemma StepPuts(w: World, e: Event)
    requires CanHappen(w, e) && Sound(w)
    ensures PutInPlace(w, e).Some? ==> InPlace(Step(w, e).local, PutInPlace(w, e).value)
    ensures PutInPlace(w, e).None? ==> NothingNew(w.local, Step(w, e).local)
  {
    hide UserJson, Admitted, ParsedRefresh, ParsedProfile, ParsedLogin, ParseMe, Fallback;
    if e.CallAnswered? && w.ops[e.id].purpose.PasswordChange? { assert ChangesPassword(w.ops[e.id]); }
  }

  /** Another operation stays as it is; it goes with the new session unless the user put in place is not its own. */
  lemma OthersStep(owner: Owners, w: World, e: Event, j: Id)
    requires CanHappen(w, e) && Sound(w) && j in w.ops && !Resumes(e, j)
    requires OpIsOne(owner, w.local, w.ops[j]) && LocalIsOne(owner, Step(w, e).local)
    ensures j in Step(w, e).ops
    ensures OpIsOne(owner, Step(w, e).local, Step(w, e).ops[j])
            <==> !(PutInPlace(w, e).Some? && OfAnother(owner, w.ops[j], PutInPlace(w, e).value))
    ensures PutInPlace(w, e).Some? && OfAnother(owner, w.ops[j], PutInPlace(w, e).value) ==>
              Step(w, e).ops[j].RefreshSent? || PasswordBearer(Step(w, e).ops[j]).Some?
  {
    var next := Step(w, e);
    StepPuts(w, e);
    OthersUnmoved(w, e, j);
    hide Step, PutInPlace, CanHappen, Sound, UserJson, Resumes;
    var u := PutInPlace(w, e);
    if u.Some? {
      OffersStored(next.local, u.value);
      PlacedOver(owner, next.local, u.value, w.ops[j]);
    } else {
      NothingNewIsOne(owner, w.local, next.local, w.ops[j]);
    }
    SameButIssued(owner, next.local, w.ops[j], next.ops[j]);
  }

  /** The same operation, but for a token the server may have issued for it. */
  predicate Unmoved(a: Op, b: Op) {
    if a.RefreshSent? then b.RefreshSent? && b.token == a.token else if a.LoginSent? then b.LoginSent? else b == a
  }

  lemma OthersUnmoved(w: World, e: Event, j: Id)
    requires CanHappen(w, e) && j in w.ops && !Resumes(e, j)
    ensures j in Step(w, e).ops && Unmoved(w.ops[j], Step(w, e).ops[j])
  {
    hide ParsedRefresh, ParsedProfile, ParsedLogin, ParseMe, Admitted, UserJson, NormalizeUser, Cleared, Applied,
      AfterCall, Fallback;
  }

  lemma SameButIssued(owner: Owners, l: Local, a: Op, b: Op)
    requires Unmoved(a, b)
    ensures OpIsOne(owner, l, a) <==> OpIsOne(owner, l, b)
    ensures a.RefreshSent? == b.RefreshSent? && PasswordBearer(a) == PasswordBearer(b)
  {
    hide Offered;
  }

  lemma PlacedOver(owner: Owners, l: Local, u: User, op: Op)
    requires InPlace(l, u) && LocalIsOne(owner, l) && OffersOnly(l, u.id) && (Offered(l).Some? <==> Restorable(u))
    requires op.ProfileSent? ==> OpIsOne(owner, l, op)
    requires op.CallSent? && op.purpose.PasswordChange? ==> op.bearer.Some?
    ensures OpIsOne(owner, l, op) <==> !OfAnother(owner, op, u)
  {
    hide UserJson, Offered, Restorable, Admitted;
  }

  /** The operation whose answer it is. */
  lemma OwnStep(owner: Owners, w: World, e: Event, id: Id)
    requires CanHappen(w, e) && Honest(owner, w, e) && Sound(w) && id in w.ops && Resumes(e, id)
    requires LocalIsOne(owner, w.local) && OpIsOne(owner, w.local, w.ops[id])
    ensures LocalIsOne(owner, Step(w, e).local)
    ensures id in Step(w, e).ops ==> OpIsOne(owner, Step(w, e).local, Step(w, e).ops[id])
  {
    hide ParsedRefresh, ParsedProfile, ParsedLogin, ParseMe, UserJson, LocalIsOne, OpIsOne, Admitted;
    match e
    case RefreshAnswered(_, body) =>
      assert CarriesTokens(w.ops[id]);
      RefreshOwnStep(owner, w, id, ParsedRefresh(body));
    case ProfileAnswered(_, body) => ProfileOwnStep(owner, w, id, ParsedProfile(body));
    case CallAnswered(_, reply) =>
      if w.ops[id].purpose.PasswordChange? { assert ChangesPassword(w.ops[id]); }
      CallOwnStep(owner, w, id, reply);
    case LoginAnswered(_, body) =>
      ParsedTokens(body);
      LoginOwnStep(owner, w, id, ParsedLogin(body));
    case FailureCaught(_) => EndingOwnStep(owner, w, e, id);
    case DoneResumed(_) => EndingOwnStep(owner, w, e, id);
    case LogoutAnswered(_) => EndingOwnStep(owner, w, e, id);
  }

  lemma LoginOwnStep(owner: Owners, w: World, id: Id, reply: Option<LoginReply>)
    requires id in w.ops && w.ops[id].LoginSent? && HonestLogin(owner, reply) && LocalIsOne(owner, w.local)
    requires reply.Some? ==> reply.value.refresh != ""
    ensures LocalIsOne(owner, OnLoginReply(w, id, reply).local) && id !in OnLoginReply(w, id, reply).ops
  {
    hide LocalIsOne, Applied, Admitted, UserJson;
    if reply.Some? {
      AppliedIsOne(owner, w.local, reply.value.access, reply.value.refresh, reply.value.user);
    }
  }

  lemma EndingOwnStep(owner: Owners, w: World, e: Event, id: Id)
    requires CanHappen(w, e) && Sound(w) && id in w.ops && Resumes(e, id)
    requires OpIsOne(owner, w.local, w.ops[id]) && LocalIsOne(owner, w.local)
    requires e.FailureCaught? || e.DoneResumed? || e.LogoutAnswered?
    ensures LocalIsOne(owner, Step(w, e).local)
    ensures id in Step(w, e).ops ==> OpIsOne(owner, Step(w, e).local, Step(w, e).ops[id])
  {
    hide UserJson, Admitted, NormalizeUser;
  }

  /** A new operation goes with the session it begins in. */
  lemma StartStep(owner: Owners, w: World, e: Event, id: Id)
    requires CanHappen(w, e) && Sound(w) && Starts(e, id) && LocalIsOne(owner, w.local)
    ensures LocalIsOne(owner, Step(w, e).local)
    ensures id in Step(w, e).ops ==> OpIsOne(owner, Step(w, e).local, Step(w, e).ops[id])
  {
    hide UserJson, Admitted, NormalizeUser;
  }

  lemma LocalStep(owner: Owners, w: World, e: Event)
    requires CanHappen(w, e) && Honest(owner, w, e) && Sound(w) && OneSession(owner, w)
    ensures LocalIsOne(owner, Step(w, e).local)
  {
    if !e.ServerRotates? && !e.ServerLogsIn? && !e.ServerRevokes? {
      EventConcerns(w, e);
      hide Step, CanHappen, Honest, Sound, LocalIsOne, OpIsOne, Resumes, Starts;
      if Resumes(e, e.id) {
        OwnStep(owner, w, e, e.id);
      } else {
        StartStep(owner, w, e, e.id);
      }
    }
  }

  lemma EventConcerns(w: World, e: Event)
    requires CanHappen(w, e) && !e.ServerRotates? && !e.ServerLogsIn? && !e.ServerRevokes?
    ensures (Resumes(e, e.id) && e.id in w.ops) || Starts(e, e.id)
  {
  }

  /**
   A step keeps everything in one session exactly if it does not put a user in place while a refresh or a password
   change of another waits for its answer.
   */
  lemma StepIsOneExactly(owner: Owners, w: World, e: Event)
    requires CanHappen(w, e) && Honest(owner, w, e) && Sound(w) && OneSession(owner, w)
    ensures LocalIsOne(owner, Step(w, e).local)
    ensures OneSession(owner, Step(w, e)) <==> !Conflicts(owner, w, e)
  {
    LocalStep(owner, w, e);
    hide Step, CanHappen, Honest, Sound, LocalIsOne, OpIsOne, Resumes, Starts, OfAnother, PutInPlace, PasswordBearer;
    var next := Step(w, e);
    forall id | id in w.ops && !Resumes(e, id)
      ensures id in next.ops
      ensures OpIsOne(owner, next.local, next.ops[id])
              <==> !(PutInPlace(w, e).Some? && OfAnother(owner, w.ops[id], PutInPlace(w, e).value))
    {
      OthersStep(owner, w, e, id);
    }
    forall id | id in next.ops && (id !in w.ops || Resumes(e, id)) ensures OpIsOne(owner, next.local, next.ops[id]) {
      if id in w.ops {
        OwnStep(owner, w, e, id);
      } else if Starts(e, id) {
        StartStep(owner, w, e, id);
      } else {
        NotThere(w, e, id);
      }
    }
  }
}
