/** How one user comes to be shown over the tokens of another. */
module SessionMixups {
  import opened Wrappers
  import opened Json
  import opened Users
  import opened ServerReplies
  import opened Session
  import opened SessionSafety
  import opened SessionOwner

  /** The first user has logged out and the second has sent a login. */
  function BetweenUsers(w: World, logout: Id, login: Id): (between: World)
    requires logout !in w.ops && login !in w.ops && login != logout
    ensures login in between.ops && between.ops[login] == LoginSent(None) && between.local == Cleared(w.local)
    ensures forall i | i in w.ops :: i in between.ops && between.ops[i] == w.ops[i]
  {
    Step(Step(w, Logout(logout)), StartLogin(login))
  }

  /** The second login has been answered; what was under way before stays under way. */
  function SwitchUsers(w: World, logout: Id, login: Id, body: Option<Json>): (next: World)
    requires logout !in w.ops && login !in w.ops && login != logout
    ensures forall i | i in w.ops :: i in next.ops && next.ops[i] == w.ops[i]
  {
    OnLoginReply(BetweenUsers(w, logout, login), login, ParsedLogin(body))
  }

  lemma SwitchedUsers(w: World, logout: Id, login: Id, body: Option<Json>)
    requires logout !in w.ops && login !in w.ops && login != logout
    requires ParsedLogin(body).Some? && Admitted(ParsedLogin(body).value.user)
    ensures var reply := ParsedLogin(body).value;
            SwitchUsers(w, logout, login, body).local
            == Applied(Cleared(w.local), reply.access, reply.refresh, reply.user)
  {
    hide BetweenUsers, ParsedLogin, Admitted, UserJson, Applied;
  }

  lemma PasswordAnswered(owner: Owners, l: Local, access: string, refresh: string, user: User, answer: Json)
    requires access != "" && refresh != "" && Admitted(user)
    requires owner(access) == owner(refresh) == user.id
    requires ParseMe(answer).Some? && Admitted(ParseMe(answer).value) && ParseMe(answer).value.id != user.id
    ensures var before := Applied(l, access, refresh, user);
            var after := AfterCall(before, PasswordChange, answer);
            && UserOwnsTokens(owner, before)
            && after.user == ParseMe(answer) && after.access == Some(access)
            && SignedIn(after) && !UserOwnsTokens(owner, after)
  {
    hide ParseMe, Admitted, UserJson;
  }

  /**
   A password change asked for in the first session and answered in the second: the first user is shown over the second
   one's tokens, and stored, and the session still looks complete.
   */
  lemma LatePasswordChangeMixes(owner: Owners, w: World, call: Id, logout: Id, login: Id, body: Option<Json>,
                                answer: Json)
    requires call in w.ops && w.ops[call].CallSent? && w.ops[call].purpose.PasswordChange?
    requires logout !in w.ops && login !in w.ops && login != logout
    requires ParsedLogin(body).Some? && Admitted(ParsedLogin(body).value.user) && HonestLogin(owner, ParsedLogin(body))
    requires ParseMe(answer).Some? && Admitted(ParseMe(answer).value)
    requires ParseMe(answer).value.id != ParsedLogin(body).value.user.id
    ensures var second := SwitchUsers(w, logout, login, body);
            var mixed := OnCallReply(second, call, Answered(answer)).local;
            && UserOwnsTokens(owner, second.local)
            && mixed.user == ParseMe(answer) && mixed.access == Some(ParsedLogin(body).value.access)
            && SignedIn(mixed) && !UserOwnsTokens(owner, mixed)
  {
    hide ParsedLogin, ParseMe, Admitted, UserJson, SwitchUsers, Applied, AfterCall, SignedIn, UserOwnsTokens, Step;
    SwitchedUsers(w, logout, login, body);
    ParsedTokens(body);
    var reply := ParsedLogin(body).value;
    PasswordAnswered(owner, Cleared(w.local), reply.access, reply.refresh, reply.user, answer);
  }

  /** Any two users whose data can be read, in the answers a server writes, are mixed up in this way. */
  lemma AnyTwoUsersMix(owner: Owners, w: World, call: Id, logout: Id, login: Id, first: User, second: LoginReply)
    requires call in w.ops && w.ops[call].CallSent? && w.ops[call].purpose.PasswordChange?
    requires logout !in w.ops && login !in w.ops && login != logout
    requires Understood(Some(first)) == Some(first) && Understood(Some(second.user)) == Some(second.user)
    requires Admitted(first) && Admitted(second.user) && first.id != second.user.id
    requires second.access != "" && second.refresh != ""
    requires owner(second.access) == owner(second.refresh) == second.user.id
    ensures var fields := ReplyFields(second.access, Some(second.refresh), Some(second.user), false);
            var switched := SwitchUsers(w, logout, login, Some(Enveloped(false, fields)));
            var mixed := OnCallReply(switched, call, Answered(Enveloped(false, UserField(Some(first))))).local;
            && switched.local.user == Some(second.user) && switched.local.access == Some(second.access)
            && mixed.user == Some(first) && mixed.access == Some(second.access) && !UserOwnsTokens(owner, mixed)
  {
    LoginReplyReads(second, false, false);
    ProfileReads(first, false, true);
    hide Admitted, Understood, ReplyFields, Enveloped, UserField, SwitchUsers, ParseLogin, ParseMe, UserOwnsTokens;
    hide UserJson;
    var body := Some(Enveloped(false, ReplyFields(second.access, Some(second.refresh), Some(second.user), false)));
    assert ParsedLogin(body) == Some(second);
    SwitchedUsers(w, logout, login, body);
    LatePasswordChangeMixes(owner, w, call, logout, login, body, Enveloped(false, UserField(Some(first))));
  }

  lemma FallsBackOnStored(owner: Owners, l: Local, user: User, reply: RefreshReply)
    requires l.storedUser == Some(UserJson(user)) && NormalizeUser(UserJson(user)) == Some(user)
    requires reply.user.None?
    ensures Fallback(l, reply) == Some(user)
  {
    hide UserJson, NormalizeUser;
  }

  /**
   A refresh of the first session that is answered in the second, without a user and with its profile lost: it falls
   back on the second user, who is in storage, and shows that user over the first one's tokens.
   */
  lemma StaleRefreshMixes(owner: Owners, w: World, refresh: Id, logout: Id, login: Id, body: Option<Json>,
                          reply: RefreshReply)
    requires refresh in w.ops && w.ops[refresh].RefreshSent?
    requires logout !in w.ops && login !in w.ops && login != logout
    requires ParsedLogin(body).Some? && Admitted(ParsedLogin(body).value.user)
    requires NormalizeUser(UserJson(ParsedLogin(body).value.user)) == Some(ParsedLogin(body).value.user)
    requires reply.user.None? && HonestRefresh(owner, w.ops[refresh].token, Some(reply))
    requires owner(w.ops[refresh].token) != ParsedLogin(body).value.user.id
    ensures var second := SwitchUsers(w, logout, login, body);
            var mixed := OnProfileReply(OnRefreshReply(second, refresh, Some(reply)), refresh, None).local;
            mixed.user == Some(ParsedLogin(body).value.user) && !UserOwnsTokens(owner, mixed)
  {
    hide ParsedLogin, Admitted, UserJson, NormalizeUser, SwitchUsers, Step, Fallback;
    SwitchedUsers(w, logout, login, body);
    FallsBackOnStored(owner, SwitchUsers(w, logout, login, body).local, ParsedLogin(body).value.user, reply);
  }
}
