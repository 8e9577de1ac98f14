/**
 What each operation sends and how it ends, in the words of the protocol: paths, headers, bodies and status codes are
 written out here, and hold of everything `AuthProvider` computes.
 */
module Requests {
  import opened Wrappers
  import opened Text
  import opened Json
  import opened Users
  import opened Session
  import opened SessionSafety
  import opened AuthProvider
  import opened ApiCalls

  // ---- calls ----

  /**
   The request of a call: its own path and body, and as bearer the token it was given, else the session's, unless it is
   made without authentication. An empty token makes no header.
   */
  lemma CallSends(s: State, path: string, body: Json, options: Options, around: Around)
    ensures var t := Fetched(s, path, body, options, around).0;
            && |s.sent| < |t.sent| && t.sent[..|s.sent|] == s.sent
            && var first := t.sent[|s.sent|];
               && first.path == path && first.body == body
               && (options.token.Some? && options.token.value != "" ==> first.bearer == options.token)
               && (options.token == Some("") ==> first.bearer == None)
               && (options.token == None && options.skipAuth ==> first.bearer == None)
               && (options.token == None && !options.skipAuth && s.page.local.moduleToken == Some("") ==>
                     first.bearer == None)
               && (options.token == None && !options.skipAuth && s.page.local.moduleToken != Some("") ==>
                     first.bearer == s.page.local.moduleToken)
  {
    CallTrace(s, path, body, options, around);
    hide Fetched, Told, ErrorMessage;
  }

  /** A signed-in page makes its calls with its access token. */
  lemma SignedInCallSends(s: State, path: string, body: Json, around: Around)
    requires SignedIn(s.page.local)
    ensures var t := Fetched(s, path, body, Options(None, false, false), around).0;
            |s.sent| < |t.sent| && t.sent[|s.sent|] == Request(path, s.page.local.access, body)
  {
    hide Fetched, Admitted, UserJson;
    CallSends(s, path, body, Options(None, false, false), around);
  }

  /** A call without authentication ends by its one answer: data for a status from 200 to 299, an error otherwise. */
  lemma UnauthenticatedCallEnds(s: State, path: string, body: Json, token: Option<string>, around: Around)
    ensures var (t, outcome) := Fetched(s, path, body, Options(token, true, false), around);
            var answer := around.answer(|s.sent|);
            && |t.sent| == |s.sent| + 1 && t.page == around.others(|s.sent|, s.page)
            && (answer.Lost? ==> outcome == Offline)
            && (answer.Reply? && 200 <= answer.status < 300 ==> outcome == Data(answer.data))
            && (answer.Reply? && !(200 <= answer.status < 300) ==>
                  outcome.Refused? && outcome.status == answer.status && outcome.data == answer.data)
  {
    hide ErrorMessage;
  }

  /** The message of an error is the server's own, if it gives one as a string, and names the status otherwise. */
  lemma MessageOfError(fields: Record, message: string, status: nat)
    requires Lookup(fields, "error") == Some(Str(message)) || Lookup(fields, "error") == None
    ensures ErrorMessage(Obj(fields), status)
            == if Lookup(fields, "error") == Some(Str(message)) then message
               else "Request failed with status " + Digits(status)
    ensures ErrorMessage(Null, status) == "Request failed with status " + Digits(status)
    ensures ErrorMessage(Str(message), status) == "Request failed with status " + Digits(status)
    ensures ErrorMessage(Obj([Field("error", Bool(true))]), status) == "Request failed with status " + Digits(status)
  {
    hide Digits;
  }

  /** Only a 401 makes a call refresh. */
  lemma OnlyUnauthorizedRefreshes(s: State, path: string, body: Json, options: Options, around: Around)
    requires around.answer(|s.sent|).Reply? ==> around.answer(|s.sent|).status != 401
    ensures var t := Fetched(s, path, body, options, around).0;
            |t.sent| == |s.sent| + 1 && t.page == around.others(|s.sent|, s.page)
  {
    hide Refreshed, ErrorMessage;
  }

  lemma UnauthorizedRefreshes(s: State, path: string, body: Json, around: Around)
    requires around.answer(|s.sent|).Reply? && around.answer(|s.sent|).status == 401
    requires var page := around.others(|s.sent|, s.page); page.registered && Truthy(page.local.storedRefresh)
    ensures var t := Fetched(s, path, body, Options(None, false, false), around).0;
            var page := around.others(|s.sent|, s.page);
            |t.sent| >= |s.sent| + 2
            && t.sent[|s.sent| + 1] == Request("/auth/refresh", None,
                                               Obj([Field("refresh_token", Str(page.local.storedRefresh.value))]))
  {
    var answered := Exchanged(s, Opening(s, path, body, Options(None, false, false)), around);
    RefreshSends(answered, around);
    hide Refreshed, ErrorMessage, Completed;
  }

  // ---- the refresh ----

  lemma RefreshSends(s: State, around: Around)
    ensures var t := Refreshed(s, around).0;
            var l := s.page.local;
            && (!Truthy(l.storedRefresh) ==> t.sent == s.sent && Refreshed(s, around).1 == Gave(None))
            && (Truthy(l.storedRefresh) ==>
                  var refresh := Request("/auth/refresh", None,
                                         Obj([Field("refresh_token", Str(l.storedRefresh.value))]));
                  var reply := ParsedRefresh(BodyOf(around.answer(|s.sent|)));
                  t.sent == s.sent + [refresh]
                            + if reply.None? then [] else [Request("/auth/me", Some(reply.value.access), Null)])
  {
    hide Applied, Fallback, Admitted, ParsedProfile, Cleared;
    if Truthy(s.page.local.storedRefresh) {
      var reply := ParsedRefresh(BodyOf(around.answer(|s.sent|)));
      if reply.Some? { assert reply.value.access != ""; }
    }
  }

  /**
   The user a refresh installs is the one of the profile, or else the one named in the refresh answer, or else the one
   that was in storage when that answer came.
   */
  lemma RefreshChooses(s: State, around: Around)
    requires Truthy(s.page.local.storedRefresh) && ParsedRefresh(BodyOf(around.answer(|s.sent|))).Some?
    ensures var (t, result) := Refreshed(s, around);
            var n, reply := |s.sent|, ParsedRefresh(BodyOf(around.answer(|s.sent|))).value;
            var during := around.others(n, s.page);
            var after := around.others(n + 1, during).local;
            var me := ParsedProfile(BodyOf(around.answer(n + 1)));
            var named := if reply.user.Some? then NormalizeUser(UserJson(reply.user.value)) else None;
            var stored := if during.local.storedUser.Some? then NormalizeUser(during.local.storedUser.value) else None;
            && (me.Some? && Admitted(me.value) ==> t.page.local.user == me)
            && (me.None? && named.Some? && Admitted(named.value) ==> t.page.local.user == named)
            && (me.None? && named.None? && stored.Some? && Admitted(stored.value) ==> t.page.local.user == stored)
            && (me.Some? && !Admitted(me.value) ==> result.Threw? && t.page.local == after)
            && (me.None? && named.None? && stored.None? ==> result.Threw? && t.page.local == after)
            && (result.Gave? ==>
                  && result.token == Some(reply.access) && t.page.local.access == Some(reply.access)
                  && t.page.local.moduleToken == Some(reply.access)
                  && t.page.local.refresh == (if reply.refresh.Some? then reply.refresh else s.page.local.storedRefresh)
                  && t.page.local.loading == after.loading)
  {
    hide NormalizeUser, UserJson, Admitted, ParsedProfile, ParsedRefresh, BodyOf;
  }

  /** While the page loads, others see the loading flag and the token being tried; a lost answer empties the session. */
  lemma LoadShows(s: State, around: Around)
    ensures var t := Loaded(s, around);
            var l := s.page.local;
            && !t.page.local.loading
            && (!Truthy(l.storedRefresh) ==>
                  t.sent == s.sent && t.page.local == Local(None, None, None, false, None, None, None))
            && (Truthy(l.storedRefresh) ==>
                  var shown := s.(page := s.page.(local := l.(loading := true, refresh := l.storedRefresh)));
                  && |t.sent| > |s.sent| && t.sent == Refreshed(shown, around).0.sent
                  && (Refreshed(shown, around).1.Gave? ==>
                        t.page.local == Refreshed(shown, around).0.page.local.(loading := false))
                  && (Refreshed(shown, around).1.Threw? ==>
                        t.page.local == Local(None, None, None, false, None, None, None))
                  && (around.answer(|s.sent|).Lost? ==>
                        t.page.local == Cleared(around.others(|s.sent|, s.page.(local := l.(loading := true,
                                        refresh := l.storedRefresh))).local).(loading := false)))
  {
    hide Applied, Fallback, Admitted, ParsedProfile;
  }

  /** The interval's refresh ends the session exactly if it throws. */
  lemma TickEnds(s: State, around: Around)
    ensures var (t, (after, result)) := (Ticked(s, around), Refreshed(s, around));
            && t.sent == after.sent && (result.Gave? ==> t == after)
            && (result.Threw? ==> t.page.local == Local(None, None, None, after.page.local.loading, None, None, None))
  {
    hide Refreshed;
  }

  // ---- login, logout, password change ----

  /**
   A login sends the credentials alone and ends well exactly when the answer is readable and its user admitted. It
   throws 403 exactly when the server did, or the user is not admitted, and 401 in every other case.
   */
  lemma LoginEnds(s: State, credentials: Json, around: Around)
    ensures var (t, thrown) := Entered(s, credentials, around);
            var answer := around.answer(|s.sent|);
            var reply := if answer.Reply? && 200 <= answer.status < 300 then ParseLogin(answer.data) else None;
            && t.sent == s.sent + [Request("/auth/login", None, credentials)]
            && (thrown.None? <==> reply.Some? && Admitted(reply.value.user))
            && (thrown == Some(403) <==>
                  (answer.Reply? && answer.status == 403) || (reply.Some? && !Admitted(reply.value.user)))
            && (thrown.Some? && thrown != Some(403) ==> thrown == Some(401))
            && (thrown.Some? ==> t.page == around.others(|s.sent|, s.page))
            && (thrown.None? ==>
                  t.page.local.user == Some(reply.value.user) && t.page.local.access == Some(reply.value.access)
                  && t.page.local.moduleToken == Some(reply.value.access)
                  && t.page.local.refresh == Some(reply.value.refresh)
                  && t.page.local.storedRefresh == Some(reply.value.refresh)
                  && t.page.local.storedUser == Some(UserJson(reply.value.user)))
  {
    hide Admitted, UserJson;
  }

  /** A logout empties the session before anything is sent, and sends the token that was stored, if there was one. */
  lemma LogoutSends(s: State, captured: Option<string>, around: Around)
    ensures var t := LoggedOut(s, captured, around);
            var l := s.page.local;
            var out := s.page.(local := Local(None, None, None, l.loading, None, None, None));
            && (!Truthy(l.storedRefresh) ==> t == s.(page := out))
            && (Truthy(l.storedRefresh) ==>
                  && t.page == around.others(|s.sent|, out)
                  && t.sent == s.sent + [Request("/auth/logout", if Truthy(captured) then captured else None,
                                                 Obj([Field("refresh_token", Str(l.storedRefresh.value))]))])
  {
  }

  /**
   A password change, once answered, shows and stores the user in the answer and touches nothing else; it throws for a
   failed call, an unreadable answer and a user without access. Without a stored token it ends the session instead.
   */
  lemma PasswordChangeEnds(s: State, captured: Option<string>, outcome: Outcome, around: Around)
    requires Truthy(captured)
    ensures var (t, thrown) := Updated(s, captured, outcome, around);
            var user := if outcome.Data? then ParseMe(outcome.data) else None;
            var l := s.page.local;
            && t.sent == s.sent && (thrown <==> user.None? || !Admitted(user.value))
            && (thrown ==> t == s)
            && (!thrown && Truthy(l.storedRefresh) ==>
                  t.page == s.page.(local := l.(user := user, storedUser := Some(UserJson(user.value)))))
            && (!thrown && !Truthy(l.storedRefresh) ==>
                  t.page == s.page.(local := Local(None, None, None, l.loading, None, None, None)))
  {
    hide ParseMe, Admitted, UserJson;
  }

  /** A view without an access token refreshes first, and throws if that throws. */
  lemma PasswordChangeRefreshes(s: State, data: Json, around: Around)
    requires Truthy(s.page.local.storedRefresh) && ParseMe(data).Some? && Admitted(ParseMe(data).value)
    ensures var (t, thrown) := Updated(s, None, Data(data), around);
            var (after, result) := Refreshed(s, around);
            && t.sent == after.sent && (thrown <==> result.Threw?)
            && (thrown ==> t == after)
            && (result.Gave? && Truthy(result.token) ==>
                  t.page.local.user == ParseMe(data) && t.page.local.access == after.page.local.access
                  && t.page.local.storedRefresh == after.page.local.storedRefresh)
  {
    hide ParseMe, Admitted, UserJson, Refreshed;
  }

  /** The path the password change is sent to. */
  lemma PasswordPath(s: State, passwords: Json, around: Around)
    requires SignedIn(s.page.local)
    ensures var t := Fetched(s, PASSWORD_PATH, passwords, PLAIN, around).0;
            |s.sent| < |t.sent|
            && t.sent[|s.sent|] == Request("/auth/change-password", s.page.local.access, passwords)
  {
    hide SignedIn, Fetched;
    SignedInCallSends(s, PASSWORD_PATH, passwords, around);
  }
}
