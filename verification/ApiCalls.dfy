/** What one call of `apiFetch` sends and how it ends, whatever the server answers and whatever goes on meanwhile. */
module ApiCalls {
  import opened Wrappers
  import opened Json
  import opened Users
  import opened Session
  import opened SessionLifecycle
  import opened AuthProvider

  /** What went out between two states. */
  function SentBetween(s: State, t: State): seq<Request> {
    if |s.sent| <= |t.sent| then t.sent[|s.sent|..] else []
  }

  /**
   The request; then at most one refresh, of one or two requests; then at most one repetition, the same but for the
   token, which is the one the profile was asked for with.
   */
  predicate IsCallTrace(trace: seq<Request>, own: Request) {
    && 1 <= |trace| <= 4 && trace[0] == own
    && (|trace| > 1 ==> trace[1].path == REFRESH_PATH && trace[1].bearer.None?)
    && (|trace| > 2 ==> trace[2].path == ME_PATH && trace[2].bearer.Some?)
    && (|trace| > 3 ==> trace[3] == own.(bearer := trace[2].bearer))
  }

  /** The part of a trace that a refresh makes. */
  predicate IsRefreshTrace(trace: seq<Request>) {
    && |trace| <= 2
    && (|trace| > 0 ==> trace[0].path == REFRESH_PATH && trace[0].bearer.None?)
    && (|trace| > 1 ==> trace[1].path == ME_PATH && trace[1].bearer.Some?)
  }

  lemma RefreshTrace(s: State, around: Around)
    ensures var (t, token) := Renewed(s, around);
            var trace := SentBetween(s, t);
            && t.sent == s.sent + trace && IsRefreshTrace(trace)
            && (Truthy(token) ==> |trace| == 2 && trace[1].bearer == token)
            && (Truthy(token) ==> s.page.registered && Truthy(s.page.local.storedRefresh)
                                  && trace[0].body == TokenBody(s.page.local.storedRefresh.value))
  {
    hide Applied, Fallback, Admitted, ParsedProfile, TokenBody, Cleared;
    var (t, result) := Refreshed(s, around);
    if s.page.registered && Truthy(s.page.local.storedRefresh) {
      var answered := Exchanged(s, RefreshRequest(s.page.local.storedRefresh.value), around);
      var reply := ParsedRefresh(BodyOf(AnswerNow(s, around)));
      if reply.Some? {
        assert reply.value.access != "";
        var profile := ProfileRequest(reply.value.access);
        assert t.sent == (s.sent + [RefreshRequest(s.page.local.storedRefresh.value)]) + [profile];
        assert SentBetween(s, t) == [RefreshRequest(s.page.local.storedRefresh.value), profile];
      } else {
        assert SentBetween(s, t) == [RefreshRequest(s.page.local.storedRefresh.value)];
      }
    }
  }

  /**
   A call sends its request at most twice and refreshes at most once; under `skipAuth`, or marked as a repetition, or
   without a 401, it sends it once and refreshes nothing.
   */
  lemma CallTrace(s: State, path: string, body: Json, options: Options, around: Around)
    ensures var (t, outcome) := Fetched(s, path, body, options, around);
            var trace := SentBetween(s, t);
            && t.sent == s.sent + trace
            && IsCallTrace(trace, Opening(s, path, body, options))
            && (options.skipAuth || options.retried || !IsRefusal(AnswerNow(s, around)) ==> |trace| == 1)
            && outcome == Told(around.answer(if |trace| == 4 then |s.sent| + 3 else |s.sent|))
  {
    hide Renewed, ErrorMessage;
    var own := Opening(s, path, body, options);
    var answered := Exchanged(s, own, around);
    var (renewed, token) := Renewed(answered, around);
    var middle := SentBetween(answered, renewed);
    RefreshTrace(answered, around);
    var (t, _) := Fetched(s, path, body, options, around);
    if IsRefusal(AnswerNow(s, around)) && !options.skipAuth && !options.retried {
      if Truthy(token) {
        assert t.sent == s.sent + ([own] + middle + [Request(path, token, body)]);
        assert SentBetween(s, t) == [own] + middle + [Request(path, token, body)];
      } else {
        assert t.sent == s.sent + ([own] + middle);
        assert SentBetween(s, t) == [own] + middle;
      }
    } else {
      assert SentBetween(s, t) == [own];
    }
  }

  /** The refresh after a refusal gives a token exactly when each of its steps succeeds. */
  predicate RefreshGivesToken(s: State, around: Around) {
    && s.page.registered && Truthy(s.page.local.storedRefresh)
    && var reply := ParsedRefresh(BodyOf(AnswerNow(s, around)));
       && reply.Some?
       && var answered := Exchanged(s, RefreshRequest(s.page.local.storedRefresh.value), around);
          var user := OrElse(ParsedProfile(BodyOf(AnswerNow(answered, around))),
                             Fallback(answered.page.local, reply.value));
          user.Some? && Admitted(user.value)
  }

  lemma TokenGivenExactly(s: State, around: Around)
    ensures var (t, token) := Renewed(s, around);
            && (Truthy(token) <==> RefreshGivesToken(s, around))
            && (Truthy(token) ==> t.page.local.access == token && t.page.local.moduleToken == token
                                  && t.page.local.user.Some? && Admitted(t.page.local.user.value))
            && (!Truthy(token) && s.page.registered ==> Empty(t.page.local))
            && (!s.page.registered ==> t == s)
  {
    hide Admitted, UserJson, Fallback, ParsedProfile;
  }

  /**
   A call refused for the first time is repeated exactly when the refresh gives a token, and then it ends as the
   repetition does, a second 401 included, without the session being ended by it. Otherwise it fails with the first
   401, and by then the session is empty, provided the handlers are registered; without them it is left alone.
   */
  lemma RefusalExactly(s: State, path: string, body: Json, options: Options, around: Around)
    requires IsRefusal(AnswerNow(s, around)) && !options.skipAuth && !options.retried
    ensures var (t, outcome) := Fetched(s, path, body, options, around);
            var answered := Exchanged(s, Opening(s, path, body, options), around);
            if RefreshGivesToken(answered, around) then
              var renewed := Renewed(answered, around).0;
              && |SentBetween(s, t)| == 4
              && renewed.page.local.user.Some? && Truthy(renewed.page.local.access)
              && SentBetween(s, t)[3].bearer == renewed.page.local.access
              && t.page == around.others(|s.sent| + 3, renewed.page)
              && outcome == Told(around.answer(|s.sent| + 3))
            else
              && |SentBetween(s, t)| < 4
              && outcome.Refused? && outcome.status == UNAUTHORIZED && outcome.data == AnswerNow(s, around).data
              && (answered.page.registered ==> Empty(t.page.local))
              && (!answered.page.registered ==> t == answered)
  {
    var answered := Exchanged(s, Opening(s, path, body, options), around);
    CallTrace(s, path, body, options, around);
    TokenGivenExactly(answered, around);
    RefreshTrace(answered, around);
    hide Renewed, RefreshGivesToken, ErrorMessage;
  }
}
