/** What the parsers of `lib/auth/auth-api.ts` read from a server's answers, in either spelling and envelope. */
module ServerReplies {
  import opened Wrappers
  import opened Json
  import opened Users

  /** An answer by itself, or under `data`. */
  function Enveloped(wrapped: bool, fields: Record): Json {
    if wrapped then Obj([Field("data", Obj(fields))]) else Obj(fields)
  }

  function AccessKey(camel: bool): string {
    if camel then "accessToken" else "access_token"
  }

  function RefreshKey(camel: bool): string {
    if camel then "refreshToken" else "refresh_token"
  }

  function TokenField(key: string, token: Option<string>): Record {
    if token.Some? then [Field(key, Str(token.value))] else []
  }

  function UserField(user: Option<User>): Record {
    if user.Some? then [Field("user", UserJson(user.value))] else []
  }

  function ReplyFields(access: string, refresh: Option<string>, user: Option<User>, camel: bool): Record {
    TokenField(AccessKey(camel), Some(access)) + (TokenField(RefreshKey(camel), refresh) + UserField(user))
  }

  /** The user as the other side of the wire understands it. */
  function Understood(user: Option<User>): Option<User> {
    if user.Some? then NormalizeUser(UserJson(user.value)) else None
  }

  lemma LookupFirst(first: Record, rest: Record, key: string)
    requires |first| <= 1
    ensures Lookup(first + rest, key)
            == if first != [] && first[0].key == key then Some(first[0].value) else Lookup(rest, key)
  {
    if first == [] {
      assert first + rest == rest;
    } else {
      assert (first + rest)[1..] == rest;
    }
  }

  lemma KeysDiffer(camel: bool)
    ensures AccessKey(camel) != RefreshKey(camel)
    ensures forall c :: AccessKey(c) != "user" && AccessKey(c) != "data"
    ensures forall c :: RefreshKey(c) != "user" && RefreshKey(c) != "data"
    ensures AccessKey(camel) != AccessKey(!camel) && RefreshKey(camel) != RefreshKey(!camel)
    ensures AccessKey(camel) != RefreshKey(!camel)
    ensures "user" != "data"
  {
    assert |AccessKey(true)| == 11 && |AccessKey(false)| == 12 && |RefreshKey(true)| == 12 && |RefreshKey(false)| == 13;
    assert AccessKey(false)[0] == 'a' && RefreshKey(true)[0] == 'r';
    assert "user"[0] != "data"[0];
  }

  lemma ReplyLookup(access: string, refresh: Option<string>, user: Option<User>, camel: bool, key: string)
    ensures Lookup(ReplyFields(access, refresh, user, camel), key)
            == if key == AccessKey(camel) then Some(Str(access))
               else if key == RefreshKey(camel) && refresh.Some? then Some(Str(refresh.value))
               else if key == "user" && user.Some? then Some(UserJson(user.value))
               else None
  {
    hide Lookup, UserJson, AccessKey, RefreshKey;
    var rest := TokenField(RefreshKey(camel), refresh) + UserField(user);
    LookupFirst(TokenField(AccessKey(camel), Some(access)), rest, key);
    LookupFirst(TokenField(RefreshKey(camel), refresh), UserField(user), key);
    LookupFirst(UserField(user), [], key);
    LookupAbsent([], key);
    assert UserField(user) + [] == UserField(user);
  }

  lemma Unenveloped(wrapped: bool, fields: Record)
    requires Lookup(fields, "data") == None
    ensures Unwrapped(Enveloped(wrapped, fields)) == Obj(fields)
  {
    if wrapped { LookupFirst([Field("data", Obj(fields))], [], "data"); }
  }

  /** What the readers of an answer find in it. */
  lemma ReplyParts(access: string, refresh: Option<string>, user: Option<User>, camel: bool, wrapped: bool)
    ensures var fields := ReplyFields(access, refresh, user, camel);
            && Unwrapped(Enveloped(wrapped, fields)) == Obj(fields)
            && StringUnder(fields, AccessKey(false), AccessKey(true)) == Some(access)
            && StringUnder(fields, RefreshKey(false), RefreshKey(true)) == refresh
            && UserUnder(fields) == Understood(user)
  {
    var fields := ReplyFields(access, refresh, user, camel);
    KeysDiffer(camel);
    KeysDiffer(!camel);
    hide AccessKey, RefreshKey, ReplyFields, Lookup, UserJson, NormalizeUser;
    ReplyLookup(access, refresh, user, camel, "data");
    Unenveloped(wrapped, fields);
    ReplyLookup(access, refresh, user, camel, "user");
    ReplyLookup(access, refresh, user, camel, AccessKey(true));
    ReplyLookup(access, refresh, user, camel, AccessKey(false));
    ReplyLookup(access, refresh, user, camel, RefreshKey(true));
    ReplyLookup(access, refresh, user, camel, RefreshKey(false));
  }

  /** A login answer is read in full, each token as itself, and refused exactly when a token or the user is missing. */
  lemma LoginReplyReads(reply: LoginReply, camel: bool, wrapped: bool)
    ensures var user := Understood(Some(reply.user));
            ParseLogin(Enveloped(wrapped, ReplyFields(reply.access, Some(reply.refresh), Some(reply.user), camel)))
            == if reply.access != "" && reply.refresh != "" && user.Some?
               then Some(LoginReply(reply.access, reply.refresh, user.value)) else None
  {
    ReplyParts(reply.access, Some(reply.refresh), Some(reply.user), camel, wrapped);
    hide Understood, ReplyFields, Enveloped, Unwrapped, UserUnder, StringUnder;
  }

  /** A refresh answer is read in full, a missing refresh token or user as missing; the access token is required. */
  lemma RefreshReplyReads(reply: RefreshReply, camel: bool, wrapped: bool)
    ensures ParseRefresh(Enveloped(wrapped, ReplyFields(reply.access, reply.refresh, reply.user, camel)))
            == if reply.access != "" then Some(reply.(user := Understood(reply.user))) else None
  {
    ReplyParts(reply.access, reply.refresh, reply.user, camel, wrapped);
    hide Understood, ReplyFields, Enveloped, Unwrapped, UserUnder, StringUnder;
  }

  /** A profile is read whether it is the answer or stands under `user`. */
  lemma ProfileReads(user: User, wrapped: bool, nested: bool)
    ensures ParseMe(Enveloped(wrapped, if nested then UserField(Some(user)) else AsRecord(UserJson(user))))
            == Understood(Some(user))
  {
    var fields := if nested then UserField(Some(user)) else AsRecord(UserJson(user));
    UserIsObject(user);
    assert UserJson(user) == Obj(AsRecord(UserJson(user)));
    assert "user" != "data" by { assert "user"[0] != "data"[0]; }
    NoDataInUser(user);
    StoredFields(user);
    hide UserJson, NormalizeUser, Lookup;
    LookupFirst(UserField(Some(user)), [], "data");
    LookupFirst(UserField(Some(user)), [], "user");
    LookupAbsent([], "data");
    assert UserField(Some(user)) + [] == UserField(Some(user));
    Unenveloped(wrapped, fields);
  }

  lemma NoDataInUser(user: User)
    ensures Lookup(AsRecord(UserJson(user)), "data") == None
  {
    hide Lookup, UserValues;
    assert forall i | 0 <= i < |USER_NAMES| :: USER_NAMES[i] != "data";
    LookupAbsent(AsRecord(UserJson(user)), "data");
  }
}
