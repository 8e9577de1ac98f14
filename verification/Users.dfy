/**
 Users and the answers of the authentication endpoints: `normalizeUser` of `lib/auth/session-store.ts`, the parsers and
 the access check of `lib/auth/auth-api.ts`, and the form a user takes in local storage.
 */
module Users {
  import opened Wrappers
  import opened Text
  import opened Json

  datatype Role = SuperAdmin | SchoolAdmin | Technician | Parent

  datatype Status = Active | Blocked | Disabled

  datatype User = User(
    id: string,
    email: string,
    role: Role,
    status: Status,
    name: Option<string>,
    forcePasswordChange: bool)

  function RoleText(role: Role): string {
    match role
    case SuperAdmin => "SUPER_ADMIN"
    case SchoolAdmin => "SCHOOL_ADMIN"
    case Technician => "TECHNICIAN"
    case Parent => "PARENT"
  }

  function StatusText(status: Status): string {
    match status
    case Active => "ACTIVE"
    case Blocked => "BLOCKED"
    case Disabled => "DISABLED"
  }

  // ---- reading a user from JSON ----

  /** `isRecord` of the session store, which also lets arrays through; an array has none of the keys read. */
  predicate IsObject(v: Option<Json>) {
    v.Some? && (v.value.Obj? || v.value.Arr?)
  }

  function Entries(v: Option<Json>): Record {
    if v.Some? then AsRecord(v.value) else []
  }

  /** `pickString`: the first of the keys whose value is a non-empty string. */
  function PickString(record: Record, keys: seq<string>): Option<string> {
    if keys == [] then None
    else
      var v := Lookup(record, keys[0]);
      if v.Some? && v.value.Str? && v.value.s != "" then Some(v.value.s) else PickString(record, keys[1..])
  }

  /** `a ?? b` on optional values. */
  function OrElse<T>(a: Option<T>, b: Option<T>): Option<T> {
    if a.Some? then a else b
  }

  /** `a ?? b` where `a` may also be null. */
  function NonNullOr(a: Option<Json>, b: Option<Json>): Option<Json> {
    if a.Some? && !a.value.Null? then a else b
  }

  /** `s.replace(/-/g, "_")`. */
  function HyphensToUnderscores(s: string): (r: string)
    ensures |r| == |s| && forall k | 0 <= k < |s| :: r[k] == if s[k] == '-' then '_' else s[k]
  {
    seq(|s|, k requires 0 <= k < |s| => if s[k] == '-' then '_' else s[k])
  }

  /** `s.replace(/\s+/g, "_")`. */
  function SpacesToUnderscore(s: string): string {
    if s == "" then ""
    else if !IsSpace(s[0]) then [s[0]] + SpacesToUnderscore(s[1..])
    else if |s| > 1 && IsSpace(s[1]) then SpacesToUnderscore(s[1..])
    else "_" + SpacesToUnderscore(s[1..])
  }

  function RoleName(text: string): string {
    SpacesToUnderscore(HyphensToUnderscores(Upper(Trim(text))))
  }

  function RoleNamed(name: string): Option<Role> {
    if name == "SUPERADMIN" || name == "SUPER_ADMIN" then Some(SuperAdmin)
    else if name == "SCHOOLADMIN" || name == "SCHOOL_ADMIN" then Some(SchoolAdmin)
    else if name == "TECHNICIAN" then Some(Technician)
    else if name == "PARENT" then Some(Parent)
    else None
  }

  function NormalizeRole(v: Option<Json>): Option<Role> {
    if v.Some? && v.value.Str? then RoleNamed(RoleName(v.value.s)) else None
  }

  /** Anything that is not a known status counts as active. */
  function NormalizeStatus(v: Option<Json>): Status {
    if v.Some? && v.value.Str? then
      var upper := Upper(Trim(v.value.s));
      if upper == "BLOCKED" then Blocked else if upper == "DISABLED" then Disabled else Active
    else Active
  }

  const ID_KEYS := ["id", "user_id", "userId"]
  const NAME_KEYS := ["name", "full_name", "fullName"]

  function NormalizeUser(raw: Json): Option<User> {
    if !IsObject(Some(raw)) then None
    else
      var r := AsRecord(raw);
      var nested := Entries(Lookup(r, "user"));
      var id := OrElse(PickString(r, ID_KEYS), PickString(nested, ID_KEYS));
      var email := OrElse(PickString(r, ["email"]), PickString(nested, ["email"]));
      var role := OrElse(NormalizeRole(Lookup(r, "role")),
                         OrElse(NormalizeRole(Lookup(r, "user_role")),
                                OrElse(NormalizeRole(Lookup(r, "userRole")), NormalizeRole(Lookup(nested, "role")))));
      if id.None? || email.None? || role.None? then None
      else Some(User(id.value, Trim(email.value), role.value,
                     NormalizeStatus(NonNullOr(Lookup(r, "status"), Lookup(nested, "status"))),
                     PickString(r, NAME_KEYS),
                     Lookup(r, "force_password_change") == Some(Bool(true))
                     || Lookup(r, "forcePasswordChange") == Some(Bool(true))))
  }

  const USER_NAMES: seq<string> := ["id", "email", "role", "status", "name", "force_password_change"]

  function UserValues(u: User): (vs: seq<Json>)
    ensures |vs| == |USER_NAMES|
  {
    [Str(u.id), Str(u.email), Str(RoleText(u.role)), Str(StatusText(u.status)), OrNull(u.name),
     Bool(u.forcePasswordChange)]
  }

  /** The object written to local storage, which is what parsing the stored text gives back. */
  function UserJson(u: User): Json {
    Obj(seq(|USER_NAMES|, i requires 0 <= i < |USER_NAMES| => Field(USER_NAMES[i], UserValues(u)[i])))
  }

  // ---- parsing answers ----

  /** `unwrapPayload`. */
  function Unwrapped(raw: Json): Json {
    var data := Lookup(AsRecord(raw), "data");
    if data.Some? then data.value else raw
  }

  /** The string under the first key, or else under the second; other values are passed over. */
  function StringUnder(record: Record, key: string, otherKey: string): Option<string> {
    var a, b := Lookup(record, key), Lookup(record, otherKey);
    if a.Some? && a.value.Str? then Some(a.value.s)
    else if b.Some? && b.value.Str? then Some(b.value.s)
    else None
  }

  datatype LoginReply = LoginReply(access: string, refresh: string, user: User)

  datatype RefreshReply = RefreshReply(access: string, refresh: Option<string>, user: Option<User>)

  function UserUnder(record: Record): Option<User> {
    var v := Lookup(record, "user");
    if v.Some? then NormalizeUser(v.value) else None
  }

  /** `parseLoginResponse`; None stands for the exception. */
  function ParseLogin(raw: Json): (r: Option<LoginReply>)
    ensures r.Some? ==> r.value.access != "" && r.value.refresh != ""
  {
    var body := Unwrapped(raw);
    if !IsObject(Some(body)) then None
    else
      var record := AsRecord(body);
      var access := StringUnder(record, "access_token", "accessToken").GetOr("");
      var refresh := StringUnder(record, "refresh_token", "refreshToken").GetOr("");
      var user := UserUnder(record);
      if access == "" || refresh == "" || user.None? then None else Some(LoginReply(access, refresh, user.value))
  }

  /** `parseRefreshResponse`. */
  function ParseRefresh(raw: Json): (r: Option<RefreshReply>)
    ensures r.Some? ==> r.value.access != ""
  {
    var body := Unwrapped(raw);
    if !IsObject(Some(body)) then None
    else
      var record := AsRecord(body);
      var access := StringUnder(record, "access_token", "accessToken").GetOr("");
      if access == "" then None
      else Some(RefreshReply(access, StringUnder(record, "refresh_token", "refreshToken"), UserUnder(record)))
  }

  /** `parseMeResponse`: the user may be the body or stand under `user`. */
  function ParseMe(raw: Json): Option<User> {
    var body := Unwrapped(raw);
    if !IsObject(Some(body)) then None
    else NormalizeUser(NonNullOr(Lookup(AsRecord(body), "user"), Some(body)).value)
  }

  // ---- access ----

  function NormalizeDashboardRole(text: string): Option<Role> {
    var role := RoleNamed(RoleName(text));
    if role == Some(Parent) then None else role
  }

  /** `assertDashboardAccess` does not throw. */
  predicate Admitted(u: User) {
    u.status == Active && NormalizeDashboardRole(RoleText(u.role)).Some?
  }

  // ---- role and status names are fixed points ----

  /** Upper-case letters and underscores only. */
  predicate IsName(s: string) {
    forall k | 0 <= k < |s| :: 'A' <= s[k] <= 'Z' || s[k] == '_'
  }

  lemma {:induction false} NameHasNoSpaces(s: string)
    requires IsName(s)
    ensures SpacesToUnderscore(s) == s
  {
    if s != "" { NameHasNoSpaces(s[1..]); }
  }

  lemma NameIsCanonical(s: string)
    requires IsName(s)
    ensures Upper(Trim(s)) == s && RoleName(s) == s
  {
    TrimId(s);
    assert Upper(s) == s;
    assert HyphensToUnderscores(s) == s;
    NameHasNoSpaces(s);
  }

  lemma RoleTextIsName(role: Role)
    ensures IsName(RoleText(role))
  {
  }

  lemma RoleTextNames(role: Role)
    ensures RoleNamed(RoleText(role)) == Some(role)
  {
  }

  lemma RoleReadsBack(role: Role)
    ensures NormalizeRole(Some(Str(RoleText(role)))) == Some(role)
  {
    hide RoleText, RoleNamed, RoleName;
    RoleTextIsName(role);
    RoleTextNames(role);
    NameIsCanonical(RoleText(role));
  }

  lemma StatusReadsBack(status: Status)
    ensures NormalizeStatus(Some(Str(StatusText(status)))) == status
  {
    hide Upper, Trim;
    NameIsCanonical(StatusText(status));
  }

  /** Access is for active users with a dashboard role. */
  lemma AdmittedExactly(u: User)
    ensures Admitted(u) <==> u.status == Active && u.role != Parent
  {
    hide RoleName, RoleNamed, RoleText;
    RoleReadsBack(u.role);
  }

  // ---- the stored user ----

  lemma UserNamesAreDistinct()
    ensures forall i, j | 0 <= i < j < |USER_NAMES| :: USER_NAMES[i] != USER_NAMES[j]
    ensures forall i | 0 <= i < |USER_NAMES| :: USER_NAMES[i] !in
              ["user", "user_id", "userId", "user_role", "userRole", "full_name", "fullName", "forcePasswordChange"]
  {
  }

  lemma StoredField(u: User, i: nat)
    requires i < |USER_NAMES|
    ensures Lookup(AsRecord(UserJson(u)), USER_NAMES[i]) == Some(UserValues(u)[i])
  {
    hide Lookup, UserValues;
    UserNamesAreDistinct();
    LookupAt(AsRecord(UserJson(u)), i);
  }

  lemma StoredFieldAbsent(u: User, name: string)
    requires name in
      ["user", "user_id", "userId", "user_role", "userRole", "full_name", "fullName", "forcePasswordChange"]
    ensures Lookup(AsRecord(UserJson(u)), name) == None
  {
    hide Lookup, UserValues;
    UserNamesAreDistinct();
    LookupAbsent(AsRecord(UserJson(u)), name);
  }

  lemma StoredFields(u: User)
    ensures var r := AsRecord(UserJson(u));
            && Lookup(r, "id") == Some(Str(u.id)) && Lookup(r, "email") == Some(Str(u.email))
            && Lookup(r, "role") == Some(Str(RoleText(u.role)))
            && Lookup(r, "status") == Some(Str(StatusText(u.status)))
            && Lookup(r, "name") == Some(OrNull(u.name))
            && Lookup(r, "force_password_change") == Some(Bool(u.forcePasswordChange))
    ensures var r := AsRecord(UserJson(u));
            && Lookup(r, "user") == None && Lookup(r, "user_id") == None && Lookup(r, "userId") == None
            && Lookup(r, "full_name") == None && Lookup(r, "fullName") == None
            && Lookup(r, "forcePasswordChange") == None
  {
    hide Lookup, UserJson;
    StoredField(u, 0);
    StoredField(u, 1);
    StoredField(u, 2);
    StoredField(u, 3);
    StoredField(u, 4);
    StoredField(u, 5);
    StoredFieldAbsent(u, "user");
    StoredFieldAbsent(u, "user_id");
    StoredFieldAbsent(u, "userId");
    StoredFieldAbsent(u, "full_name");
    StoredFieldAbsent(u, "fullName");
    StoredFieldAbsent(u, "forcePasswordChange");
  }

  lemma {:induction false} PickFromNothing(keys: seq<string>)
    ensures PickString([], keys) == None
  {
    if keys != [] { PickFromNothing(keys[1..]); }
  }

  lemma StoredPicks(u: User)
    ensures var r := AsRecord(UserJson(u));
            && PickString(r, ID_KEYS) == NonEmpty(u.id) && PickString(r, ["email"]) == NonEmpty(u.email)
            && PickString(r, NAME_KEYS) == (if u.name.Some? then NonEmpty(u.name.value) else None)
    ensures PickString([], ID_KEYS) == None && PickString([], ["email"]) == None
  {
    hide Lookup, UserJson;
    StoredFields(u);
    PickFromNothing(ID_KEYS);
    PickFromNothing(["email"]);
    var r := AsRecord(UserJson(u));
    assert ["user_id", "userId"][1..] == ["userId"] && ["full_name", "fullName"][1..] == ["fullName"];
    assert PickString(r, ["userId"]) == None;
    assert PickString(r, ["user_id", "userId"]) == None;
    assert PickString(r, ["fullName"]) == None;
    assert PickString(r, ["full_name", "fullName"]) == None;
    assert ID_KEYS[1..] == ["user_id", "userId"] && ID_KEYS[1..][1..] == ["userId"];
    assert NAME_KEYS[1..] == ["full_name", "fullName"] && NAME_KEYS[1..][1..] == ["fullName"];
  }

  /**
   A stored user is read back as itself exactly when its id and e-mail are not empty, the e-mail is trimmed and the
   name, if any, is not empty.
   */
  lemma StoredUserReadsBack(u: User)
    ensures NormalizeUser(UserJson(u)) == Some(u)
            <==> u.id != "" && u.email != "" && Trimmed(u.email) && (u.name.Some? ==> u.name.value != "")
  {
    hide Lookup, UserJson, PickString, NormalizeRole, NormalizeStatus, RoleText, StatusText, Trim;
    StoredFields(u);
    StoredPicks(u);
    RoleReadsBack(u.role);
    StatusReadsBack(u.status);
    var _ := TrimIsSlice(u.email);
    if Trimmed(u.email) { TrimId(u.email); }
    assert UserJson(u).Obj? by { UserIsObject(u); }
  }

  lemma UserIsObject(u: User)
    ensures UserJson(u).Obj?
  {
  }

  lemma {:induction false} PickedIsNonEmpty(record: Record, keys: seq<string>)
    ensures PickString(record, keys).Some? ==> PickString(record, keys).value != ""
  {
    if keys != [] { PickedIsNonEmpty(record, keys[1..]); }
  }

  /**
   A user the server names is restored from storage unless its e-mail is blank: then the stored copy is not accepted.
   */
  lemma NamedUserIsRestored(raw: Json)
    requires NormalizeUser(raw).Some?
    ensures var u := NormalizeUser(raw).value; NormalizeUser(UserJson(u)) == Some(u) <==> u.email != ""
  {
    hide Lookup, UserJson, PickString, NormalizeRole, NormalizeStatus, Trim;
    var r := AsRecord(raw);
    var nested := Entries(Lookup(r, "user"));
    PickedIsNonEmpty(r, ID_KEYS);
    PickedIsNonEmpty(nested, ID_KEYS);
    PickedIsNonEmpty(r, NAME_KEYS);
    var _ := TrimIsSlice(OrElse(PickString(r, ["email"]), PickString(nested, ["email"])).value);
    StoredUserReadsBack(NormalizeUser(raw).value);
  }
}
