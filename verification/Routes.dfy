/**
 Routing of the dashboard: the guards of `lib/auth/guards.tsx`, the protected prefixes of `lib/routes.ts`, the
 permission lookup of `lib/auth/page-permissions.ts` and the redirects of single pages.
 */
module Routes {
  import opened Wrappers
  import opened Text

  const LOGIN := "/login"
  const DASHBOARD := "/dashboard"
  const CHANGE_PASSWORD := "/change-password"
  const BILLING := "/billing"
  const SUBSCRIPTIONS := "/billing/subscriptions"
  const SCHOOLS := "/schools"
  const NEW_SCHOOL := "/schools/new"

  const PROTECTED: seq<string> := [
    "/dashboard", "/camera-monitoring", "/monitoring", "/alerts", "/cameras", "/schools", "/parents", "/children",
    "/billing", "/audit-logs", "/system", "/settings", "/users", "/change-password"]

  datatype Permission =
    | DashboardView
    | MonitoringView
    | AlertsView
    | CamerasView
    | SchoolsView
    | SchoolsCreate
    | SchoolsUpdate
    | ParentsView
    | ParentsCreate
    | ChildrenView
    | BillingView
    | AuditLogsView
    | SystemView
    | SettingsView
    | UsersView
    | UsersCreate
    | ChangeOwnPassword

  /** The path is the prefix or lies below it. */
  predicate Under(path: string, prefix: string) {
    path == prefix || StartsWith(path, prefix + "/")
  }

  predicate IsProtectedPath(path: string) {
    exists i | 0 <= i < |PROTECTED| :: Under(path, PROTECTED[i])
  }

  // ---- permissions ----

  /** What a page's address must start with, and the permission the page needs. */
  const ROUTE_PERMISSIONS: seq<(string, Permission)> := [
    ("/dashboard", DashboardView), ("/camera-monitoring", MonitoringView), ("/monitoring", MonitoringView),
    ("/alerts", AlertsView), ("/cameras", CamerasView), ("/schools", SchoolsView), ("/parents", ParentsView),
    ("/children", ChildrenView), ("/billing", BillingView), ("/audit-logs", AuditLogsView), ("/system", SystemView),
    ("/settings", SettingsView), ("/users", UsersView), ("/change-password", ChangeOwnPassword)]

  /** `pathname.split("?")[0]`. */
  function WithoutQuery(path: string): string {
    var q := IndexOfChar(path, '?');
    if q == -1 then path else path[..q]
  }

  /** `/^\/schools\/[^/]+\/edit\/?$/`. */
  predicate IsSchoolEdit(path: string) {
    && StartsWith(path, "/schools/")
    && exists n | 10 <= n <= |path| :: '/' !in path[9..n] && path[n..] in ["/edit", "/edit/"]
  }

  function SpecialPermission(path: string): Option<Permission> {
    if path in ["/schools/new", "/schools/new/"] then Some(SchoolsCreate)
    else if IsSchoolEdit(path) then Some(SchoolsUpdate)
    else if path in ["/parents/new", "/parents/new/"] then Some(ParentsCreate)
    else if path in ["/users/new", "/users/new/"] then Some(UsersCreate)
    else if path in ["/settings/security", "/settings/security/"] then Some(ChangeOwnPassword)
    else None
  }

  /** The permission of the first entry, from the `i`-th on, that matches the path. */
  function FirstMatch(path: string, i: nat): Option<Permission>
    requires i <= |ROUTE_PERMISSIONS|
    decreases |ROUTE_PERMISSIONS| - i
  {
    if i == |ROUTE_PERMISSIONS| then None
    else if StartsWith(path, ROUTE_PERMISSIONS[i].0) then Some(ROUTE_PERMISSIONS[i].1)
    else FirstMatch(path, i + 1)
  }

  function GetRoutePermission(pathname: string): Option<Permission> {
    var path := WithoutQuery(pathname);
    var special := SpecialPermission(path);
    if special.Some? then special else FirstMatch(path, 0)
  }

  predicate StartsAt(path: string, i: nat)
    requires i < |ROUTE_PERMISSIONS|
  {
    StartsWith(path, ROUTE_PERMISSIONS[i].0)
  }

  /** Any two prefixes differ in a position both have. */
  lemma EntriesDiffer(i: nat, j: nat) returns (k: nat)
    requires i < j < |ROUTE_PERMISSIONS|
    ensures var p, q := ROUTE_PERMISSIONS[i].0, ROUTE_PERMISSIONS[j].0; k < |p| && k < |q| && p[k] != q[k]
  {
    var p, q := ROUTE_PERMISSIONS[i].0, ROUTE_PERMISSIONS[j].0;
    k := if p[1] != q[1] then 1 else if p[2] != q[2] then 2 else if p[3] != q[3] then 3 else 7;
  }

  /** No two entries match the same path, so the order of the table does not matter. */
  lemma EntriesAreDisjoint(path: string, i: nat, j: nat)
    requires i < j < |ROUTE_PERMISSIONS|
    ensures !(StartsAt(path, i) && StartsAt(path, j))
  {
    var k := EntriesDiffer(i, j);
    if StartsAt(path, i) {
      assert path[k] == ROUTE_PERMISSIONS[i].0[k];
    }
  }

  lemma {:induction false} FirstMatchIsTheMatch(path: string, from: nat, i: nat)
    requires from <= i < |ROUTE_PERMISSIONS| && StartsAt(path, i)
    ensures FirstMatch(path, from) == Some(ROUTE_PERMISSIONS[i].1)
    decreases i - from
  {
    if from < i {
      EntriesAreDisjoint(path, from, i);
      FirstMatchIsTheMatch(path, from + 1, i);
    }
  }

  lemma {:induction false} NoMatch(path: string, from: nat)
    requires from <= |ROUTE_PERMISSIONS|
    requires forall i | from <= i < |ROUTE_PERMISSIONS| :: !StartsAt(path, i)
    ensures FirstMatch(path, from) == None
    decreases |ROUTE_PERMISSIONS| - from
  {
    hide StartsWith;
    if from < |ROUTE_PERMISSIONS| {
      assert !StartsAt(path, from);
      NoMatch(path, from + 1);
    }
  }

  /** A query does not change which entry matches. */
  lemma QueryIsIgnored(path: string, i: nat)
    requires i < |ROUTE_PERMISSIONS|
    ensures StartsAt(WithoutQuery(path), i) <==> StartsAt(path, i)
  {
    var prefix := ROUTE_PERMISSIONS[i].0;
    PrefixesHaveNoQuery(i);
    IndexOfCharIsFirst(path, '?');
    var q := IndexOfChar(path, '?');
    if q >= 0 && StartsWith(path, prefix) {
      assert forall k | 0 <= k < |prefix| :: path[k] == prefix[k] && prefix[k] in prefix;
    }
  }

  lemma PrefixesHaveNoQuery(i: nat)
    requires i < |ROUTE_PERMISSIONS|
    ensures '?' !in ROUTE_PERMISSIONS[i].0
  {
  }

  lemma SpecialsStartLikeOthers(path: string)
    requires SpecialPermission(path).Some?
    ensures StartsAt(path, 5) || StartsAt(path, 6) || StartsAt(path, 11) || StartsAt(path, 12)
  {
  }

  /**
   A page needs a permission exactly when its address starts with a prefix of the table: the special one if there is
   one, the prefix's otherwise.
   */
  lemma PermissionExactly(path: string)
    ensures GetRoutePermission(path).Some? <==> exists i | 0 <= i < |ROUTE_PERMISSIONS| :: StartsAt(path, i)
    ensures forall i | 0 <= i < |ROUTE_PERMISSIONS| && StartsAt(path, i) ::
              GetRoutePermission(path)
              == if SpecialPermission(WithoutQuery(path)).Some? then SpecialPermission(WithoutQuery(path))
                 else Some(ROUTE_PERMISSIONS[i].1)
  {
    hide StartsWith, SpecialPermission, WithoutQuery, StartsAt;
    var bare := WithoutQuery(path);
    forall i | 0 <= i < |ROUTE_PERMISSIONS| ensures StartsAt(bare, i) <==> StartsAt(path, i) {
      QueryIsIgnored(path, i);
    }
    forall i | 0 <= i < |ROUTE_PERMISSIONS| && StartsAt(bare, i)
      ensures FirstMatch(bare, 0) == Some(ROUTE_PERMISSIONS[i].1)
    {
      FirstMatchIsTheMatch(bare, 0, i);
    }
    if SpecialPermission(bare).Some? {
      SpecialsStartLikeOthers(bare);
    } else if forall i | 0 <= i < |ROUTE_PERMISSIONS| :: !StartsAt(bare, i) {
      NoMatch(bare, 0);
    }
  }

  lemma UnderStarts(path: string, i: nat)
    requires i < |PROTECTED| && Under(path, PROTECTED[i])
    ensures StartsAt(path, i)
  {
    assert PROTECTED[i] == ROUTE_PERMISSIONS[i].0;
    assert PROTECTED[i] <= PROTECTED[i] + "/";
  }

  /** Every protected page requires a permission, whatever follows the prefix. */
  lemma ProtectedNeedsPermission(path: string)
    requires IsProtectedPath(path)
    ensures GetRoutePermission(path).Some?
  {
    hide GetRoutePermission, StartsAt;
    var i :| 0 <= i < |PROTECTED| && Under(path, PROTECTED[i]);
    UnderStarts(path, i);
    PermissionExactly(path);
  }

  // ---- guards ----

  /** What the guards read from the session; `allows` is `hasPermission` for the user's role, any role table. */
  datatype Auth = Auth(isLoading: bool, isAuthenticated: bool, mustChangePassword: bool, allows: Permission -> bool)

  /** What a page shows once its guards have had their say: nothing, the access-denied panel, or its content. */
  datatype View = Nothing | Denied | Content

  predicate MustLeaveForPassword(auth: Auth, path: string) {
    auth.mustChangePassword && IsProtectedPath(path) && !Under(path, CHANGE_PASSWORD)
  }

  /** The effect of `RequireAuth`: where it sends the browser, if anywhere. */
  function RequireAuthRedirect(auth: Auth, path: string): Option<string> {
    if auth.isLoading then None
    else if !auth.isAuthenticated && IsProtectedPath(path) then Some(LOGIN)
    else if auth.isAuthenticated && MustLeaveForPassword(auth, path) then Some(CHANGE_PASSWORD)
    else None
  }

  predicate RequireAuthShows(auth: Auth, path: string) {
    !auth.isLoading && auth.isAuthenticated && !MustLeaveForPassword(auth, path)
  }

  function GuestOnlyRedirect(auth: Auth): Option<string> {
    if !auth.isLoading && auth.isAuthenticated
    then Some(if auth.mustChangePassword then CHANGE_PASSWORD else DASHBOARD)
    else None
  }

  predicate GuestOnlyShows(auth: Auth) {
    !auth.isLoading && !auth.isAuthenticated
  }

  /** `RequirePermission`, inside the shell of every page behind `RequireAuth`, lets its children through. */
  predicate RequirePermissionShows(auth: Auth, path: string) {
    var required := GetRoutePermission(path);
    !auth.isLoading && (required.None? || auth.allows(required.value))
  }

  /** The effect of `CreateSchoolGuard`, where it is mounted. */
  function CreateSchoolGuardRedirect(auth: Auth): Option<string> {
    if !auth.isLoading && !auth.allows(SchoolsCreate) then Some(SCHOOLS) else None
  }

  /** The guard stands on one page and inside the shell, so both other guards must let it through to be mounted. */
  predicate CreateSchoolGuardMounted(auth: Auth, path: string) {
    path == NEW_SCHOOL && RequireAuthShows(auth, path) && RequirePermissionShows(auth, path)
  }

  /** The pages considered: the root, the login page and everything behind `RequireAuth`. */
  predicate OnSite(path: string) {
    path == "/" || path == LOGIN || IsProtectedPath(path)
  }

  /**
   The root and the billing index always redirect, on the server; the others leave it to their guards, of which the one
   on the new-school page is left aside here.
   */
  function RedirectWithoutCreateGuard(auth: Auth, path: string): Option<string> {
    if path == "/" then Some(DASHBOARD)
    else if path == BILLING then Some(SUBSCRIPTIONS)
    else if path == LOGIN then GuestOnlyRedirect(auth)
    else RequireAuthRedirect(auth, path)
  }

  /** Where the browser is sent; the guard on the new-school page acts only once the others have let it through. */
  function Redirect(auth: Auth, path: string): Option<string> {
    if CreateSchoolGuardMounted(auth, path) then CreateSchoolGuardRedirect(auth)
    else RedirectWithoutCreateGuard(auth, path)
  }

  function ViewOf(auth: Auth, path: string): View {
    if path == "/" || path == BILLING then Nothing
    else if path == LOGIN then (if GuestOnlyShows(auth) then Content else Nothing)
    else if !RequireAuthShows(auth, path) then Nothing
    else if !RequirePermissionShows(auth, path) then Denied
    else if CreateSchoolGuardMounted(auth, path) && CreateSchoolGuardRedirect(auth).Some? then Denied
    else Content
  }

  /** Following at most `steps` redirects. */
  function Followed(auth: Auth, path: string, steps: nat): string
    decreases steps
  {
    var next := Redirect(auth, path);
    if steps == 0 || next.None? then path else Followed(auth, next.value, steps - 1)
  }

  /** Where each kind of visitor should end up. */
  function Destination(auth: Auth, path: string): string {
    if !auth.isAuthenticated then LOGIN
    else if auth.mustChangePassword then (if Under(path, CHANGE_PASSWORD) then path else CHANGE_PASSWORD)
    else if path == BILLING then SUBSCRIPTIONS
    else if IsProtectedPath(path) then path else DASHBOARD
  }

  lemma ProtectedBy(path: string, i: nat)
    requires i < |PROTECTED| && Under(path, PROTECTED[i])
    ensures IsProtectedPath(path)
  {
    hide Under;
  }

  lemma KnownPathsAreUnder()
    ensures Under(DASHBOARD, PROTECTED[0]) && Under(NEW_SCHOOL, PROTECTED[5]) && Under(BILLING, PROTECTED[8])
    ensures Under(SUBSCRIPTIONS, PROTECTED[8]) && Under(CHANGE_PASSWORD, PROTECTED[13])
  {
  }

  lemma PublicPaths()
    ensures !IsProtectedPath(LOGIN) && !IsProtectedPath("/")
  {
    forall i | 0 <= i < |PROTECTED| ensures !Under(LOGIN, PROTECTED[i]) && !Under("/", PROTECTED[i]) {
    }
  }

  lemma OthersAreNotPassword()
    ensures PROTECTED[13] == CHANGE_PASSWORD
    ensures !Under(DASHBOARD, CHANGE_PASSWORD) && !Under(LOGIN, CHANGE_PASSWORD) && !Under("/", CHANGE_PASSWORD)
    ensures !Under(BILLING, CHANGE_PASSWORD) && !Under(SUBSCRIPTIONS, CHANGE_PASSWORD)
  {
    assert CHANGE_PASSWORD[1] == 'c' && DASHBOARD[1] == 'd' && LOGIN[1] == 'l';
    assert BILLING[1] == 'b' && SUBSCRIPTIONS[1] == 'b';
  }

  lemma KnownPaths()
    ensures IsProtectedPath(DASHBOARD) && IsProtectedPath(CHANGE_PASSWORD)
    ensures IsProtectedPath(BILLING) && IsProtectedPath(SUBSCRIPTIONS) && IsProtectedPath(NEW_SCHOOL)
    ensures !IsProtectedPath(LOGIN) && !IsProtectedPath("/")
    ensures Under(CHANGE_PASSWORD, CHANGE_PASSWORD) && !Under(DASHBOARD, CHANGE_PASSWORD)
    ensures !Under(LOGIN, CHANGE_PASSWORD) && !Under("/", CHANGE_PASSWORD) && !Under(BILLING, CHANGE_PASSWORD)
    ensures !Under(SUBSCRIPTIONS, CHANGE_PASSWORD)
  {
    KnownPathsAreUnder();
    PublicPaths();
    OthersAreNotPassword();
    hide Under, IsProtectedPath;
    ProtectedBy(DASHBOARD, 0);
    ProtectedBy(NEW_SCHOOL, 5);
    ProtectedBy(BILLING, 8);
    ProtectedBy(SUBSCRIPTIONS, 8);
    ProtectedBy(CHANGE_PASSWORD, 13);
  }

  lemma KnownPathsDiffer()
    ensures DASHBOARD != LOGIN && CHANGE_PASSWORD != LOGIN && CHANGE_PASSWORD != DASHBOARD
    ensures DASHBOARD != "/" && LOGIN != "/" && CHANGE_PASSWORD != "/"
    ensures BILLING !in ["/", LOGIN, DASHBOARD, CHANGE_PASSWORD, SUBSCRIPTIONS]
    ensures SUBSCRIPTIONS !in ["/", LOGIN, DASHBOARD, CHANGE_PASSWORD]
  {
    assert |DASHBOARD| == 10 && |LOGIN| == 6 && |CHANGE_PASSWORD| == 16 && |BILLING| == 8 && |SUBSCRIPTIONS| == 22;
  }

  /**
   `CreateSchoolGuard` never redirects: it is mounted only where `RequirePermission` has already found the permission
   it asks for, so a visitor without it is shown the access-denied panel and stays.
   */
  lemma CreateSchoolGuardIsIdle(auth: Auth, path: string)
    ensures CreateSchoolGuardMounted(auth, path) ==> CreateSchoolGuardRedirect(auth).None?
    ensures Redirect(auth, path) == RedirectWithoutCreateGuard(auth, path)
    ensures RequireAuthShows(auth, NEW_SCHOOL) ==>
              ViewOf(auth, NEW_SCHOOL) == if auth.allows(SchoolsCreate) then Content else Denied
  {
    NewSchoolNeedsCreate();
    hide GetRoutePermission, IsProtectedPath, Under;
    assert |NEW_SCHOOL| == 12 && |BILLING| == 8 && |LOGIN| == 6;
  }

  lemma NewSchoolNeedsCreate()
    ensures GetRoutePermission(NEW_SCHOOL) == Some(SchoolsCreate)
  {
    hide IsSchoolEdit, FirstMatch, IndexOfChar;
    assert '?' !in NEW_SCHOOL;
    IndexOfCharAbsent(NEW_SCHOOL, '?');
  }

  /** Once the session is settled, a page of the site either shows something or redirects, never both nor neither. */
  lemma ShowsOrRedirects(auth: Auth, path: string)
    requires !auth.isLoading && OnSite(path)
    ensures ViewOf(auth, path) == Nothing <==> Redirect(auth, path).Some?
  {
    CreateSchoolGuardIsIdle(auth, path);
    KnownPaths();
    hide IsProtectedPath, Under, GetRoutePermission;
  }

  /**
   From any page of the site two redirects at most lead to the visitor's destination. It redirects no further and
   shows its content, unless it needs a permission the visitor lacks: then it shows the access-denied panel.
   */
  lemma RedirectsSettle(auth: Auth, path: string)
    requires !auth.isLoading && OnSite(path)
    ensures var end := Destination(auth, path);
            && Followed(auth, path, 2) == end && OnSite(end) && Redirect(auth, end) == None
            && (end == LOGIN ==> ViewOf(auth, end) == Content)
            && (end != LOGIN ==> GetRoutePermission(end).Some?)
            && (end != LOGIN ==>
                  ViewOf(auth, end) == if auth.allows(GetRoutePermission(end).value) then Content else Denied)
  {
    var end := Destination(auth, path);
    DestinationHolds(auth, path);
    CreateSchoolGuardIsIdle(auth, end);
    if end != LOGIN { ProtectedNeedsPermission(end); }
    hide IsProtectedPath, Under, GetRoutePermission, Redirect, Destination, Followed;
    TwoSteps(auth, path);
    ShowsOrRedirects(auth, end);
  }

  lemma DestinationHolds(auth: Auth, path: string)
    requires !auth.isLoading && OnSite(path)
    ensures var end := Destination(auth, path);
            && OnSite(end) && Redirect(auth, end) == None && (end == LOGIN || IsProtectedPath(end))
  {
    hide IsProtectedPath, Under, Redirect;
    KnownPaths();
    KnownPathsDiffer();
    UnderPasswordIsProtected(path);
    CreateSchoolGuardIsIdle(auth, Destination(auth, path));
  }

  lemma TwoSteps(auth: Auth, path: string)
    requires !auth.isLoading && OnSite(path)
    ensures Followed(auth, path, 2) == Destination(auth, path)
  {
    hide IsProtectedPath, Under, Redirect;
    KnownPaths();
    KnownPathsDiffer();
    UnderPasswordIsProtected(path);
    CreateSchoolGuardIsIdle(auth, path);
    var one := Redirect(auth, path);
    if one.Some? {
      CreateSchoolGuardIsIdle(auth, one.value);
      assert Followed(auth, path, 2) == Followed(auth, one.value, 1);
      var two := Redirect(auth, one.value);
      if two.Some? { assert Followed(auth, one.value, 1) == Followed(auth, two.value, 0); }
    }
  }

  lemma UnderPasswordIsProtected(path: string)
    ensures Under(path, CHANGE_PASSWORD) ==> IsProtectedPath(path)
  {
    hide Under;
    assert PROTECTED[13] == CHANGE_PASSWORD;
  }

  /** More steps change nothing: there is no redirect loop. */
  lemma {:induction false} NoLoop(auth: Auth, path: string, steps: nat)
    requires !auth.isLoading && OnSite(path) && steps >= 2
    ensures Followed(auth, path, steps) == Destination(auth, path)
  {
    hide IsProtectedPath, Under, Redirect, Destination, Followed;
    DestinationHolds(auth, path);
    TwoSteps(auth, path);
    if steps > 2 {
      NoLoop(auth, path, steps - 1);
      StepsAddUp(auth, path, steps - 1);
    }
  }

  lemma {:induction false} StepsAddUp(auth: Auth, path: string, steps: nat)
    ensures Followed(auth, path, steps + 1)
            == Redirect(auth, Followed(auth, path, steps)).GetOr(Followed(auth, path, steps))
    decreases steps
  {
    hide Redirect;
    var next := Redirect(auth, path);
    if steps > 0 && next.Some? {
      StepsAddUp(auth, next.value, steps - 1);
    }
  }

  // ---- the tables, written out ----

  /** The paths that are protected, with everything below them and nothing beside them. */
  lemma ProtectedExactly(path: string)
    ensures IsProtectedPath(path)
            <==> exists p | p in ["/dashboard", "/camera-monitoring", "/monitoring", "/alerts", "/cameras", "/schools",
                                  "/parents", "/children", "/billing", "/audit-logs", "/system", "/settings",
                                  "/users", "/change-password"] :: path == p || p + "/" <= path
  {
    var prefixes := PROTECTED;
    if IsProtectedPath(path) {
      var i :| 0 <= i < |prefixes| && Under(path, prefixes[i]);
      hide Under;
      UnderMeans(path, prefixes[i]);
      assert prefixes[i] in prefixes;
    }
    if exists p | p in prefixes :: path == p || p + "/" <= path {
      var p :| p in prefixes && (path == p || p + "/" <= path);
      var i :| 0 <= i < |prefixes| && prefixes[i] == p;
      UnderMeans(path, p);
      hide Under;
      assert Under(path, prefixes[i]);
    }
  }

  lemma UnderMeans(path: string, prefix: string)
    ensures Under(path, prefix) <==> path == prefix || prefix + "/" <= path
  {
  }

  /** The permission an address needs that starts like one of the table and is none of the special ones. */
  lemma PrefixNeeds(path: string, i: nat)
    requires i < |ROUTE_PERMISSIONS| && StartsAt(path, i) && SpecialPermission(WithoutQuery(path)).None?
    ensures "/dashboard" <= path ==> GetRoutePermission(path) == Some(DashboardView)
    ensures "/camera-monitoring" <= path || "/monitoring" <= path ==> GetRoutePermission(path) == Some(MonitoringView)
    ensures "/alerts" <= path ==> GetRoutePermission(path) == Some(AlertsView)
    ensures "/cameras" <= path ==> GetRoutePermission(path) == Some(CamerasView)
    ensures "/schools" <= path ==> GetRoutePermission(path) == Some(SchoolsView)
    ensures "/parents" <= path ==> GetRoutePermission(path) == Some(ParentsView)
    ensures "/children" <= path ==> GetRoutePermission(path) == Some(ChildrenView)
    ensures "/billing" <= path ==> GetRoutePermission(path) == Some(BillingView)
    ensures "/audit-logs" <= path ==> GetRoutePermission(path) == Some(AuditLogsView)
    ensures "/system" <= path ==> GetRoutePermission(path) == Some(SystemView)
    ensures "/settings" <= path ==> GetRoutePermission(path) == Some(SettingsView)
    ensures "/users" <= path ==> GetRoutePermission(path) == Some(UsersView)
    ensures "/change-password" <= path ==> GetRoutePermission(path) == Some(ChangeOwnPassword)
  {
    PermissionExactly(path);
    hide GetRoutePermission, SpecialPermission, WithoutQuery;
    forall j | 0 <= j < |ROUTE_PERMISSIONS| && ROUTE_PERMISSIONS[j].0 <= path
      ensures GetRoutePermission(path) == Some(ROUTE_PERMISSIONS[j].1)
    {
      assert StartsAt(path, j);
    }
    TableIs();
  }

  lemma TableIs()
    ensures |ROUTE_PERMISSIONS| == 14
    ensures ROUTE_PERMISSIONS[0].0 == "/dashboard" && ROUTE_PERMISSIONS[1].0 == "/camera-monitoring"
    ensures ROUTE_PERMISSIONS[2].0 == "/monitoring" && ROUTE_PERMISSIONS[3].0 == "/alerts"
    ensures ROUTE_PERMISSIONS[4].0 == "/cameras" && ROUTE_PERMISSIONS[5].0 == "/schools"
    ensures ROUTE_PERMISSIONS[6].0 == "/parents" && ROUTE_PERMISSIONS[7].0 == "/children"
    ensures ROUTE_PERMISSIONS[8].0 == "/billing" && ROUTE_PERMISSIONS[9].0 == "/audit-logs"
    ensures ROUTE_PERMISSIONS[10].0 == "/system" && ROUTE_PERMISSIONS[11].0 == "/settings"
    ensures ROUTE_PERMISSIONS[12].0 == "/users" && ROUTE_PERMISSIONS[13].0 == "/change-password"
  {
  }

  /** The special pages; a last slash makes no difference. */
  lemma SpecialPages()
    ensures SpecialPermission("/schools/new") == SpecialPermission("/schools/new/") == Some(SchoolsCreate)
    ensures SpecialPermission("/parents/new") == SpecialPermission("/parents/new/") == Some(ParentsCreate)
    ensures SpecialPermission("/users/new") == SpecialPermission("/users/new/") == Some(UsersCreate)
    ensures SpecialPermission("/settings/security") == Some(ChangeOwnPassword)
    ensures SpecialPermission("/settings/security/") == Some(ChangeOwnPassword)
  {
    NotSchools("/parents/new");
    NotSchools("/parents/new/");
    NotSchools("/users/new");
    NotSchools("/users/new/");
    NotSchools("/settings/security");
    NotSchools("/settings/security/");
    hide IsSchoolEdit;
    assert |"/parents/new"| == 12 && |"/parents/new/"| == 13 && |"/users/new"| == 10 && |"/users/new/"| == 11;
  }

  lemma NotSchools(path: string)
    requires |path| > 2 && (path[1] != 's' || path[2] != 'c')
    ensures !IsSchoolEdit(path) && path !in ["/schools/new", "/schools/new/"]
  {
    assert "/schools/"[1] == 's' && "/schools/"[2] == 'c';
  }

  /** The page to edit a school, whose id is one path segment. */
  lemma EditPage(id: string)
    requires id != "" && '/' !in id
    ensures IsSchoolEdit("/schools/" + id + "/edit") && IsSchoolEdit("/schools/" + id + "/edit/")
  {
    var a, b := "/schools/" + id + "/edit", "/schools/" + id + "/edit/";
    var n := 9 + |id|;
    assert a[9..n] == id && a[n..] == "/edit" && b[9..n] == id && b[n..] == "/edit/";
  }

  /** Only these pages are special. */
  lemma SpecialsExactly(path: string)
    ensures SpecialPermission(path).Some?
            <==> path in ["/schools/new", "/schools/new/", "/parents/new", "/parents/new/", "/users/new", "/users/new/",
                          "/settings/security", "/settings/security/"] || IsSchoolEdit(path)
    ensures IsSchoolEdit(path) && path !in ["/schools/new", "/schools/new/"] ==>
              SpecialPermission(path) == Some(SchoolsUpdate)
  {
    hide IsSchoolEdit;
  }

  /** Where visitors end up, in plain paths. */
  lemma VisitorsEnd(auth: Auth, path: string)
    requires !auth.isLoading && OnSite(path)
    ensures !auth.isAuthenticated ==> Followed(auth, path, 2) == "/login"
    ensures auth.isAuthenticated && auth.mustChangePassword ==>
              Followed(auth, path, 2)
              == if path == "/change-password" || "/change-password/" <= path then path else "/change-password"
    ensures auth.isAuthenticated && !auth.mustChangePassword && (path == "/" || path == "/login") ==>
              Followed(auth, path, 2) == "/dashboard"
    ensures auth.isAuthenticated && !auth.mustChangePassword && path == "/billing" ==>
              Followed(auth, path, 2) == "/billing/subscriptions"
    ensures auth.isAuthenticated && !auth.mustChangePassword && IsProtectedPath(path) && path != "/billing" ==>
              Followed(auth, path, 2) == path
  {
    hide Followed, IsProtectedPath;
    TwoSteps(auth, path);
    PublicPaths();
    UnderMeans(path, CHANGE_PASSWORD);
    assert CHANGE_PASSWORD + "/" == "/change-password/";
    assert |BILLING| == 8 && |LOGIN| == 6;
    hide Under;
  }

  /** What is looked up is the address up to its first question mark. */
  lemma QueryIsCutOff(path: string, query: string)
    requires '?' !in path
    ensures WithoutQuery(path + "?" + query) == path && WithoutQuery(path) == path
  {
    IndexOfCharAfter(path, '?', query);
    IndexOfCharAbsent(path, '?');
    assert path + "?" + query == path + ['?'] + query;
    assert (path + "?" + query)[..|path|] == path;
  }
}
