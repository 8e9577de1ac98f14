/**
 Alerts of `lib/admin/alerts-normalizer.ts`: normalisation of whatever the server sends, the client-side filters and
 the summary counters.
 */
module Alerts {
  import opened Wrappers
  import opened Text
  import opened Json
  import opened AlertMetadata

  datatype Alert = Alert(
    id: string,
    kind: string,
    severity: string,
    status: string,
    title: string,
    message: string,
    schoolId: Option<string>,
    schoolName: Option<string>,
    cameraId: Option<string>,
    cameraName: Option<string>,
    createdAt: Option<string>,
    updatedAt: Option<string>,
    acknowledgedAt: Option<string>,
    resolvedAt: Option<string>,
    metadata: Option<Record>)

  function NormalizeSeverity(v: Option<Json>): string {
    var s := Lower(JsStringOr(v));
    if s in ["critical", "warning", "info"] then s else "unknown"
  }

  function NormalizeStatus(v: Option<Json>): string {
    var s := Lower(JsStringOr(v));
    if s in ["open", "acknowledged", "resolved"] then s else "unknown"
  }

  /** `normalizeAlert`, with `JSON.parse` as a parameter. */
  function NormalizeAlert(parse: string -> Option<Json>, raw: Json): Alert {
    var row := AsRecord(raw);
    var status := NormalizeStatus(Pick(row, ["status"]));
    var title := TextOf(Pick(row, ["title"])).GetOr("");
    var updatedAt := TextOf(Pick(row, ["updated_at", "updatedAt"]));
    Alert(
      TextOf(Pick(row, ["id"])).GetOr(""),
      TextOf(Pick(row, ["alert_type", "alertType", "type"])).GetOr("UNKNOWN"),
      NormalizeSeverity(Pick(row, ["severity"])),
      status,
      title,
      TextOf(Pick(row, ["message"])).GetOr(title),
      TextOf(Pick(row, ["school_id", "schoolId"])),
      TextOf(Pick(row, ["school_name", "schoolName"])),
      TextOf(Pick(row, ["camera_id", "cameraId"])),
      TextOf(Pick(row, ["camera_name", "cameraName"])),
      TextOf(Pick(row, ["opened_at", "openedAt", "created_at", "createdAt"])),
      updatedAt,
      if status == "acknowledged" then updatedAt else None,
      TextOf(Pick(row, ["resolved_at", "resolvedAt"])),
      ParseMetadata(parse, Pick(row, ["metadata"])))
  }

  /** The property names of a normalised alert, in the order it is built. */
  const NAMES: seq<string> := [
    "id", "type", "severity", "status", "title", "message", "schoolId", "schoolName", "cameraId", "cameraName",
    "createdAt", "updatedAt", "acknowledgedAt", "resolvedAt", "metadata"]

  function Values(a: Alert): (vs: seq<Json>)
    ensures |vs| == |NAMES|
  {
    [Str(a.id), Str(a.kind), Str(a.severity), Str(a.status), Str(a.title), Str(a.message), OrNull(a.schoolId),
     OrNull(a.schoolName), OrNull(a.cameraId), OrNull(a.cameraName), OrNull(a.createdAt), OrNull(a.updatedAt),
     OrNull(a.acknowledgedAt), OrNull(a.resolvedAt), if a.metadata.Some? then Obj(a.metadata.value) else Null]
  }

  /** A normalised alert as the object it is. */
  function AlertRecord(a: Alert): (r: Record)
    ensures |r| == |NAMES| && forall i | 0 <= i < |NAMES| :: r[i] == Field(NAMES[i], Values(a)[i])
  {
    seq(|NAMES|, i requires 0 <= i < |NAMES| => Field(NAMES[i], Values(a)[i]))
  }

  // ---- normalising again ----

  lemma NamesAreDistinct()
    ensures forall i, j | 0 <= i < j < |NAMES| :: NAMES[i] != NAMES[j]
  {
  }

  /** The server's own spellings do not clash with the normalised names. */
  lemma ServerNamesAreOthers(name: string)
    requires name in ["alert_type", "alertType", "updated_at", "resolved_at", "school_id", "school_name", "camera_id",
                      "camera_name", "opened_at", "openedAt", "created_at"]
    ensures name !in NAMES
  {
  }

  lemma NameFound(a: Alert, i: nat)
    requires i < |NAMES|
    ensures Lookup(AlertRecord(a), NAMES[i]) == Some(Values(a)[i])
  {
    hide Lookup, Values;
    NamesAreDistinct();
    LookupAt(AlertRecord(a), i);
  }

  lemma OtherNameAbsent(a: Alert, name: string)
    requires name in ["alert_type", "alertType", "updated_at", "resolved_at", "school_id", "school_name", "camera_id",
                      "camera_name", "opened_at", "openedAt", "created_at"]
    ensures Lookup(AlertRecord(a), name) == None
  {
    hide Lookup, Values;
    ServerNamesAreOthers(name);
    LookupAbsent(AlertRecord(a), name);
  }

  lemma PickOwn(a: Alert, i: nat)
    requires i < |NAMES|
    ensures Pick(AlertRecord(a), [NAMES[i]]) == Some(Values(a)[i])
  {
    hide Lookup, Values;
    NameFound(a, i);
  }

  lemma PickSecond(a: Alert, other: string, i: nat)
    requires i < |NAMES| && Lookup(AlertRecord(a), other) == None
    ensures Pick(AlertRecord(a), [other, NAMES[i]]) == Some(Values(a)[i])
  {
    hide Lookup, Values;
    NameFound(a, i);
    assert [other, NAMES[i]][1..] == [NAMES[i]];
  }

  /** A text the normaliser let through. */
  predicate Shown(o: Option<string>) {
    o.Some? ==> Trim(o.value) != ""
  }

  lemma SeverityAgain(v: Option<Json>)
    ensures NormalizeSeverity(Some(Str(NormalizeSeverity(v)))) == NormalizeSeverity(v)
  {
    assert Lower("critical") == "critical" && Lower("warning") == "warning" && Lower("info") == "info";
    assert Lower("unknown") == "unknown" && "unknown" !in ["critical", "warning", "info"];
  }

  lemma StatusAgain(v: Option<Json>)
    ensures NormalizeStatus(Some(Str(NormalizeStatus(v)))) == NormalizeStatus(v)
  {
    assert Lower("open") == "open" && Lower("acknowledged") == "acknowledged" && Lower("resolved") == "resolved";
    assert Lower("unknown") == "unknown" && "unknown" !in ["open", "acknowledged", "resolved"];
  }

  /** The shape of everything `normalizeAlert` returns. */
  predicate Normal(a: Alert) {
    && Shown(a.schoolId) && Shown(a.schoolName) && Shown(a.cameraId) && Shown(a.cameraName)
    && Shown(a.createdAt) && Shown(a.updatedAt) && Shown(a.resolvedAt)
    && a.acknowledgedAt == (if a.status == "acknowledged" then a.updatedAt else None)
    && (a.id != "" ==> Trim(a.id) != "") && Trim(a.kind) != "" && (a.title != "" ==> Trim(a.title) != "")
    && (Trim(a.message) == "" ==> a.message == a.title)
    && NormalizeSeverity(Some(Str(a.severity))) == a.severity && NormalizeStatus(Some(Str(a.status))) == a.status
    && (a.metadata.Some? ==> Sanitized(a.metadata.value) == a.metadata.value)
  }

  lemma MetadataAgain(parse: string -> Option<Json>, v: Option<Json>)
    ensures var m := ParseMetadata(parse, v); m.Some? ==> Sanitized(m.value) == m.value
  {
    hide Sanitized;
    if ParseMetadata(parse, v).Some? {
      SanitizingIsIdempotent((if v.value.Str? then parse(v.value.s) else v).value.fields);
    }
  }

  lemma TextIsShown(v: Option<Json>)
    ensures Shown(TextOf(v))
  {
  }

  lemma NormalizedIsNormal(parse: string -> Option<Json>, raw: Json)
    ensures Normal(NormalizeAlert(parse, raw))
  {
    hide Pick, NormalizeSeverity, NormalizeStatus, Trim, Sanitized, ParseMetadata, TextOf, AsRecord;
    var row := AsRecord(raw);
    forall v: Option<Json> ensures Shown(TextOf(v)) { TextIsShown(v); }
    TrimId("UNKNOWN");
    TrimBlank();
    SeverityAgain(Pick(row, ["severity"]));
    StatusAgain(Pick(row, ["status"]));
    MetadataAgain(parse, Pick(row, ["metadata"]));
  }

  /** What each lookup of `normalizeAlert` finds in a normalised alert. */
  lemma PicksOfAlert(a: Alert)
    ensures var r := AlertRecord(a);
            && Pick(r, ["id"]) == Some(Str(a.id)) && Pick(r, ["severity"]) == Some(Str(a.severity))
            && Pick(r, ["status"]) == Some(Str(a.status)) && Pick(r, ["title"]) == Some(Str(a.title))
            && Pick(r, ["message"]) == Some(Str(a.message))
            && Pick(r, ["metadata"]) == Some(Values(a)[14])
  {
    hide Pick, AlertRecord;
    PickOwn(a, 0);
    PickOwn(a, 2);
    PickOwn(a, 3);
    PickOwn(a, 4);
    PickOwn(a, 5);
    PickOwn(a, 14);
  }

  lemma RespelledPicksOfAlert(a: Alert)
    ensures var r := AlertRecord(a);
            && Pick(r, ["school_id", "schoolId"]) == Some(OrNull(a.schoolId))
            && Pick(r, ["school_name", "schoolName"]) == Some(OrNull(a.schoolName))
            && Pick(r, ["camera_id", "cameraId"]) == Some(OrNull(a.cameraId))
            && Pick(r, ["camera_name", "cameraName"]) == Some(OrNull(a.cameraName))
            && Pick(r, ["updated_at", "updatedAt"]) == Some(OrNull(a.updatedAt))
            && Pick(r, ["resolved_at", "resolvedAt"]) == Some(OrNull(a.resolvedAt))
  {
    hide Pick, AlertRecord, Lookup;
    OtherNameAbsent(a, "school_id");
    PickSecond(a, "school_id", 6);
    OtherNameAbsent(a, "school_name");
    PickSecond(a, "school_name", 7);
    OtherNameAbsent(a, "camera_id");
    PickSecond(a, "camera_id", 8);
    OtherNameAbsent(a, "camera_name");
    PickSecond(a, "camera_name", 9);
    OtherNameAbsent(a, "updated_at");
    PickSecond(a, "updated_at", 11);
    OtherNameAbsent(a, "resolved_at");
    PickSecond(a, "resolved_at", 13);
  }

  lemma PickSkips(record: Record, other: string, keys: seq<string>)
    requires Lookup(record, other) == None
    ensures Pick(record, [other] + keys) == Pick(record, keys)
  {
    assert ([other] + keys)[1..] == keys;
  }

  lemma LongPicksOfAlert(a: Alert)
    ensures var r := AlertRecord(a);
            && Pick(r, ["alert_type", "alertType", "type"]) == Some(Str(a.kind))
            && Pick(r, ["opened_at", "openedAt", "created_at", "createdAt"]) == Some(OrNull(a.createdAt))
  {
    hide Pick, AlertRecord, Lookup;
    var r := AlertRecord(a);
    OtherNameAbsent(a, "alert_type");
    OtherNameAbsent(a, "alertType");
    PickSecond(a, "alertType", 1);
    PickSkips(r, "alert_type", ["alertType", "type"]);
    assert ["alert_type"] + ["alertType", "type"] == ["alert_type", "alertType", "type"];
    OtherNameAbsent(a, "opened_at");
    OtherNameAbsent(a, "openedAt");
    OtherNameAbsent(a, "created_at");
    PickSecond(a, "created_at", 10);
    PickSkips(r, "openedAt", ["created_at", "createdAt"]);
    assert ["openedAt"] + ["created_at", "createdAt"] == ["openedAt", "created_at", "createdAt"];
    PickSkips(r, "opened_at", ["openedAt", "created_at", "createdAt"]);
    assert ["opened_at"] + ["openedAt", "created_at", "createdAt"]
        == ["opened_at", "openedAt", "created_at", "createdAt"];
  }

  lemma NormalIsFixed(parse: string -> Option<Json>, a: Alert)
    requires Normal(a)
    ensures NormalizeAlert(parse, Obj(AlertRecord(a))) == a
  {
    hide Pick, AlertRecord, NormalizeSeverity, NormalizeStatus, Trim, Sanitized;
    TrimBlank();
    PicksOfAlert(a);
    RespelledPicksOfAlert(a);
    LongPicksOfAlert(a);
    assert ParseMetadata(parse, Some(Values(a)[14])) == a.metadata;
  }

  /** Normalising an alert that is already normalised returns the same alert, whatever the server first sent. */
  lemma NormalizingIsIdempotent(parse: string -> Option<Json>, raw: Json)
    ensures var a := NormalizeAlert(parse, raw); NormalizeAlert(parse, Obj(AlertRecord(a))) == a
  {
    NormalizedIsNormal(parse, raw);
    NormalIsFixed(parse, NormalizeAlert(parse, raw));
  }

  // ---- filters and summary ----

  datatype Filters = Filters(
    status: Option<string>,
    severity: Option<string>,
    alertType: Option<string>,
    schoolId: Option<string>,
    cameraId: Option<string>,
    search: Option<string>)

  const NO_FILTERS := Filters(None, None, None, None, None, None)

  predicate Chosen(o: Option<string>) {
    Truthy(o) && o.value != "all"
  }

  function JoinGiven(parts: seq<Option<string>>): string {
    if parts == [] then ""
    else
      var rest := JoinGiven(parts[1..]);
      if !Truthy(parts[0]) then rest
      else if rest == "" then parts[0].value else parts[0].value + " " + rest
  }

  function Haystack(a: Alert): string {
    JoinGiven([Some(a.message), Some(a.title), Some(a.kind), a.schoolName, a.cameraName, a.schoolId, a.cameraId])
  }

  predicate Matches(a: Alert, filters: Filters) {
    var search := Lower(Trim(filters.search.GetOr("")));
    && (Chosen(filters.status) ==> a.status == Lower(filters.status.value))
    && (Chosen(filters.severity) ==> a.severity == Lower(filters.severity.value))
    && (Chosen(filters.alertType) ==> a.kind == filters.alertType.value)
    && (Truthy(filters.schoolId) ==> a.schoolId == filters.schoolId)
    && (Truthy(filters.cameraId) ==> a.cameraId == filters.cameraId)
    && (search != "" ==> Contains(Lower(Haystack(a)), search))
  }

  /** `filterAlertsClientSide`. */
  function Filtered(alerts: seq<Alert>, filters: Filters): seq<Alert> {
    if alerts == [] then []
    else
      var n := |alerts| - 1;
      Filtered(alerts[..n], filters) + if Matches(alerts[n], filters) then [alerts[n]] else []
  }

  function ByStatus(status: string): Filters {
    NO_FILTERS.(status := Some(status))
  }

  function BySeverity(severity: string): Filters {
    NO_FILTERS.(severity := Some(severity))
  }

  function ResolvedBySeverity(severity: string): Filters {
    BySeverity(severity).(status := Some("resolved"))
  }

  /** The delivery fields the summary and the index read. */
  datatype Delivery = Delivery(alertId: string, status: Option<string>)

  predicate Failed(d: Delivery) {
    Upper(d.status.GetOr("")) in ["FAILED", "ERROR"]
  }

  function FailedDeliveries(ds: seq<Delivery>): seq<Delivery> {
    if ds == [] then []
    else
      var n := |ds| - 1;
      FailedDeliveries(ds[..n]) + if Failed(ds[n]) then [ds[n]] else []
  }

  predicate ResolvedOn(a: Alert, day: string) {
    a.resolvedAt.Some? && StartsWith(a.resolvedAt.value, day)
  }

  function ResolvedOnDay(alerts: seq<Alert>, day: string): seq<Alert> {
    if alerts == [] then []
    else
      var n := |alerts| - 1;
      ResolvedOnDay(alerts[..n], day) + if ResolvedOn(alerts[n], day) then [alerts[n]] else []
  }

  datatype Summary = Summary(
    open: nat,
    critical: nat,
    warning: nat,
    acknowledged: nat,
    resolvedToday: nat,
    telegramFailures: nat)

  /** With a single status or severity chosen, the filter is the plain comparison. */
  lemma SingleChoices(a: Alert)
    ensures Matches(a, ByStatus("open")) <==> a.status == "open"
    ensures Matches(a, ByStatus("acknowledged")) <==> a.status == "acknowledged"
    ensures forall s | s in ["critical", "warning"] ::
              && (Matches(a, BySeverity(s)) <==> a.severity == s)
              && (Matches(a, ResolvedBySeverity(s)) <==> a.severity == s && a.status == "resolved")
  {
    hide Haystack, Contains;
    TrimBlank();
    assert Lower("") == "";
    assert Lower("open") == "open" && Lower("acknowledged") == "acknowledged" && Lower("resolved") == "resolved";
    assert Lower("critical") == "critical" && Lower("warning") == "warning";
  }

  /**
   The counters are the lengths of the corresponding filtered lists; critical and warning alerts are counted unless
   resolved.
   */
  method ComputeAlertsSummary(alerts: seq<Alert>, deliveries: seq<Delivery>, todayKey: string) returns (s: Summary)
    ensures s.open == |Filtered(alerts, ByStatus("open"))|
    ensures s.acknowledged == |Filtered(alerts, ByStatus("acknowledged"))|
    ensures s.critical + |Filtered(alerts, ResolvedBySeverity("critical"))|
            == |Filtered(alerts, BySeverity("critical"))|
    ensures s.warning + |Filtered(alerts, ResolvedBySeverity("warning"))|
            == |Filtered(alerts, BySeverity("warning"))|
    ensures s.resolvedToday == |ResolvedOnDay(alerts, todayKey)|
    ensures s.telegramFailures == |FailedDeliveries(deliveries)|
  {
    hide Matches;
    var open, critical, warning, acknowledged, resolvedToday := 0, 0, 0, 0, 0;
    for i := 0 to |alerts|
      invariant open == |Filtered(alerts[..i], ByStatus("open"))|
      invariant acknowledged == |Filtered(alerts[..i], ByStatus("acknowledged"))|
      invariant critical + |Filtered(alerts[..i], ResolvedBySeverity("critical"))|
                == |Filtered(alerts[..i], BySeverity("critical"))|
      invariant warning + |Filtered(alerts[..i], ResolvedBySeverity("warning"))|
                == |Filtered(alerts[..i], BySeverity("warning"))|
      invariant resolvedToday == |ResolvedOnDay(alerts[..i], todayKey)|
    {
      var alert := alerts[i];
      SingleChoices(alert);
      assert alerts[..i + 1][..i] == alerts[..i];
      if alert.status == "open" { open := open + 1; }
      if alert.status == "acknowledged" { acknowledged := acknowledged + 1; }
      if alert.severity == "critical" && alert.status != "resolved" { critical := critical + 1; }
      if alert.severity == "warning" && alert.status != "resolved" { warning := warning + 1; }
      if ResolvedOn(alert, todayKey) { resolvedToday := resolvedToday + 1; }
    }
    assert alerts[..|alerts|] == alerts;
    s := Summary(open, critical, warning, acknowledged, resolvedToday, |FailedDeliveries(deliveries)|);
  }

  // ---- deliveries by alert ----

  function DeliveriesOf(ds: seq<Delivery>, id: string): seq<Delivery> {
    if ds == [] then []
    else
      var n := |ds| - 1;
      DeliveriesOf(ds[..n], id) + if ds[n].alertId == id then [ds[n]] else []
  }

  type Index = map<string, seq<Delivery>>

  function Listed(index: Index, id: string): seq<Delivery> {
    if id in index then index[id] else []
  }

  ghost function TotalListed(index: Index): nat
    decreases |index|
  {
    if index == map[] then 0
    else
      var id :| id in index;
      |index[id]| + TotalListed(index - {id})
  }

  /** The total does not depend on the order in which the lists are visited. */
  lemma {:induction false} TotalWithout(index: Index, id: string)
    requires id in index
    ensures TotalListed(index) == |index[id]| + TotalListed(index - {id})
    decreases |index|
  {
    var first :| first in index && TotalListed(index) == |index[first]| + TotalListed(index - {first});
    if first != id {
      TotalWithout(index - {first}, id);
      TotalWithout(index - {id}, first);
      assert index - {first} - {id} == index - {id} - {first};
    }
  }

  lemma TotalAfterPush(index: Index, id: string, d: Delivery)
    ensures TotalListed(index[id := Listed(index, id) + [d]]) == TotalListed(index) + 1
  {
    var after := index[id := Listed(index, id) + [d]];
    TotalWithout(after, id);
    if id in index {
      TotalWithout(index, id);
      assert after - {id} == index - {id};
    } else {
      assert after - {id} == index;
    }
  }

  lemma EmptyIndex()
    ensures TotalListed(map[]) == 0 && forall id :: DeliveriesOf([], id) == []
  {
  }

  lemma DeliveriesPush(ds: seq<Delivery>, n: nat)
    requires n < |ds|
    ensures forall id :: DeliveriesOf(ds[..n + 1], id)
                         == DeliveriesOf(ds[..n], id) + if ds[n].alertId == id then [ds[n]] else []
  {
    assert ds[..n + 1][..n] == ds[..n];
  }

  /** The index of `AlertsPage`: per alert, its deliveries in order, with nothing lost and no list empty. */
  method IndexDeliveries(deliveries: seq<Delivery>) returns (index: Index)
    ensures forall id :: Listed(index, id) == DeliveriesOf(deliveries, id)
    ensures forall id :: id in index <==> DeliveriesOf(deliveries, id) != []
    ensures TotalListed(index) == |deliveries|
  {
    index := map[];
    EmptyIndex();
    hide TotalListed, DeliveriesOf;
    for i := 0 to |deliveries|
      invariant forall id :: Listed(index, id) == DeliveriesOf(deliveries[..i], id)
      invariant forall id :: id in index <==> DeliveriesOf(deliveries[..i], id) != []
      invariant TotalListed(index) == i
    {
      var delivery := deliveries[i];
      DeliveriesPush(deliveries, i);
      TotalAfterPush(index, delivery.alertId, delivery);
      var list := Listed(index, delivery.alertId);
      list := list + [delivery];
      index := index[delivery.alertId := list];
    }
    assert deliveries[..|deliveries|] == deliveries;
  }
}
