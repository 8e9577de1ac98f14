/** Alerts as the server sends them: which key of the answer each field of a normalised alert comes from. */
module AlertWire {
  import opened Wrappers
  import opened Text
  import opened Json
  import opened AlertMetadata
  import opened Alerts

  // ---- any record ----

  /** A string with something in it; any other value counts as absent. */
  function Given(v: Option<Json>): Option<string> {
    match v
    case Some(Str(s)) => if Trim(s) == "" then None else Some(s)
    case _ => None
  }

  /** The value under the first key if that is present, whatever it is, and under the second otherwise. */
  function Either(record: Record, first: string, second: string): Option<Json> {
    if Lookup(record, first).Some? then Lookup(record, first) else Lookup(record, second)
  }

  lemma PickOne(record: Record, key: string)
    ensures Pick(record, [key]) == Lookup(record, key)
  {
    hide Lookup;
    assert [key][1..] == [];
  }

  lemma PickTwo(record: Record, first: string, second: string)
    ensures Pick(record, [first, second]) == Either(record, first, second)
  {
    hide Lookup;
    assert [first, second][1..] == [second];
    PickOne(record, second);
  }

  lemma PickThree(record: Record, first: string, second: string, third: string)
    ensures Pick(record, [first, second, third])
            == if Lookup(record, first).Some? then Lookup(record, first) else Either(record, second, third)
  {
    hide Lookup;
    assert [first, second, third][1..] == [second, third];
    PickTwo(record, second, third);
  }

  lemma PickFour(record: Record, first: string, second: string, third: string, fourth: string)
    ensures Pick(record, [first, second, third, fourth])
            == if Lookup(record, first).Some? then Lookup(record, first)
               else if Lookup(record, second).Some? then Lookup(record, second) else Either(record, third, fourth)
  {
    hide Lookup;
    assert [first, second, third, fourth][1..] == [second, third, fourth];
    PickThree(record, second, third, fourth);
  }

  lemma GivenIsText(v: Option<Json>)
    ensures TextOf(v) == Given(v)
  {
  }

  /** Names and times: the server's spelling wins over the dashboard's, and what is no text counts as absent. */
  lemma PlacesAndTimes(parse: string -> Option<Json>, r: Record)
    ensures var a := NormalizeAlert(parse, Obj(r));
            && a.schoolId == Given(Either(r, "school_id", "schoolId"))
            && a.schoolName == Given(Either(r, "school_name", "schoolName"))
            && a.cameraId == Given(Either(r, "camera_id", "cameraId"))
            && a.cameraName == Given(Either(r, "camera_name", "cameraName"))
            && a.updatedAt == Given(Either(r, "updated_at", "updatedAt"))
            && a.resolvedAt == Given(Either(r, "resolved_at", "resolvedAt"))
            && a.acknowledgedAt == (if a.status == "acknowledged" then a.updatedAt else None)
  {
    hide Lookup, Pick, Trim, TextOf, NormalizeStatus, NormalizeSeverity, ParseMetadata, Given, Either;
    PickTwo(r, "school_id", "schoolId");
    PickTwo(r, "school_name", "schoolName");
    PickTwo(r, "camera_id", "cameraId");
    PickTwo(r, "camera_name", "cameraName");
    PickTwo(r, "updated_at", "updatedAt");
    PickTwo(r, "resolved_at", "resolvedAt");
    forall v: Option<Json> ensures TextOf(v) == Given(v) { GivenIsText(v); }
  }

  lemma WordsOfAlert(parse: string -> Option<Json>, r: Record)
    ensures var a := NormalizeAlert(parse, Obj(r));
            && a.id == Given(Lookup(r, "id")).GetOr("")
            && a.title == Given(Lookup(r, "title")).GetOr("")
            && a.message == Given(Lookup(r, "message")).GetOr(Given(Lookup(r, "title")).GetOr(""))
            && a.severity == NormalizeSeverity(Lookup(r, "severity"))
            && a.status == NormalizeStatus(Lookup(r, "status"))
            && a.metadata == ParseMetadata(parse, Lookup(r, "metadata"))
  {
    hide Lookup, Pick, Trim, TextOf, NormalizeStatus, NormalizeSeverity, ParseMetadata, Given;
    PickOne(r, "id");
    PickOne(r, "title");
    PickOne(r, "message");
    PickOne(r, "severity");
    PickOne(r, "status");
    PickOne(r, "metadata");
    forall v: Option<Json> ensures TextOf(v) == Given(v) { GivenIsText(v); }
  }

  lemma KindAndOpening(parse: string -> Option<Json>, r: Record)
    ensures var a := NormalizeAlert(parse, Obj(r));
            && a.kind == Given(if Lookup(r, "alert_type").Some? then Lookup(r, "alert_type")
                               else Either(r, "alertType", "type")).GetOr("UNKNOWN")
            && a.createdAt == Given(if Lookup(r, "opened_at").Some? then Lookup(r, "opened_at")
                                    else if Lookup(r, "openedAt").Some? then Lookup(r, "openedAt")
                                    else Either(r, "created_at", "createdAt"))
  {
    hide Lookup, Pick, Trim, TextOf, NormalizeStatus, NormalizeSeverity, ParseMetadata, Given, Either;
    PickThree(r, "alert_type", "alertType", "type");
    PickFour(r, "opened_at", "openedAt", "created_at", "createdAt");
    forall v: Option<Json> ensures TextOf(v) == Given(v) { GivenIsText(v); }
  }

  /** Severities and statuses are known in any case; everything else, and every value that is no string, is unknown. */
  lemma SeverityWords(s: string)
    ensures NormalizeSeverity(Some(Str(s)))
            == if Lower(s) == "critical" then "critical" else if Lower(s) == "warning" then "warning"
               else if Lower(s) == "info" then "info" else "unknown"
    ensures NormalizeSeverity(None) == "unknown" && NormalizeSeverity(Some(Null)) == "unknown"
  {
    assert Lower("") == "";
  }

  lemma StatusWords(s: string)
    ensures NormalizeStatus(Some(Str(s)))
            == if Lower(s) == "open" then "open" else if Lower(s) == "acknowledged" then "acknowledged"
               else if Lower(s) == "resolved" then "resolved" else "unknown"
    ensures NormalizeStatus(None) == "unknown" && NormalizeStatus(Some(Null)) == "unknown"
  {
    assert Lower("") == "";
  }

  /** Metadata may come as an object or as its text; anything else is no metadata. */
  lemma MetadataReads(parse: string -> Option<Json>, fields: Record, text: string, items: seq<Json>)
    ensures ParseMetadata(parse, Some(Obj(fields))) == Some(Sanitized(fields))
    ensures parse(text) == Some(Obj(fields)) ==> ParseMetadata(parse, Some(Str(text))) == Some(Sanitized(fields))
    ensures parse(text) == None || parse(text) == Some(Arr(items)) || parse(text) == Some(Null) ==>
              ParseMetadata(parse, Some(Str(text))) == None
    ensures ParseMetadata(parse, None) == None && ParseMetadata(parse, Some(Null)) == None
    ensures ParseMetadata(parse, Some(Arr(items))) == None
  {
    hide Sanitized;
  }

  /** What is no record is an alert without anything. */
  lemma NoRecord(parse: string -> Option<Json>, items: seq<Json>)
    ensures NormalizeAlert(parse, Arr(items))
            == Alert("", "UNKNOWN", "unknown", "unknown", "", "", None, None, None, None, None, None, None, None, None)
    ensures NormalizeAlert(parse, Null) == NormalizeAlert(parse, Arr(items))
  {
    WordsOfAlert(parse, []);
    KindAndOpening(parse, []);
    PlacesAndTimes(parse, []);
    SeverityWords("");
    StatusWords("");
    hide NormalizeSeverity, NormalizeStatus;
    assert NormalizeAlert(parse, Arr(items)) == NormalizeAlert(parse, Obj([])) by {
      hide Pick, TextOf;
      assert AsRecord(Arr(items)) == AsRecord(Obj([])) == [];
    }
  }

  // ---- the server's own record ----

  /** The keys of an alert as the server writes it, each with a value or left out. */
  datatype ServerAlert = ServerAlert(
    id: Option<Json>,
    alertType: Option<Json>,
    severity: Option<Json>,
    status: Option<Json>,
    title: Option<Json>,
    message: Option<Json>,
    schoolId: Option<Json>,
    schoolName: Option<Json>,
    cameraId: Option<Json>,
    cameraName: Option<Json>,
    openedAt: Option<Json>,
    updatedAt: Option<Json>,
    resolvedAt: Option<Json>,
    metadata: Option<Json>)

  const SERVER_KEYS: seq<string> := [
    "id", "alert_type", "severity", "status", "title", "message", "school_id", "school_name", "camera_id",
    "camera_name", "opened_at", "updated_at", "resolved_at", "metadata"]

  function ServerValues(a: ServerAlert): (vs: seq<Option<Json>>)
    ensures |vs| == |SERVER_KEYS|
  {
    [a.id, a.alertType, a.severity, a.status, a.title, a.message, a.schoolId, a.schoolName, a.cameraId, a.cameraName,
     a.openedAt, a.updatedAt, a.resolvedAt, a.metadata]
  }

  /** The entries that are there. */
  function Present(keys: seq<string>, values: seq<Option<Json>>): Record
    requires |keys| == |values|
  {
    if keys == [] then []
    else (if values[0].Some? then [Field(keys[0], values[0].value)] else []) + Present(keys[1..], values[1..])
  }

  lemma {:induction false} PresentLookup(keys: seq<string>, values: seq<Option<Json>>, key: string)
    requires |keys| == |values| && forall i, j | 0 <= i < j < |keys| :: keys[i] != keys[j]
    ensures key !in keys ==> Lookup(Present(keys, values), key) == None
    ensures forall i | 0 <= i < |keys| && keys[i] == key :: Lookup(Present(keys, values), key) == values[i]
  {
    if keys != [] {
      var rest := Present(keys[1..], values[1..]);
      PresentLookup(keys[1..], values[1..], key);
      assert keys == [keys[0]] + keys[1..];
      if values[0].Some? {
        var record := [Field(keys[0], values[0].value)] + rest;
        assert record[1..] == rest;
      } else {
        assert [] + rest == rest;
      }
      assert key !in keys ==> key !in keys[1..];
      forall i | 0 <= i < |keys| && keys[i] == key ensures Lookup(Present(keys, values), key) == values[i] {
        if i == 0 {
          if values[0].None? { assert key !in keys[1..]; }
        } else {
          assert keys[1..][i - 1] == key && values[1..][i - 1] == values[i];
        }
      }
    }
  }

  lemma ServerKeysAreDistinct()
    ensures forall i, j | 0 <= i < j < |SERVER_KEYS| :: SERVER_KEYS[i] != SERVER_KEYS[j]
  {
  }

  function Sent(a: ServerAlert): Record {
    Present(SERVER_KEYS, ServerValues(a))
  }

  lemma SentLookup(a: ServerAlert, i: nat)
    requires i < |SERVER_KEYS|
    ensures Lookup(Sent(a), SERVER_KEYS[i]) == ServerValues(a)[i]
  {
    hide Lookup, Present, ServerValues;
    ServerKeysAreDistinct();
    PresentLookup(SERVER_KEYS, ServerValues(a), SERVER_KEYS[i]);
  }

  lemma OwnSpellingsAreNotSent(a: ServerAlert, key: string)
    requires key in ["alertType", "type", "openedAt", "created_at", "createdAt", "schoolId", "schoolName", "cameraId",
                     "cameraName", "updatedAt", "resolvedAt"]
    ensures Lookup(Sent(a), key) == None
  {
    hide Lookup, Present, ServerValues;
    ServerKeysAreDistinct();
    PresentLookup(SERVER_KEYS, ServerValues(a), key);
    NotServerKey(key);
  }

  lemma NotServerKey(key: string)
    requires key in ["alertType", "type", "openedAt", "created_at", "createdAt", "schoolId", "schoolName", "cameraId",
                     "cameraName", "updatedAt", "resolvedAt"]
    ensures key !in SERVER_KEYS
  {
  }

  lemma SentWords(a: ServerAlert)
    ensures var r := Sent(a);
            && Lookup(r, "id") == a.id && Lookup(r, "alert_type") == a.alertType && Lookup(r, "severity") == a.severity
            && Lookup(r, "status") == a.status && Lookup(r, "title") == a.title && Lookup(r, "message") == a.message
            && Lookup(r, "metadata") == a.metadata
  {
    hide Lookup, Sent;
    SentLookup(a, 0);
    SentLookup(a, 1);
    SentLookup(a, 2);
    SentLookup(a, 3);
    SentLookup(a, 4);
    SentLookup(a, 5);
    SentLookup(a, 13);
  }

  lemma SentPlaces(a: ServerAlert)
    ensures var r := Sent(a);
            && Lookup(r, "school_id") == a.schoolId && Lookup(r, "school_name") == a.schoolName
            && Lookup(r, "camera_id") == a.cameraId && Lookup(r, "camera_name") == a.cameraName
            && Lookup(r, "opened_at") == a.openedAt && Lookup(r, "updated_at") == a.updatedAt
            && Lookup(r, "resolved_at") == a.resolvedAt
  {
    hide Lookup, Sent;
    SentLookup(a, 6);
    SentLookup(a, 7);
    SentLookup(a, 8);
    SentLookup(a, 9);
    SentLookup(a, 10);
    SentLookup(a, 11);
    SentLookup(a, 12);
  }

  lemma SentWithoutOwnSpellings(a: ServerAlert)
    ensures var r := Sent(a);
            && Lookup(r, "alertType") == None && Lookup(r, "type") == None && Lookup(r, "openedAt") == None
            && Lookup(r, "created_at") == None && Lookup(r, "createdAt") == None && Lookup(r, "schoolId") == None
            && Lookup(r, "schoolName") == None && Lookup(r, "cameraId") == None && Lookup(r, "cameraName") == None
            && Lookup(r, "updatedAt") == None && Lookup(r, "resolvedAt") == None
  {
    hide Lookup, Sent;
    OwnSpellingsAreNotSent(a, "alertType");
    OwnSpellingsAreNotSent(a, "type");
    OwnSpellingsAreNotSent(a, "openedAt");
    OwnSpellingsAreNotSent(a, "created_at");
    OwnSpellingsAreNotSent(a, "createdAt");
    OwnSpellingsAreNotSent(a, "schoolId");
    OwnSpellingsAreNotSent(a, "schoolName");
    OwnSpellingsAreNotSent(a, "cameraId");
    OwnSpellingsAreNotSent(a, "cameraName");
    OwnSpellingsAreNotSent(a, "updatedAt");
    OwnSpellingsAreNotSent(a, "resolvedAt");
  }

  /** An alert from the server: every field is the value under its own key, or the default of the source. */
  lemma ServerAlertReads(parse: string -> Option<Json>, a: ServerAlert)
    ensures var n := NormalizeAlert(parse, Obj(Sent(a)));
            && n.id == Given(a.id).GetOr("") && n.kind == Given(a.alertType).GetOr("UNKNOWN")
            && n.severity == NormalizeSeverity(a.severity) && n.status == NormalizeStatus(a.status)
            && n.title == Given(a.title).GetOr("") && n.message == Given(a.message).GetOr(Given(a.title).GetOr(""))
            && n.schoolId == Given(a.schoolId) && n.schoolName == Given(a.schoolName)
            && n.cameraId == Given(a.cameraId) && n.cameraName == Given(a.cameraName)
            && n.createdAt == Given(a.openedAt) && n.updatedAt == Given(a.updatedAt)
            && n.resolvedAt == Given(a.resolvedAt) && n.metadata == ParseMetadata(parse, a.metadata)
  {
    hide Lookup, Sent, NormalizeAlert, NormalizeSeverity, NormalizeStatus, ParseMetadata, Given;
    SentWords(a);
    SentPlaces(a);
    SentWithoutOwnSpellings(a);
    WordsOfAlert(parse, Sent(a));
    KindAndOpening(parse, Sent(a));
    PlacesAndTimes(parse, Sent(a));
  }

  /** A severity or status that is no string is read through its text: a list of one string counts as that string. */
  lemma OtherValuesRead(s: string, fields: Record, b: bool)
    ensures NormalizeSeverity(Some(Arr([Str(s)]))) == NormalizeSeverity(Some(Str(s)))
    ensures NormalizeStatus(Some(Arr([Str(s)]))) == NormalizeStatus(Some(Str(s)))
    ensures NormalizeSeverity(Some(Obj(fields))) == "unknown" && NormalizeSeverity(Some(Bool(b))) == "unknown"
    ensures NormalizeStatus(Some(Obj(fields))) == "unknown" && NormalizeStatus(Some(Bool(b))) == "unknown"
  {
    assert JsString(Arr([Str(s)])) == s;
    assert JsString(Obj(fields)) == "[object Object]" && Lower("[object Object]")[0] == '[';
    assert Lower("true") == "true" && Lower("false") == "false";
  }
}
