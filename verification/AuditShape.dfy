/**
 What the audit log shows of a record, entry by entry and at every depth: a relation between the record as it came and
 as it is shown, which the sanitiser of `AuditMetadata` meets and which leaves it no choice.
 */
module AuditShape {
  import opened Wrappers
  import opened Text
  import opened Json
  import opened AuditMetadata

  // ---- the relation ----

  /** In order, every entry that is not a record with nothing to show, each as it is to be shown. */
  ghost predicate ShownRecord(before: Record, after: Record)
    decreases before
  {
    if before == [] then after == []
    else
      var n, m := |before| - 1, |after| - 1;
      if Dropped(before[n]) then ShownRecord(before[..n], after)
      else after != [] && ShownEntry(before[n], after[m]) && ShownRecord(before[..n], after[..m])
  }

  /** Under its own key: the mask if that is sensitive, a record or list shown in turn, anything else unchanged. */
  ghost predicate ShownEntry(before: Field, after: Field)
    decreases before
  {
    && after.key == before.key
    && if IsSensitive(before.key) then after.value == Str("••••••••")
       else
         match before.value
         case Obj(fields) => after.value.Obj? && ShownRecord(fields, after.value.fields)
         case Arr(items) => after.value.Arr? && ShownList(items, after.value.items)
         case _ => after.value == before.value
  }

  /** Item by item, none lost. */
  ghost predicate ShownList(before: seq<Json>, after: seq<Json>)
    decreases before
  {
    |after| == |before| && forall i | 0 <= i < |before| :: ShownItem(before[i], after[i])
  }

  /** A string that looks secret is masked, a record with nothing to show is null. */
  ghost predicate ShownItem(before: Json, after: Json)
    decreases before
  {
    match before
    case Str(s) => after == if LooksSecret(s) then Str("••••••••") else before
    case Arr(items) => after.Arr? && ShownList(items, after.items)
    case Obj(fields) => if Hollow(fields) then after == Null else after.Obj? && ShownRecord(fields, after.fields)
    case _ => after == before
  }

  // ---- the sanitiser meets it ----

  lemma {:induction false} RecordIsShown(fields: Record)
    ensures ShownRecord(fields, SanitizedFields(fields))
    decreases fields
  {
    hide SanitizedField, Dropped, ShownEntry;
    if fields != [] {
      var n := |fields| - 1;
      RecordIsShown(fields[..n]);
      FieldIsShown(fields[n]);
      var shown := SanitizedFields(fields);
      if !Dropped(fields[n]) {
        assert shown[..|shown| - 1] == SanitizedFields(fields[..n]);
      } else {
        assert shown == SanitizedFields(fields[..n]);
      }
    }
  }

  lemma {:induction false} FieldIsShown(f: Field)
    ensures if Dropped(f) then SanitizedField(f) == []
            else |SanitizedField(f)| == 1 && ShownEntry(f, SanitizedField(f)[0])
    decreases f
  {
    hide IsSensitive, Hollow, SanitizedFields, SanitizedItems, ShownRecord, ShownList;
    DroppedExactlyWhenHollow(f);
    if !IsSensitive(f.key) {
      if f.value.Obj? {
        RecordIsShown(f.value.fields);
        EmptyExactlyWhenHollow(f.value.fields);
      } else if f.value.Arr? {
        ListIsShown(f.key, f.value.items);
      }
    }
  }

  lemma {:induction false} ListIsShown(key: string, items: seq<Json>)
    requires !IsSensitive(key)
    ensures ShownList(items, SanitizedItems(key, items))
    decreases items
  {
    hide IsSensitive, SanitizedValue, ItemKey, ShownItem;
    if items != [] {
      var n := |items| - 1;
      ListIsShown(key, items[..n]);
      ItemKeySensitivity(key, n);
      ItemIsShown(ItemKey(key, n), items[n]);
      var shown := SanitizedItems(key, items);
      forall i | 0 <= i < |items| ensures ShownItem(items[i], shown[i]) {
        if i < n { assert shown[i] == SanitizedItems(key, items[..n])[i] && items[i] == items[..n][i]; }
      }
    }
  }

  lemma {:induction false} ItemIsShown(key: string, item: Json)
    requires !IsSensitive(key)
    ensures ShownItem(item, SanitizedValue(key, item))
    decreases item
  {
    hide IsSensitive, SanitizedFields, SanitizedItems, Hollow, ShownRecord, ShownList, LooksSecret;
    match item
    case Arr(items) => ListIsShown(key, items);
    case Obj(fields) =>
      RecordIsShown(fields);
      EmptyExactlyWhenHollow(fields);
    case _ =>
  }

  // ---- and leaves no choice ----

  lemma {:induction false} OneRecordIsShown(before: Record, a: Record, b: Record)
    requires ShownRecord(before, a) && ShownRecord(before, b)
    ensures a == b
    decreases before
  {
    hide Dropped, ShownEntry;
    if before != [] {
      var n := |before| - 1;
      if Dropped(before[n]) {
        OneRecordIsShown(before[..n], a, b);
      } else {
        OneRecordIsShown(before[..n], a[..|a| - 1], b[..|b| - 1]);
        OneEntryIsShown(before[n], a[|a| - 1], b[|b| - 1]);
        assert a == a[..|a| - 1] + [a[|a| - 1]] && b == b[..|b| - 1] + [b[|b| - 1]];
      }
    }
  }

  lemma {:induction false} OneEntryIsShown(before: Field, a: Field, b: Field)
    requires ShownEntry(before, a) && ShownEntry(before, b)
    ensures a == b
    decreases before
  {
    hide IsSensitive, ShownRecord, ShownList;
    if !IsSensitive(before.key) {
      match before.value
      case Obj(fields) => OneRecordIsShown(fields, a.value.fields, b.value.fields);
      case Arr(items) => OneListIsShown(items, a.value.items, b.value.items);
      case _ =>
    }
  }

  lemma {:induction false} OneListIsShown(before: seq<Json>, a: seq<Json>, b: seq<Json>)
    requires ShownList(before, a) && ShownList(before, b)
    ensures a == b
    decreases before
  {
    hide ShownItem;
    forall i | 0 <= i < |before| ensures a[i] == b[i] {
      OneItemIsShown(before[i], a[i], b[i]);
    }
  }

  lemma {:induction false} OneItemIsShown(before: Json, a: Json, b: Json)
    requires ShownItem(before, a) && ShownItem(before, b)
    ensures a == b
    decreases before
  {
    hide LooksSecret, Hollow, ShownRecord, ShownList;
    match before
    case Arr(items) => OneListIsShown(items, a.items, b.items);
    case Obj(fields) => if !Hollow(fields) { OneRecordIsShown(fields, a.fields, b.fields); }
    case _ =>
  }

  /** The sanitised record is the one record that may be shown for it, and there is none exactly if it is hollow. */
  lemma SanitizedExactly(metadata: Record, out: Record)
    ensures SanitizedRecord(Some(metadata)) == Some(out) <==> !Hollow(metadata) && ShownRecord(metadata, out)
    ensures SanitizedRecord(Some(metadata)) == None <==> Hollow(metadata)
    ensures SanitizedRecord(None) == None
  {
    hide Hollow, ShownRecord, SanitizedFields;
    RecordIsShown(metadata);
    EmptyExactlyWhenHollow(metadata);
    if ShownRecord(metadata, out) { OneRecordIsShown(metadata, out, SanitizedFields(metadata)); }
  }

  /** A value on its own: under a sensitive key null stays null and all else is masked, otherwise it is as in a list. */
  lemma ValueIsShown(key: string, value: Json)
    ensures IsSensitive(key) ==> SanitizedValue(key, value) == if value.Null? then Null else Str("••••••••")
    ensures !IsSensitive(key) ==> ShownItem(value, SanitizedValue(key, value))
  {
    hide IsSensitive, ShownItem;
    if !IsSensitive(key) { ItemIsShown(key, value); }
  }

  // ---- the words ----

  /** A key is sensitive exactly if it contains one of these words, in any case. */
  lemma SensitiveWords(key: string)
    ensures IsSensitive(key)
            <==> exists word | word in ["token", "secret", "password", "authorization", "cookie", "rtsp", "signed",
                                        "url", "credential", "access_token", "refresh_token", "jwt", "key", "hash",
                                        "proof_url", "playlist", "segment_path"] :: Contains(Lower(key), word)
  {
    hide Contains, Lower;
    var words := SENSITIVE_KEY_PARTS;
    if IsSensitive(key) {
      var i :| 0 <= i < |words| && Contains(Lower(key), words[i]);
      assert words[i] in words;
    }
    if exists word | word in words :: Contains(Lower(key), word) {
      var word :| word in words && Contains(Lower(key), word);
      var i :| 0 <= i < |words| && words[i] == word;
    }
  }

  /** A string in a list looks secret exactly if it is longer than twelve characters and contains one of these words. */
  lemma SecretWords(s: string)
    ensures LooksSecret(s)
            <==> |s| > 12 && exists word | word in ["token", "secret", "password", "jwt", "bearer"] ::
                   Contains(Lower(s), word)
  {
    hide Contains, Lower;
    var words := SECRET_VALUE_PARTS;
    if LooksSecret(s) {
      var i :| 0 <= i < |words| && Contains(Lower(s), words[i]);
      assert words[i] in words;
    }
    if exists word | word in words :: Contains(Lower(s), word) {
      var word :| word in words && Contains(Lower(s), word);
      var i :| 0 <= i < |words| && words[i] == word;
    }
  }
}
