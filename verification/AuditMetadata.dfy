/**
 The metadata sanitiser of `lib/admin/audit-logs-utils.ts`: sensitive keys are masked at every depth, strings inside
 lists that look like secrets are masked, and records left with nothing are dropped.
 */
module AuditMetadata {
  import opened Wrappers
  import opened Text
  import opened Json

  const SENSITIVE_KEY_PARTS: seq<string> := [
    "token", "secret", "password", "authorization", "cookie", "rtsp", "signed", "url", "credential", "access_token",
    "refresh_token", "jwt", "key", "hash", "proof_url", "playlist", "segment_path"]

  const SECRET_VALUE_PARTS: seq<string> := ["token", "secret", "password", "jwt", "bearer"]

  const MASK := "••••••••"

  predicate IsSensitive(key: string) {
    ContainsAny(Lower(key), SENSITIVE_KEY_PARTS)
  }

  /** A string the sanitiser hides inside a list. */
  predicate LooksSecret(s: string) {
    ContainsAny(Lower(s), SECRET_VALUE_PARTS) && |s| > 12
  }

  function ItemKey(key: string, index: nat): string {
    key + "[" + Digits(index) + "]"
  }

  // ---- what the sanitiser computes ----

  function SanitizedValue(key: string, value: Json): Json
    decreases value
  {
    if IsSensitive(key) then (if value.Null? then Null else Str(MASK))
    else
      match value
      case Str(s) => if LooksSecret(s) then Str(MASK) else value
      case Arr(items) => Arr(SanitizedItems(key, items))
      case Obj(fields) => var kept := SanitizedFields(fields); if kept == [] then Null else Obj(kept)
      case _ => value
  }

  function SanitizedItems(key: string, items: seq<Json>): (r: seq<Json>)
    ensures |r| == |items|
    decreases items
  {
    if items == [] then []
    else
      var n := |items| - 1;
      SanitizedItems(key, items[..n]) + [SanitizedValue(ItemKey(key, n), items[n])]
  }

  /** What becomes of one entry: nothing, or one entry under the same key. */
  function SanitizedField(field: Field): seq<Field>
    decreases field
  {
    if IsSensitive(field.key) then [field.(value := Str(MASK))]
    else
      match field.value
      case Obj(fields) =>
        var nested := SanitizedFields(fields);
        if nested == [] then [] else [field.(value := Obj(nested))]
      case Arr(items) => [field.(value := Arr(SanitizedItems(field.key, items)))]
      case _ => [field]
  }

  function SanitizedFields(fields: Record): Record
    decreases fields
  {
    if fields == [] then []
    else
      var n := |fields| - 1;
      SanitizedFields(fields[..n]) + SanitizedField(fields[n])
  }

  function SanitizedRecord(metadata: Option<Record>): Option<Record> {
    if metadata.None? then None
    else
      var out := SanitizedFields(metadata.value);
      if out == [] then None else Some(out)
  }

  // ---- the source's loops ----

  method SanitizeMetadataValue(key: string, value: Json) returns (r: Json)
    ensures r == SanitizedValue(key, value)
    decreases value, 2
  {
    if IsSensitive(key) {
      if value.Null? { return Null; }
      return Str(MASK);
    }
    match value
    case Str(s) =>
      if LooksSecret(s) { return Str(MASK); }
      return value;
    case Arr(items) =>
      var mapped := SanitizeItems(key, items);
      return Arr(mapped);
    case Obj(fields) =>
      var nested := SanitizeMetadataRecord(Some(fields));
      return if nested.None? then Null else Obj(nested.value);
    case _ =>
      return value;
  }

  method SanitizeItems(key: string, items: seq<Json>) returns (r: seq<Json>)
    ensures r == SanitizedItems(key, items)
    decreases items, 1
  {
    r := [];
    for i := 0 to |items|
      invariant r == SanitizedItems(key, items[..i])
    {
      var item := SanitizeMetadataValue(ItemKey(key, i), items[i]);
      r := r + [item];
      assert items[..i + 1][..i] == items[..i];
    }
    assert items[..|items|] == items;
  }

  method SanitizeMetadataRecord(metadata: Option<Record>) returns (r: Option<Record>)
    ensures r == SanitizedRecord(metadata)
    decreases if metadata.Some? then metadata.value else [], 0
  {
    if metadata.None? { return None; }
    var fields := metadata.value;
    var out: Record := [];
    for i := 0 to |fields|
      invariant out == SanitizedFields(fields[..i])
    {
      assert fields[..i + 1][..i] == fields[..i];
      var key, value := fields[i].key, fields[i].value;
      if IsSensitive(key) {
        out := out + [Field(key, Str(MASK))];
      } else if value.Obj? {
        var nested := SanitizeMetadataRecord(Some(value.fields));
        if nested.Some? { out := out + [Field(key, Obj(nested.value))]; }
      } else if value.Arr? {
        var mapped := SanitizeItems(key, value.items);
        out := out + [Field(key, Arr(mapped))];
      } else {
        out := out + [Field(key, value)];
      }
    }
    assert fields[..|fields|] == fields;
    return if out == [] then None else Some(out);
  }

  // ---- list positions do not change sensitivity ----

  predicate IsWord(s: string) {
    s != "" && forall k | 0 <= k < |s| :: 'a' <= s[k] <= 'z' || s[k] == '_'
  }

  lemma ShortPartsAreWords()
    ensures IsWord("token") && IsWord("secret") && IsWord("cookie") && IsWord("rtsp") && IsWord("signed")
    ensures IsWord("url") && IsWord("jwt") && IsWord("key") && IsWord("hash")
  {
  }

  lemma LongPartsAreWords()
    ensures IsWord("password") && IsWord("authorization") && IsWord("credential") && IsWord("access_token")
  {
  }

  lemma LongestPartsAreWords()
    ensures IsWord("refresh_token") && IsWord("proof_url") && IsWord("playlist") && IsWord("segment_path")
  {
  }

  lemma PartsAreWords()
    ensures forall i | 0 <= i < |SENSITIVE_KEY_PARTS| :: IsWord(SENSITIVE_KEY_PARTS[i])
  {
    hide IsWord;
    ShortPartsAreWords();
    LongPartsAreWords();
    LongestPartsAreWords();
  }

  lemma {:induction false} DigitsAreDigits(n: nat)
    ensures AllDigits(Digits(n))
  {
    if n >= 10 { DigitsAreDigits(n / 10); }
  }

  lemma WordSkipsIndex(key: string, digits: string, word: string)
    requires IsWord(word) && AllDigits(digits)
    ensures Contains(key + "[" + digits + "]", word) <==> Contains(key, word)
  {
    var tail := digits + "]";
    var whole := key + "[" + digits + "]";
    assert whole == key + ['['] + tail;
    forall k ensures At(whole, word, k) <==> At(key, word, k) {
      AtAroundSeparator(key, '[', tail, word, k);
      NotAtWithoutFirst(tail, word, k - |key| - 1);
    }
  }

  /** Appending "[i]" never changes whether a key is sensitive. */
  lemma ItemKeySensitivity(key: string, index: nat)
    ensures IsSensitive(ItemKey(key, index)) <==> IsSensitive(key)
  {
    DigitsAreDigits(index);
    PartsAreWords();
    var d := Digits(index);
    assert Lower(ItemKey(key, index)) == Lower(key) + "[" + d + "]";
    forall i | 0 <= i < |SENSITIVE_KEY_PARTS|
      ensures Contains(Lower(ItemKey(key, index)), SENSITIVE_KEY_PARTS[i])
              <==> Contains(Lower(key), SENSITIVE_KEY_PARTS[i])
    {
      WordSkipsIndex(Lower(key), d, SENSITIVE_KEY_PARTS[i]);
    }
  }

  /** Entries do not influence each other. */
  lemma {:induction false} EntriesAreIndependent(a: Record, b: Record)
    ensures SanitizedFields(a + b) == SanitizedFields(a) + SanitizedFields(b)
    decreases |b|
  {
    if b == [] {
      assert a + b == a;
    } else {
      var n := |b| - 1;
      EntriesAreIndependent(a, b[..n]);
      assert (a + b)[..|a + b| - 1] == a + b[..n];
    }
  }

  // ---- what is dropped ----

  /** Nothing to show: only records under harmless keys, all the way down. */
  predicate Hollow(fields: Record)
    decreases fields
  {
    forall f | f in fields :: !IsSensitive(f.key) && f.value.Obj? && Hollow(f.value.fields)
  }

  predicate Dropped(field: Field) {
    !IsSensitive(field.key) && field.value.Obj? && Hollow(field.value.fields)
  }

  function KeptKeys(fields: Record): seq<string> {
    if fields == [] then []
    else
      var n := |fields| - 1;
      KeptKeys(fields[..n]) + if Dropped(fields[n]) then [] else [fields[n].key]
  }

  lemma HollowNothing()
    ensures Hollow([])
  {
  }

  lemma HollowPush(fields: Record, f: Field)
    ensures Hollow(fields + [f]) <==> Hollow(fields) && Dropped(f)
  {
    hide IsSensitive;
    assert forall g :: g in fields + [f] <==> g in fields || g == f;
  }

  /** A record sanitises to nothing exactly when it is hollow. */
  lemma {:induction false} EmptyExactlyWhenHollow(fields: Record)
    ensures SanitizedFields(fields) == [] <==> Hollow(fields)
    decreases fields
  {
    hide Hollow, Dropped, SanitizedField;
    HollowNothing();
    if fields != [] {
      var n := |fields| - 1;
      EmptyExactlyWhenHollow(fields[..n]);
      DroppedExactlyWhenHollow(fields[n]);
      HollowPush(fields[..n], fields[n]);
      assert fields == fields[..n] + [fields[n]];
    }
  }

  lemma {:induction false} DroppedExactlyWhenHollow(f: Field)
    ensures Dropped(f) ==> SanitizedField(f) == []
    ensures !Dropped(f) ==> |SanitizedField(f)| == 1 && SanitizedField(f)[0].key == f.key
    decreases f
  {
    hide IsSensitive, Hollow, SanitizedFields;
    if f.value.Obj? { EmptyExactlyWhenHollow(f.value.fields); }
  }

  /** The keys kept, in order, are all but those of hollow records. */
  lemma {:induction false} KeysKept(fields: Record)
    ensures Keys(SanitizedFields(fields)) == KeptKeys(fields)
    decreases fields
  {
    hide Dropped, SanitizedField;
    if fields != [] {
      var n := |fields| - 1;
      var f := fields[n];
      KeysKept(fields[..n]);
      DroppedExactlyWhenHollow(f);
      assert Keys(SanitizedField(f)) == if Dropped(f) then [] else [f.key];
      assert Keys(SanitizedFields(fields)) == Keys(SanitizedFields(fields[..n])) + Keys(SanitizedField(f));
    }
  }

  // ---- what is shown ----

  /** Fit to be shown: every sensitive key masked and no empty record or secret-looking list item, at any depth. */
  predicate Presentable(fields: Record)
    decreases fields
  {
    forall f | f in fields :: PresentableField(f)
  }

  predicate PresentableField(f: Field)
    decreases f
  {
    if IsSensitive(f.key) then f.value == Str(MASK)
    else
      match f.value
      case Obj(nested) => nested != [] && Presentable(nested)
      case Arr(items) => PresentableItems(items)
      case _ => true
  }

  predicate PresentableItems(items: seq<Json>)
    decreases items
  {
    forall item | item in items :: PresentableItem(item)
  }

  predicate PresentableItem(item: Json)
    decreases item
  {
    match item
    case Str(s) => !LooksSecret(s)
    case Arr(items) => PresentableItems(items)
    case Obj(nested) => nested != [] && Presentable(nested)
    case _ => true
  }

  lemma MaskIsNoSecret()
    ensures !LooksSecret(MASK)
  {
  }

  lemma PresentablePush(fields: Record, f: Field)
    ensures Presentable(fields + [f]) <==> Presentable(fields) && PresentableField(f)
  {
    hide PresentableField;
    assert forall g :: g in fields + [f] <==> g in fields || g == f;
  }

  lemma {:induction false} SanitizedIsPresentable(fields: Record)
    ensures Presentable(SanitizedFields(fields))
    decreases fields
  {
    hide PresentableField;
    if fields != [] {
      var n := |fields| - 1;
      SanitizedIsPresentable(fields[..n]);
      SanitizedFieldPresentable(fields[n]);
      var shown := SanitizedField(fields[n]);
      if shown != [] {
        assert shown == [shown[0]];
        PresentablePush(SanitizedFields(fields[..n]), shown[0]);
      }
    }
  }

  lemma {:induction false} SanitizedFieldPresentable(f: Field)
    ensures SanitizedField(f) != [] ==> PresentableField(SanitizedField(f)[0])
    decreases f
  {
    hide IsSensitive, LooksSecret;
    if !IsSensitive(f.key) {
      if f.value.Obj? { SanitizedIsPresentable(f.value.fields); }
      if f.value.Arr? { SanitizedItemsPresentable(f.key, f.value.items); }
    }
  }

  lemma {:induction false} SanitizedItemsPresentable(key: string, items: seq<Json>)
    requires !IsSensitive(key)
    ensures PresentableItems(SanitizedItems(key, items))
    decreases items
  {
    hide IsSensitive, LooksSecret;
    if items != [] {
      var n := |items| - 1;
      SanitizedItemsPresentable(key, items[..n]);
      ItemKeySensitivity(key, n);
      SanitizedItemPresentable(ItemKey(key, n), items[n]);
    }
  }

  lemma {:induction false} SanitizedItemPresentable(key: string, item: Json)
    requires !IsSensitive(key)
    ensures PresentableItem(SanitizedValue(key, item))
    decreases item
  {
    hide IsSensitive, LooksSecret;
    MaskIsNoSecret();
    match item
    case Arr(items) => SanitizedItemsPresentable(key, items);
    case Obj(fields) => SanitizedIsPresentable(fields);
    case _ =>
  }

  /** Sanitising leaves a record alone exactly when it was fit to be shown. */
  lemma {:induction false} FixedExactlyWhenPresentable(fields: Record)
    ensures SanitizedFields(fields) == fields <==> Presentable(fields)
    decreases fields
  {
    if SanitizedFields(fields) == fields { SanitizedIsPresentable(fields); }
    if Presentable(fields) { PresentableIsFixed(fields); }
  }

  lemma {:induction false} PresentableIsFixed(fields: Record)
    requires Presentable(fields)
    ensures SanitizedFields(fields) == fields
    decreases fields
  {
    hide PresentableField, SanitizedField;
    if fields != [] {
      var n := |fields| - 1;
      assert fields[n] in fields;
      PresentableIsFixed(fields[..n]);
      PresentableFieldFixed(fields[n]);
    }
  }

  lemma {:induction false} PresentableFieldFixed(f: Field)
    requires PresentableField(f)
    ensures SanitizedField(f) == [f]
    decreases f
  {
    hide IsSensitive, LooksSecret;
    if !IsSensitive(f.key) {
      if f.value.Obj? { PresentableIsFixed(f.value.fields); }
      if f.value.Arr? { PresentableItemsFixed(f.key, f.value.items); }
    }
  }

  lemma {:induction false} PresentableItemsFixed(key: string, items: seq<Json>)
    requires !IsSensitive(key) && PresentableItems(items)
    ensures SanitizedItems(key, items) == items
    decreases items
  {
    hide IsSensitive, LooksSecret;
    if items != [] {
      var n := |items| - 1;
      PresentableItemsFixed(key, items[..n]);
      ItemKeySensitivity(key, n);
      assert items[n] in items;
      PresentableItemFixed(ItemKey(key, n), items[n]);
    }
  }

  lemma {:induction false} PresentableItemFixed(key: string, item: Json)
    requires !IsSensitive(key) && PresentableItem(item)
    ensures SanitizedValue(key, item) == item
    decreases item
  {
    hide IsSensitive, LooksSecret;
    match item
    case Arr(items) => PresentableItemsFixed(key, items);
    case Obj(fields) => PresentableIsFixed(fields);
    case _ =>
  }

  /** Sanitising twice is sanitising once, for the record as a whole and for any value under any key. */
  lemma SanitizingIsIdempotent(metadata: Option<Record>, key: string, value: Json)
    ensures SanitizedRecord(SanitizedRecord(metadata)) == SanitizedRecord(metadata)
    ensures SanitizedValue(key, SanitizedValue(key, value)) == SanitizedValue(key, value)
  {
    hide LooksSecret;
    if metadata.Some? {
      SanitizedIsPresentable(metadata.value);
      PresentableIsFixed(SanitizedFields(metadata.value));
    }
    if !IsSensitive(key) {
      SanitizedItemPresentable(key, value);
      PresentableItemFixed(key, SanitizedValue(key, value));
    }
  }
}
