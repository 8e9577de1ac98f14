/**
 The metadata sanitiser of `lib/admin/alerts-normalizer.ts`: it masks sensitive keys, stream addresses and signed
 links in a record and in records nested directly in it, and never drops an entry. It does not enter lists.
 */
module AlertMetadata {
  import opened Wrappers
  import opened Text
  import opened Json

  const KEY_PARTS: seq<string> := [
    "token", "secret", "password", "key", "rtsp", "url", "signed", "credential", "authorization", "chat_id",
    "recipient"]

  const MASK := "••••••••"

  predicate IsSensitive(key: string) {
    ContainsAny(Lower(key), KEY_PARTS)
  }

  predicate IsLineTerminator(c: char) {
    c == '\n' || c == '\r' || c as int == 0x2028 || c as int == 0x2029
  }

  predicate OneLine(s: string) {
    forall k | 0 <= k < |s| :: !IsLineTerminator(s[k])
  }

  /** `/^rtsp:/i`. */
  predicate IsStreamAddress(s: string) {
    StartsWith(Lower(s), "rtsp:")
  }

  /** What follows the scheme in `/^https?:\/\/.+\?.*sig=/i`: some text, a question mark and, further on, `sig=`. */
  predicate HasSignature(rest: string) {
    exists q, e | 1 <= q < e <= |rest| ::
      rest[q] == '?' && At(rest, "sig=", e) && OneLine(rest[..q]) && OneLine(rest[q + 1..e])
  }

  predicate IsSignedLink(s: string) {
    var lower := Lower(s);
    || (StartsWith(lower, "http://") && HasSignature(lower[7..]))
    || (StartsWith(lower, "https://") && HasSignature(lower[8..]))
  }

  predicate MaskedString(s: string) {
    IsStreamAddress(s) || IsSignedLink(s)
  }

  // ---- what the sanitiser computes ----

  function SanitizedValue(field: Field): Json
    decreases field
  {
    if IsSensitive(field.key) then Str(MASK)
    else
      match field.value
      case Obj(fields) => Obj(Sanitized(fields))
      case Str(s) => if MaskedString(s) then Str(MASK) else field.value
      case _ => field.value
  }

  function Sanitized(meta: Record): (r: Record)
    ensures |r| == |meta|
    decreases meta
  {
    if meta == [] then []
    else
      var n := |meta| - 1;
      Sanitized(meta[..n]) + [Field(meta[n].key, SanitizedValue(meta[n]))]
  }

  method SanitizeMetadata(meta: Record) returns (out: Record)
    ensures out == Sanitized(meta)
    decreases meta
  {
    out := [];
    for i := 0 to |meta|
      invariant out == Sanitized(meta[..i])
    {
      assert meta[..i + 1][..i] == meta[..i];
      var key, value := meta[i].key, meta[i].value;
      if IsSensitive(key) {
        out := out + [Field(key, Str(MASK))];
      } else if value.Obj? {
        var nested := SanitizeMetadata(value.fields);
        out := out + [Field(key, Obj(nested))];
      } else if value.Str? && MaskedString(value.s) {
        out := out + [Field(key, Str(MASK))];
      } else {
        out := out + [Field(key, value)];
      }
    }
    assert meta[..|meta|] == meta;
  }

  /** Entry by entry, since each is treated on its own. */
  lemma {:induction false} SanitizedAt(meta: Record, i: nat)
    requires i < |meta|
    ensures Sanitized(meta)[i] == Field(meta[i].key, SanitizedValue(meta[i]))
    decreases |meta|
  {
    if i < |meta| - 1 { SanitizedAt(meta[..|meta| - 1], i); }
  }

  // ---- shape and meaning ----

  /** The same keys in the same order in the record and in every record kept inside it. */
  predicate SameKeys(before: Record, after: Record)
    decreases before
  {
    && |before| == |after|
    && forall i | 0 <= i < |before| :: SameKeysAt(before[i], after[i])
  }

  predicate SameKeysAt(before: Field, after: Field)
    decreases before
  {
    && before.key == after.key
    && (before.value.Obj? && !IsSensitive(before.key) ==>
          after.value.Obj? && SameKeys(before.value.fields, after.value.fields))
  }

  /** Nothing left to mask in the records the sanitiser enters, which are those not inside a list. */
  predicate Clean(meta: Record)
    decreases meta
  {
    forall i | 0 <= i < |meta| :: CleanField(meta[i])
  }

  predicate CleanField(f: Field)
    decreases f
  {
    if IsSensitive(f.key) then f.value == Str(MASK)
    else
      match f.value
      case Obj(fields) => Clean(fields)
      case Str(s) => !MaskedString(s)
      case _ => true
  }

  /** The sanitiser keeps exactly the keys of every record it enters. */
  lemma {:induction false} KeysAreKept(meta: Record)
    ensures SameKeys(meta, Sanitized(meta))
    decreases meta
  {
    hide IsSensitive, MaskedString;
    forall i | 0 <= i < |meta| ensures SameKeysAt(meta[i], Sanitized(meta)[i]) {
      SanitizedAt(meta, i);
      if meta[i].value.Obj? { KeysAreKept(meta[i].value.fields); }
    }
  }

  lemma MaskIsClean()
    ensures !MaskedString(MASK)
  {
    assert MASK[0] == '•' && Lower(MASK)[0] == '•';
  }

  lemma {:induction false} SanitizedIsClean(meta: Record)
    ensures Clean(Sanitized(meta))
    decreases meta
  {
    hide IsSensitive, MaskedString;
    MaskIsClean();
    forall i | 0 <= i < |meta| ensures CleanField(Sanitized(meta)[i]) {
      SanitizedAt(meta, i);
      if meta[i].value.Obj? { SanitizedIsClean(meta[i].value.fields); }
    }
  }

  lemma {:induction false} CleanIsFixed(meta: Record)
    requires Clean(meta)
    ensures Sanitized(meta) == meta
    decreases meta
  {
    hide IsSensitive, MaskedString;
    forall i | 0 <= i < |meta| ensures Sanitized(meta)[i] == meta[i] {
      SanitizedAt(meta, i);
      assert CleanField(meta[i]);
      if meta[i].value.Obj? && !IsSensitive(meta[i].key) { CleanIsFixed(meta[i].value.fields); }
    }
  }

  /** Sanitising changes nothing exactly when there is nothing left to mask. */
  lemma FixedExactlyWhenClean(meta: Record)
    ensures Sanitized(meta) == meta <==> Clean(meta)
  {
    if Sanitized(meta) == meta { SanitizedIsClean(meta); }
    if Clean(meta) { CleanIsFixed(meta); }
  }

  lemma SanitizingIsIdempotent(meta: Record)
    ensures Sanitized(Sanitized(meta)) == Sanitized(meta)
  {
    SanitizedIsClean(meta);
    CleanIsFixed(Sanitized(meta));
  }

  // ---- lists ----

  /** Nothing left to mask at any depth, in lists as well. */
  predicate DeepClean(meta: Record)
    decreases meta
  {
    forall i | 0 <= i < |meta| :: DeepCleanField(meta[i])
  }

  predicate DeepCleanField(f: Field)
    decreases f
  {
    if IsSensitive(f.key) then f.value == Str(MASK) else DeepCleanValue(f.value)
  }

  predicate DeepCleanValue(v: Json)
    decreases v
  {
    match v
    case Obj(fields) => DeepClean(fields)
    case Arr(items) => forall i | 0 <= i < |items| :: DeepCleanValue(items[i])
    case Str(s) => !MaskedString(s)
    case _ => true
  }

  /** Every list reached through harmless keys holds nothing to mask. */
  predicate ListsAreClean(meta: Record)
    decreases meta
  {
    forall i | 0 <= i < |meta| && !IsSensitive(meta[i].key) :: ListsInAreClean(meta[i].value)
  }

  predicate ListsInAreClean(v: Json)
    decreases v
  {
    (v.Arr? ==> DeepCleanValue(v)) && (v.Obj? ==> ListsAreClean(v.fields))
  }

  /** What is shown is clean at every depth exactly when the lists in it, which are not entered, already were. */
  lemma {:induction false} DeepCleanExactly(meta: Record)
    ensures DeepClean(Sanitized(meta)) <==> ListsAreClean(meta)
    decreases meta
  {
    hide IsSensitive, MaskedString;
    MaskIsClean();
    forall i | 0 <= i < |meta|
      ensures DeepCleanField(Sanitized(meta)[i]) <==> (!IsSensitive(meta[i].key) ==> ListsInAreClean(meta[i].value))
    {
      SanitizedAt(meta, i);
      if meta[i].value.Obj? { DeepCleanExactly(meta[i].value.fields); }
    }
    if ListsAreClean(meta) {
      assert forall i | 0 <= i < |meta| :: DeepCleanField(Sanitized(meta)[i]);
    }
    if DeepClean(Sanitized(meta)) {
      assert forall i | 0 <= i < |meta| :: DeepCleanField(Sanitized(meta)[i]);
    }
  }

  /** A token in a record inside a list is left as it is. */
  lemma ListEscapes(secret: Json)
    requires secret != Str(MASK)
    ensures var meta := [Field("cams", Arr([Obj([Field("token", secret)])]))];
            Sanitized(meta) == meta && Clean(meta) && !DeepClean(meta)
  {
    var inner := [Field("token", secret)];
    var meta := [Field("cams", Arr([Obj(inner)]))];
    TokenIsSensitive();
    CamsIsHarmless();
    hide IsSensitive, MaskedString;
    assert !DeepCleanField(inner[0]);
    assert !DeepClean(inner);
    assert !DeepCleanValue(Arr([Obj(inner)])) by {
      assert !DeepCleanValue([Obj(inner)][0]);
    }
    assert !DeepCleanField(meta[0]);
    assert CleanField(meta[0]);
    CleanIsFixed(meta);
  }

  lemma TokenIsSensitive()
    ensures IsSensitive("token")
  {
    assert Lower("token") == "token" && At("token", KEY_PARTS[0], 0);
  }

  lemma CamsIsHarmless()
    ensures !IsSensitive("cams")
  {
    assert Lower("cams") == "cams";
    forall i | 0 <= i < |KEY_PARTS| ensures !Contains("cams", KEY_PARTS[i]) {
      assert KEY_PARTS[i] == "key" || KEY_PARTS[i] == "rtsp" || KEY_PARTS[i] == "url" || |KEY_PARTS[i]| > 4;
      if KEY_PARTS[i] == "key" || KEY_PARTS[i] == "rtsp" || KEY_PARTS[i] == "url" {
        forall k | 0 <= k <= 4 ensures !At("cams", KEY_PARTS[i], k) {
          NotAtWithoutFirst("cams", KEY_PARTS[i], k);
        }
      }
    }
  }

  /** `parseMetadata`, with `JSON.parse` as a parameter that fails on text that is no JSON. */
  function ParseMetadata(parse: string -> Option<Json>, value: Option<Json>): Option<Record> {
    if value.None? || value.value.Null? then None
    else
      var raw := if value.value.Str? then parse(value.value.s) else value;
      if raw.None? || !raw.value.Obj? then None else Some(Sanitized(raw.value.fields))
  }
}
