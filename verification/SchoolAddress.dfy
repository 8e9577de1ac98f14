/**
 The school address codec of `lib/admin/schools-normalizer.ts`: five meta fields and a street, stored in one text
 column as a marked block of `key: value` lines followed by the street.

 `Encoded` and `Decoded` say what the two functions compute; the methods below them are the source's own steps.
 */
module SchoolAddress {
  import opened Wrappers
  import opened Text

  const META_START := "---school-meta---"
  const META_END := "---end-meta---"

  datatype SchoolMeta = SchoolMeta(
    timezone: Option<string>,
    city: Option<string>,
    contactName: Option<string>,
    contactEmail: Option<string>,
    notes: Option<string>,
    streetAddress: Option<string>)

  const EMPTY := SchoolMeta(None, None, None, None, None, None)

  /** The five keys a meta line may carry. */
  datatype MetaKey = Timezone | City | ContactName | ContactEmail | Notes

  function KeyText(key: MetaKey): string {
    match key
    case Timezone => "timezone"
    case City => "city"
    case ContactName => "contact_name"
    case ContactEmail => "contact_email"
    case Notes => "notes"
  }

  function KeyOf(text: string): Option<MetaKey> {
    if text == "timezone" then Some(Timezone)
    else if text == "city" then Some(City)
    else if text == "contact_name" then Some(ContactName)
    else if text == "contact_email" then Some(ContactEmail)
    else if text == "notes" then Some(Notes)
    else None
  }

  function FieldLine(key: MetaKey, value: Option<string>): seq<string> {
    if Truthy(value) then [KeyText(key) + ": " + value.value] else []
  }

  function MetaLines(meta: SchoolMeta): seq<string> {
    FieldLine(Timezone, meta.timezone) + FieldLine(City, meta.city)
    + FieldLine(ContactName, meta.contactName) + FieldLine(ContactEmail, meta.contactEmail)
    + FieldLine(Notes, meta.notes)
  }

  function Encoded(meta: SchoolMeta): string {
    var lines := MetaLines(meta);
    var street := Trim(meta.streetAddress.GetOr(""));
    if lines == [] then street
    else Framed(META_START, JoinLines(lines), META_END, street)
  }

  function Framed(open: string, joined: string, close: string, street: string): string {
    Trim(open + "\n" + joined + "\n" + close + "\n" + street)
  }

  /** `s.slice(a, b)` for non-negative bounds: empty when the bounds cross. */
  function Slice(s: string, a: nat, b: nat): string {
    if a <= b <= |s| then s[a..b] else if a <= |s| < b then s[a..] else ""
  }

  /** What one line of the block does to the fields: split at the first colon, trim, assign if the key is known. */
  function WithLine(fields: SchoolMeta, line: string): SchoolMeta {
    var colon := IndexOfChar(line, ':');
    if colon == -1 then fields
    else
      WithKnownField(fields, KeyOf(Trim(line[..colon])), Trim(line[colon + 1..]))
  }

  function WithKnownField(fields: SchoolMeta, key: Option<MetaKey>, value: string): SchoolMeta {
    if key.None? then fields else WithField(fields, key.value, value)
  }

  function WithField(fields: SchoolMeta, key: MetaKey, value: string): SchoolMeta {
    match key
    case Timezone => fields.(timezone := Some(value))
    case City => fields.(city := Some(value))
    case ContactName => fields.(contactName := Some(value))
    case ContactEmail => fields.(contactEmail := Some(value))
    case Notes => fields.(notes := Some(value))
  }

  function WithLines(fields: SchoolMeta, lines: seq<string>): SchoolMeta
    decreases |lines|
  {
    if lines == [] then fields
    else WithLine(WithLines(fields, lines[..|lines| - 1]), lines[|lines| - 1])
  }

  function MetaBlock(raw: string, start: nat, end: int): string {
    if end < 0 then Slice(raw, start + |META_START|, |raw|) else Slice(raw, start + |META_START|, end)
  }

  function StreetAfter(raw: string, end: int): Option<string> {
    NonEmpty(if end < 0 then "" else Trim(Slice(raw, end + |META_END|, |raw|)))
  }

  function Decoded(raw: string): SchoolMeta {
    var start := IndexOf(raw, META_START, 0);
    if start == -1 then EMPTY.(streetAddress := NonEmpty(Trim(raw)))
    else
      var end := IndexOf(raw, META_END, start);
      WithLines(EMPTY.(streetAddress := StreetAfter(raw, end)), SplitLines(MetaBlock(raw, start, end)))
  }

  // ---- the source's steps ----

  method EncodeSchoolAddress(meta: SchoolMeta) returns (address: string)
    ensures address == Encoded(meta)
  {
    var metaLines: seq<string> := [];
    if Truthy(meta.timezone) { metaLines := metaLines + [KeyText(Timezone) + ": " + meta.timezone.value]; }
    assert metaLines == FieldLine(Timezone, meta.timezone);
    if Truthy(meta.city) { metaLines := metaLines + [KeyText(City) + ": " + meta.city.value]; }
    ghost var two := FieldLine(Timezone, meta.timezone) + FieldLine(City, meta.city);
    assert metaLines == two;
    if Truthy(meta.contactName) { metaLines := metaLines + [KeyText(ContactName) + ": " + meta.contactName.value]; }
    ghost var three := two + FieldLine(ContactName, meta.contactName);
    assert metaLines == three;
    if Truthy(meta.contactEmail) { metaLines := metaLines + [KeyText(ContactEmail) + ": " + meta.contactEmail.value]; }
    assert metaLines == three + FieldLine(ContactEmail, meta.contactEmail);
    if Truthy(meta.notes) { metaLines := metaLines + [KeyText(Notes) + ": " + meta.notes.value]; }
    assert metaLines == MetaLines(meta);
    var street := Trim(meta.streetAddress.GetOr(""));
    if |metaLines| == 0 { return street; }
    return Trim(META_START + "\n" + JoinLines(metaLines) + "\n" + META_END + "\n" + street);
  }

  method AssignField(fields0: SchoolMeta, key: Option<MetaKey>, value: string) returns (fields: SchoolMeta)
    ensures fields == WithKnownField(fields0, key, value)
  {
    fields := fields0;
    if key == Some(Timezone) { fields := fields.(timezone := Some(value)); }
    if key == Some(City) { fields := fields.(city := Some(value)); }
    if key == Some(ContactName) { fields := fields.(contactName := Some(value)); }
    if key == Some(ContactEmail) { fields := fields.(contactEmail := Some(value)); }
    if key == Some(Notes) { fields := fields.(notes := Some(value)); }
  }

  method DecodeSchoolAddress(address: Option<string>) returns (fields: SchoolMeta)
    ensures fields == Decoded(address.GetOr(""))
  {
    hide IndexOf, IndexOfChar, SplitLines, Trim, KeyOf;
    var raw := address.GetOr("");
    var start := IndexOf(raw, META_START, 0);
    if start == -1 { return EMPTY.(streetAddress := NonEmpty(Trim(raw))); }
    var end := IndexOf(raw, META_END, start);
    var lines := SplitLines(MetaBlock(raw, start, end));
    fields := EMPTY.(streetAddress := StreetAfter(raw, end));
    ghost var initial := fields;
    for i := 0 to |lines|
      invariant fields == WithLines(initial, lines[..i])
    {
      assert lines[..i + 1][..i] == lines[..i];
      var line := lines[i];
      var colon := IndexOfChar(line, ':');
      if colon != -1 {
        fields := AssignField(fields, KeyOf(Trim(line[..colon])), Trim(line[colon + 1..]));
      }
    }
    assert lines[..|lines|] == lines;
  }

  // ---- which values survive ----

  /** A value a meta line can carry: trimmed, on one line, and not containing the end marker. */
  predicate Carriable(value: string) {
    Trimmed(value) && '\n' !in value && !Contains(value, META_END)
  }

  predicate CarriableField(o: Option<string>) {
    o.Some? ==> Carriable(o.value)
  }

  /** The predicate holds of every meta field that is present. */
  predicate EveryField(meta: SchoolMeta, p: string -> bool) {
    && (meta.timezone.Some? ==> p(meta.timezone.value)) && (meta.city.Some? ==> p(meta.city.value))
    && (meta.contactName.Some? ==> p(meta.contactName.value))
    && (meta.contactEmail.Some? ==> p(meta.contactEmail.value)) && (meta.notes.Some? ==> p(meta.notes.value))
  }

  predicate CarriableFields(meta: SchoolMeta) {
    && EveryField(meta, Carriable)
    && (meta.streetAddress.Some? ==> meta.streetAddress.value != "" && Trimmed(meta.streetAddress.value))
  }

  predicate NoBlankField(meta: SchoolMeta) {
    EveryField(meta, v => v != "")
  }

  predicate HasMeta(meta: SchoolMeta) {
    Truthy(meta.timezone) || Truthy(meta.city) || Truthy(meta.contactName) || Truthy(meta.contactEmail)
    || Truthy(meta.notes)
  }

  /** The street alone is stored bare, so it must not look like a block. */
  predicate StreetIsPlain(meta: SchoolMeta) {
    !Contains(meta.streetAddress.GetOr(""), META_START)
  }

  function DropBlank(o: Option<string>): Option<string> {
    if Truthy(o) then o else None
  }

  /** The same fields with every empty text read as absent. */
  function WithoutBlanks(meta: SchoolMeta): SchoolMeta {
    SchoolMeta(DropBlank(meta.timezone), DropBlank(meta.city), DropBlank(meta.contactName),
               DropBlank(meta.contactEmail), DropBlank(meta.notes), DropBlank(meta.streetAddress))
  }

  // ---- reading back what was written ----

  lemma KeyOfText(key: MetaKey)
    ensures KeyOf(KeyText(key)) == Some(key) && Trimmed(KeyText(key)) && ':' !in KeyText(key)
  {
  }

  lemma KeyLineDecodes(fields: SchoolMeta, key: MetaKey, value: string)
    requires Trimmed(value)
    ensures WithLine(fields, KeyText(key) + ": " + value) == WithField(fields, key, value)
  {
    KeyOfText(key);
    var text := KeyText(key);
    var line := text + ": " + value;
    assert line == text + [':'] + (" " + value);
    IndexOfCharAfter(text, ':', " " + value);
    assert line[..|text|] == text && line[|text| + 1..] == " " + value;
    TrimId(text);
    TrimAround(" ", value, "");
    assert " " + value + "" == " " + value;
  }

  lemma {:induction false} WithLinesAppend(fields: SchoolMeta, a: seq<string>, b: seq<string>)
    ensures WithLines(fields, a + b) == WithLines(WithLines(fields, a), b)
    decreases |b|
  {
    if b == [] {
      assert a + b == a;
    } else {
      WithLinesAppend(fields, a, b[..|b| - 1]);
      assert (a + b)[..|a + b| - 1] == a + b[..|b| - 1];
    }
  }

  lemma FieldLineDecodes(fields: SchoolMeta, key: MetaKey, o: Option<string>)
    requires CarriableField(o)
    ensures WithLines(fields, FieldLine(key, o)) == if Truthy(o) then WithField(fields, key, o.value) else fields
  {
    if Truthy(o) {
      KeyLineDecodes(fields, key, o.value);
      assert FieldLine(key, o)[..0] == [];
    }
  }

  lemma MetaLinesDecode(meta: SchoolMeta, street: Option<string>)
    requires CarriableFields(meta)
    ensures WithLines(EMPTY.(streetAddress := street), MetaLines(meta))
            == WithoutBlanks(meta).(streetAddress := street)
  {
    hide WithLines, FieldLine;
    var f0 := EMPTY.(streetAddress := street);
    var l1, l2 := FieldLine(Timezone, meta.timezone), FieldLine(City, meta.city);
    var l3, l4 := FieldLine(ContactName, meta.contactName), FieldLine(ContactEmail, meta.contactEmail);
    var l5 := FieldLine(Notes, meta.notes);
    WithLinesAppend(f0, l1, l2);
    WithLinesAppend(f0, l1 + l2, l3);
    WithLinesAppend(f0, l1 + l2 + l3, l4);
    WithLinesAppend(f0, l1 + l2 + l3 + l4, l5);
    FieldLineDecodes(f0, Timezone, meta.timezone);
    FieldLineDecodes(WithLines(f0, l1), City, meta.city);
    FieldLineDecodes(WithLines(f0, l1 + l2), ContactName, meta.contactName);
    FieldLineDecodes(WithLines(f0, l1 + l2 + l3), ContactEmail, meta.contactEmail);
    FieldLineDecodes(WithLines(f0, l1 + l2 + l3 + l4), Notes, meta.notes);
  }

  lemma PrefixedIsClean(head: string, value: string, pat: string)
    requires pat != "" && pat[0] !in head && !Contains(value, pat)
    ensures !Contains(head + value, pat)
  {
    var line := head + value;
    assert forall i | 0 <= i < |head| :: line[i] == head[i] && head[i] != pat[0];
    forall k ensures !At(line, pat, k) {
      if At(line, pat, k) {
        assert line[k] == pat[0];
        assert value[k - |head|..k - |head| + |pat|] == line[k..k + |pat|];
        assert At(value, pat, k - |head|);
      }
    }
  }

  /** No written line contains the end marker, and none is broken in two. */
  lemma FieldLineIsClean(key: MetaKey, o: Option<string>)
    requires CarriableField(o)
    ensures forall l | l in FieldLine(key, o) :: '\n' !in l && !Contains(l, META_END)
  {
    if Truthy(o) {
      var head := KeyText(key) + ": ";
      assert '-' !in head && '\n' !in head;
      PrefixedIsClean(head, o.value, META_END);
    }
  }

  lemma {:induction false} JoinedIsClean(lines: seq<string>)
    requires forall l | l in lines :: !Contains(l, META_END)
    ensures !Contains(JoinLines(lines), META_END)
  {
    if |lines| > 1 {
      var rest := JoinLines(lines[1..]);
      JoinedIsClean(lines[1..]);
      forall k ensures !At(JoinLines(lines), META_END, k) {
        AtAroundSeparator(lines[0], '\n', rest, META_END, k);
        assert At(lines[0], META_END, k) ==> Contains(lines[0], META_END);
        assert At(rest, META_END, k - |lines[0]| - 1) ==> Contains(rest, META_END);
        assert JoinLines(lines) == lines[0] + ['\n'] + rest;
      }
    }
  }

  lemma MetaLinesAreClean(meta: SchoolMeta)
    requires CarriableFields(meta)
    ensures forall l | l in MetaLines(meta) :: '\n' !in l && !Contains(l, META_END)
  {
    FieldLineIsClean(Timezone, meta.timezone);
    FieldLineIsClean(City, meta.city);
    FieldLineIsClean(ContactName, meta.contactName);
    FieldLineIsClean(ContactEmail, meta.contactEmail);
    FieldLineIsClean(Notes, meta.notes);
  }

  /** The text after the end marker: nothing, or a line break and the street. */
  function StreetTail(street: string): string {
    if street == "" then "" else "\n" + street
  }

  lemma FrameTrims(head: string, street: string)
    requires head != "" && !IsSpace(head[0]) && !IsSpace(head[|head| - 1]) && Trimmed(street)
    ensures Trim(head + "\n" + street) == head + StreetTail(street)
  {
    hide Trim;
    if street == "" {
      TrimAround("", head, "\n");
      assert head + "\n" + street == "" + head + "\n";
    } else {
      var tail := "\n" + street;
      assert tail[|tail| - 1] == street[|street| - 1];
      TrimmedConcat(head, tail);
      TrimId(head + tail);
      assert head + "\n" + street == head + tail;
    }
  }

  lemma Regrouped(open: string, joined: string, close: string, tail: string)
    ensures open + "\n" + joined + "\n" + close + tail == open + "\n" + (joined + "\n" + (close + tail))
  {
  }

  lemma FramedForm(open: string, joined: string, close: string, street: string)
    requires open != "" && !IsSpace(open[0]) && close != "" && !IsSpace(close[|close| - 1]) && Trimmed(street)
    ensures Framed(open, joined, close, street) == open + "\n" + (joined + "\n" + (close + StreetTail(street)))
  {
    var head := open + "\n" + joined + "\n" + close;
    assert head[0] == open[0] && head[|head| - 1] == close[|close| - 1];
    FrameTrims(head, street);
    hide IsSpace, Trim, StreetTail;
    Regrouped(open, joined, close, StreetTail(street));
  }

  /** The two cuts the decoder makes in a framed text. */
  lemma FrameCuts(open: string, joined: string, close: string, tail: string)
    ensures var raw, end := open + "\n" + (joined + "\n" + (close + tail)), |open| + 1 + |joined| + 1;
            && Slice(raw, |open|, end) == "\n" + joined + "\n"
            && Slice(raw, end + |close|, |raw|) == tail
  {
    var raw, end := open + "\n" + (joined + "\n" + (close + tail)), |open| + 1 + |joined| + 1;
    assert raw[|open|..end] == "\n" + joined + "\n";
    assert raw[end + |close|..] == tail;
    assert raw[end + |close|..|raw|] == raw[end + |close|..];
  }

  lemma TailTrims(street: string)
    requires Trimmed(street)
    ensures Trim(StreetTail(street)) == street
  {
    if street != "" {
      TrimAround("\n", street, "");
      assert "\n" + street + "" == StreetTail(street);
    }
  }

  lemma EncodedForm(meta: SchoolMeta)
    requires HasMeta(meta)
    ensures MetaLines(meta) != []
    ensures Encoded(meta) == META_START + "\n" + (JoinLines(MetaLines(meta)) + "\n"
                             + (META_END + StreetTail(Trim(meta.streetAddress.GetOr("")))))
  {
    var street := Trim(meta.streetAddress.GetOr(""));
    var _ := TrimIsSlice(meta.streetAddress.GetOr(""));
    var joined := JoinLines(MetaLines(meta));
    FramedForm(META_START, joined, META_END, street);
  }

  lemma FoundAtFront(pat: string, tail: string)
    ensures IndexOf(pat + tail, pat, 0) == 0
  {
    assert (pat + tail)[0..0 + |pat|] == pat;
  }

  lemma StartMarkerIsNotEnd()
    ensures !Contains(META_START, META_END)
  {
    forall k ensures !At(META_START, META_END, k) {
      if 0 <= k <= 3 {
        SliceIndex(META_START, k, |META_END|, 3);
      }
    }
  }

  /** Where the decoder finds the two markers in a written text. */
  lemma MarkersFound(raw: string, joined: string, tail: string)
    requires raw == META_START + "\n" + (joined + "\n" + (META_END + tail))
    requires !Contains(joined, META_END)
    ensures IndexOf(raw, META_START, 0) == 0
    ensures IndexOf(raw, META_END, 0) == |META_START| + 1 + |joined| + 1
  {
    var rest := joined + "\n" + (META_END + tail);
    FoundAtFront(META_START, "\n" + rest);
    assert raw == META_START + ("\n" + rest);
    FoundAtFront(META_END, tail);
    StartMarkerIsNotEnd();
    IndexOfAfter(joined, '\n', META_END + tail, META_END);
    IndexOfAfter(META_START, '\n', rest, META_END);
  }

  lemma BlockLinesDecode(fields: SchoolMeta, lines: seq<string>)
    requires lines != [] && forall i | 0 <= i < |lines| :: '\n' !in lines[i]
    ensures WithLines(fields, SplitLines("\n" + JoinLines(lines) + "\n")) == WithLines(fields, lines)
  {
    var joined := JoinLines(lines);
    SplitJoined(lines, "");
    SplitCons("", joined + "\n" + "");
    assert "\n" + joined + "\n" == "" + "\n" + (joined + "\n" + "");
    WithLinesAppend(fields, [""], lines + [""]);
    WithLinesAppend(fields, lines, [""]);
    assert [""][..0] == [] && (lines + [""])[..|lines|] == lines;
  }

  lemma BlockFound(raw: string, joined: string, tail: string)
    requires raw == META_START + "\n" + (joined + "\n" + (META_END + tail)) && !Contains(joined, META_END)
    ensures var end := |META_START| + 1 + |joined| + 1;
            && IndexOf(raw, META_START, 0) == 0 && IndexOf(raw, META_END, 0) == end
            && MetaBlock(raw, 0, end) == "\n" + joined + "\n"
            && StreetAfter(raw, end) == NonEmpty(Trim(tail))
  {
    hide IndexOf, Contains, Slice, Trim;
    MarkersFound(raw, joined, tail);
    FrameCuts(META_START, joined, META_END, tail);
  }

  /** A block in front of any text is read line by line; the street is the rest, trimmed. */
  lemma BlockDecodes(raw: string, lines: seq<string>, tail: string)
    requires lines != [] && forall i | 0 <= i < |lines| :: '\n' !in lines[i] && !Contains(lines[i], META_END)
    requires raw == META_START + "\n" + (JoinLines(lines) + "\n" + (META_END + tail))
    ensures Decoded(raw) == WithLines(EMPTY.(streetAddress := NonEmpty(Trim(tail))), lines)
  {
    hide IndexOf, Contains, SplitLines, JoinLines, Slice, Trim, MetaBlock, StreetAfter, WithLines;
    JoinedIsClean(lines);
    BlockFound(raw, JoinLines(lines), tail);
    BlockLinesDecode(EMPTY.(streetAddress := NonEmpty(Trim(tail))), lines);
  }

  lemma FramedDecodes(raw: string, lines: seq<string>, street: string)
    requires lines != [] && forall i | 0 <= i < |lines| :: '\n' !in lines[i] && !Contains(lines[i], META_END)
    requires Trimmed(street)
    requires raw == META_START + "\n" + (JoinLines(lines) + "\n" + (META_END + StreetTail(street)))
    ensures Decoded(raw) == WithLines(EMPTY.(streetAddress := NonEmpty(street)), lines)
  {
    hide Decoded, Contains, JoinLines, StreetTail, Trim;
    BlockDecodes(raw, lines, StreetTail(street));
    TailTrims(street);
  }

  /** What was written is read back, blank fields as absent ones. */
  lemma EncodedDecodes(meta: SchoolMeta)
    requires HasMeta(meta) && CarriableFields(meta)
    ensures Decoded(Encoded(meta)) == WithoutBlanks(meta)
  {
    var street := meta.streetAddress.GetOr("");
    TrimId(street);
    EncodedForm(meta);
    MetaLinesAreClean(meta);
    FramedDecodes(Encoded(meta), MetaLines(meta), street);
    MetaLinesDecode(meta, NonEmpty(street));
  }

  // ---- what decoding can return ----

  lemma BlockIsClean(raw: string, start: nat)
    requires start + |META_START| <= |raw|
    ensures !Contains(MetaBlock(raw, start, IndexOf(raw, META_END, start)), META_END)
  {
    var end := IndexOf(raw, META_END, start);
    IndexOfIsFirst(raw, META_END, start);
    var from := start + |META_START|;
    var to := if end < 0 then |raw| else end;
    if from <= to {
      forall k ensures !At(raw[from..to], META_END, k) {
        if At(raw[from..to], META_END, k) {
          AtInSlice(raw, from, to, META_END, k);
        }
      }
    }
  }

  lemma LineValueIsCarriable(line: string, colon: nat)
    requires colon < |line| && '\n' !in line && !Contains(line, META_END)
    ensures Carriable(Trim(line[colon + 1..]))
  {
    var text := line[colon + 1..];
    var from := TrimIsSlice(text);
    var value := Trim(text);
    var a := colon + 1 + from;
    assert value == line[a..a + |value|];
    if Contains(value, META_END) {
      ContainsInSlice(line, a, a + |value|, META_END);
    }
  }

  lemma FieldKeepsPredicate(fields: SchoolMeta, key: Option<MetaKey>, value: string, p: string -> bool)
    requires EveryField(fields, p) && p(value)
    ensures EveryField(WithKnownField(fields, key, value), p)
    ensures WithKnownField(fields, key, value).streetAddress == fields.streetAddress
  {
  }

  lemma LineGivesCarriable(fields: SchoolMeta, line: string)
    requires CarriableFields(fields) && '\n' !in line && !Contains(line, META_END)
    ensures CarriableFields(WithLine(fields, line))
  {
    var colon := IndexOfChar(line, ':');
    if colon >= 0 {
      LineValueIsCarriable(line, colon);
      FieldKeepsPredicate(fields, KeyOf(Trim(line[..colon])), Trim(line[colon + 1..]), Carriable);
    }
  }

  lemma {:induction false} LinesGiveCarriable(fields: SchoolMeta, lines: seq<string>)
    requires CarriableFields(fields)
    requires forall i | 0 <= i < |lines| :: '\n' !in lines[i] && !Contains(lines[i], META_END)
    ensures CarriableFields(WithLines(fields, lines))
    decreases |lines|
  {
    if lines != [] {
      LinesGiveCarriable(fields, lines[..|lines| - 1]);
      LineGivesCarriable(WithLines(fields, lines[..|lines| - 1]), lines[|lines| - 1]);
    }
  }

  lemma StreetIsTrimmed(raw: string, end: int)
    ensures var s := StreetAfter(raw, end); s.Some? ==> s.value != "" && Trimmed(s.value)
    ensures 0 <= end && end + |META_END| <= |raw| ==> |StreetAfter(raw, end).GetOr("")| <= |raw| - end - |META_END|
  {
    if end >= 0 {
      var _ := TrimIsSlice(Slice(raw, end + |META_END|, |raw|));
    }
  }

  /** Whatever text is stored, the fields read from it are ones a written text can carry. */
  lemma DecodedIsCarriable(raw: string)
    ensures CarriableFields(Decoded(raw))
  {
    var start := IndexOf(raw, META_START, 0);
    if start == -1 {
      var _ := TrimIsSlice(raw);
    } else {
      var end := IndexOf(raw, META_END, start);
      var block := MetaBlock(raw, start, end);
      var lines := SplitLines(block);
      StreetIsTrimmed(raw, end);
      BlockIsClean(raw, start);
      forall i | 0 <= i < |lines| ensures '\n' !in lines[i] && !Contains(lines[i], META_END) {
        var from := LineIsSlice(block, i);
        if Contains(lines[i], META_END) {
          ContainsInSlice(block, from, from + |lines[i]|, META_END);
        }
      }
      LinesGiveCarriable(EMPTY.(streetAddress := StreetAfter(raw, end)), lines);
    }
  }

  /** A text with a start marker loses at least the marker: its street is strictly shorter. */
  lemma MarkedStreetIsShorter(raw: string)
    requires Contains(raw, META_START)
    ensures |Decoded(raw).streetAddress.GetOr("")| < |raw|
  {
    IndexOfIsFirst(raw, META_START, 0);
    var start := IndexOf(raw, META_START, 0);
    var end := IndexOf(raw, META_END, start);
    var street := StreetAfter(raw, end);
    WithLinesKeepStreet(EMPTY.(streetAddress := street), SplitLines(MetaBlock(raw, start, end)));
    StreetIsTrimmed(raw, end);
  }

  lemma {:induction false} WithLinesKeepStreet(fields: SchoolMeta, lines: seq<string>)
    ensures WithLines(fields, lines).streetAddress == fields.streetAddress
    decreases |lines|
  {
    if lines != [] {
      WithLinesKeepStreet(fields, lines[..|lines| - 1]);
    }
  }

  /** Without meta fields the column holds the bare street, which is read back unless it contains a start marker. */
  lemma BareStreetDecodes(meta: SchoolMeta)
    requires !HasMeta(meta) && CarriableFields(meta)
    ensures Decoded(Encoded(meta)) == WithoutBlanks(meta) <==> StreetIsPlain(meta)
  {
    var street := meta.streetAddress.GetOr("");
    TrimId(street);
    assert Encoded(meta) == street;
    if StreetIsPlain(meta) {
      IndexOfIsFirst(street, META_START, 0);
    } else {
      MarkedStreetIsShorter(street);
    }
  }

  lemma BareRoundTrip(meta: SchoolMeta)
    requires !HasMeta(meta) && CarriableFields(meta)
    ensures Decoded(Encoded(meta)) == meta <==> NoBlankField(meta) && StreetIsPlain(meta)
  {
    BareStreetDecodes(meta);
    TrimId(meta.streetAddress.GetOr(""));
    if !StreetIsPlain(meta) {
      MarkedStreetIsShorter(Encoded(meta));
    }
  }

  // ---- main results ----

  /**
   Exactly which fields survive a save and a reload: each meta field is absent or non-empty, trimmed, on one line and
   free of the end marker; the street is absent or a non-empty trimmed text, which may contain either marker as long
   as there is a meta field to frame it.
   */
  lemma RoundTripExactly(meta: SchoolMeta)
    ensures Decoded(Encoded(meta)) == meta
            <==> CarriableFields(meta) && NoBlankField(meta) && (HasMeta(meta) || StreetIsPlain(meta))
  {
    hide Decoded, Encoded, Carriable, Contains;
    DecodedIsCarriable(Encoded(meta));
    if CarriableFields(meta) {
      if HasMeta(meta) {
        EncodedDecodes(meta);
      } else {
        BareRoundTrip(meta);
      }
    }
  }

  /**
   For any stored text, malformed or not: saving what was read and reading it again gives the same fields, blank ones
   as absent, exactly when a meta field was read or the street read holds no start marker.
   */
  lemma StoredTextSettles(raw: string)
    ensures var meta := Decoded(raw);
            Decoded(Encoded(meta)) == WithoutBlanks(meta) <==> HasMeta(meta) || StreetIsPlain(meta)
  {
    var meta := Decoded(raw);
    DecodedIsCarriable(raw);
    if HasMeta(meta) {
      EncodedDecodes(meta);
    } else {
      BareStreetDecodes(meta);
    }
  }

  /** The overlapping markers of `---school-meta---end-meta---` leave an empty block, not an error. */
  lemma OverlappingMarkers(raw: string, start: nat)
    requires IndexOf(raw, META_START, 0) == start && IndexOf(raw, META_END, start) == start + 14
    ensures Decoded(raw) == EMPTY.(streetAddress := StreetAfter(raw, start + 14))
  {
    assert MetaBlock(raw, start, start + 14) == "";
    assert SplitLines("") == [""] && [""][..0] == [];
  }
}
