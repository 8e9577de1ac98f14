/**
 The text format of a school's address column, written out: the markers, the five keys, their order, and what the
 decoder makes of lines and blocks that were written by hand.
 */
module SchoolText {
  import opened Wrappers
  import opened Text
  import opened SchoolAddress

  /** Fit for a line of the block: trimmed, on one line and free of the end marker. */
  predicate FitsLine(v: string) {
    Trimmed(v) && '\n' !in v && !Contains(v, "---end-meta---")
  }

  lemma MarkersAre()
    ensures META_START == "---school-meta---" && META_END == "---end-meta---"
  {
  }

  lemma LineIsFit(key: MetaKey, v: string)
    requires FitsLine(v) && v != ""
    ensures '\n' !in KeyText(key) + ": " + v && !Contains(KeyText(key) + ": " + v, META_END)
  {
    hide Contains, KeyText;
    MarkersAre();
    FieldLineIsClean(key, Some(v));
    assert FieldLine(key, Some(v)) == [KeyText(key) + ": " + v];
    assert KeyText(key) + ": " + v in FieldLine(key, Some(v));
  }

  lemma OneLineReads(open: string, key: MetaKey, v: string, s: string)
    requires open == META_START + "\n" + (KeyText(key) + ": ") && FitsLine(v) && v != "" && Trimmed(s)
    ensures Decoded(open + v + "\n---end-meta---\n" + s) == WithField(EMPTY.(streetAddress := NonEmpty(s)), key, v)
  {
    hide Contains, KeyText, Decoded, Trim, WithLine, WithField;
    MarkersAre();
    LineIsFit(key, v);
    var line := KeyText(key) + ": " + v;
    var raw := open + v + "\n---end-meta---\n" + s;
    assert JoinLines([line]) == line;
    assert "\n---end-meta---\n" == "\n" + (META_END + "\n");
    assert raw == META_START + "\n" + (JoinLines([line]) + "\n" + (META_END + ("\n" + s)));
    BlockDecodes(raw, [line], "\n" + s);
    BreakTrims(s);
    KeyLineDecodes(EMPTY.(streetAddress := NonEmpty(s)), key, v);
    assert [line][..0] == [];
  }

  lemma BreakTrims(s: string)
    requires Trimmed(s)
    ensures Trim("\n" + s) == s
  {
    TrimAround("\n", s, "");
    assert "\n" + s + "" == "\n" + s;
  }

  // ---- one field, read ----

  lemma StoredTimezoneReads(v: string, s: string)
    requires FitsLine(v) && v != "" && Trimmed(s)
    ensures Decoded("---school-meta---\ntimezone: " + v + "\n---end-meta---\n" + s)
            == SchoolMeta(Some(v), None, None, None, None, if s == "" then None else Some(s))
  {
    hide Decoded, Contains, Trimmed;
    OneLineReads("---school-meta---\ntimezone: ", Timezone, v, s);
  }

  lemma StoredCityReads(v: string, s: string)
    requires FitsLine(v) && v != "" && Trimmed(s)
    ensures Decoded("---school-meta---\ncity: " + v + "\n---end-meta---\n" + s)
            == SchoolMeta(None, Some(v), None, None, None, if s == "" then None else Some(s))
  {
    hide Decoded, Contains, Trimmed;
    OneLineReads("---school-meta---\ncity: ", City, v, s);
  }

  lemma StoredContactNameReads(v: string, s: string)
    requires FitsLine(v) && v != "" && Trimmed(s)
    ensures Decoded("---school-meta---\ncontact_name: " + v + "\n---end-meta---\n" + s)
            == SchoolMeta(None, None, Some(v), None, None, if s == "" then None else Some(s))
  {
    hide Decoded, Contains, Trimmed;
    OneLineReads("---school-meta---\ncontact_name: ", ContactName, v, s);
  }

  lemma StoredContactEmailReads(v: string, s: string)
    requires FitsLine(v) && v != "" && Trimmed(s)
    ensures Decoded("---school-meta---\ncontact_email: " + v + "\n---end-meta---\n" + s)
            == SchoolMeta(None, None, None, Some(v), None, if s == "" then None else Some(s))
  {
    hide Decoded, Contains, Trimmed;
    OneLineReads("---school-meta---\ncontact_email: ", ContactEmail, v, s);
  }

  lemma StoredNotesRead(v: string, s: string)
    requires FitsLine(v) && v != "" && Trimmed(s)
    ensures Decoded("---school-meta---\nnotes: " + v + "\n---end-meta---\n" + s)
            == SchoolMeta(None, None, None, None, Some(v), if s == "" then None else Some(s))
  {
    hide Decoded, Contains, Trimmed;
    OneLineReads("---school-meta---\nnotes: ", Notes, v, s);
  }

  // ---- all fields, written ----

  /** The text written for a school with every field, in the order of the source. */
  lemma WrittenText(timezone: string, city: string, name: string, email: string, notes: string, street: string)
    requires timezone != "" && city != "" && name != "" && email != "" && notes != "" && Trimmed(street)
    ensures Encoded(SchoolMeta(Some(timezone), Some(city), Some(name), Some(email), Some(notes), Some(street)))
            == "---school-meta---\ntimezone: " + timezone + "\ncity: " + city + "\ncontact_name: " + name
               + "\ncontact_email: " + email + "\nnotes: " + notes
               + ("\n---end-meta---" + (if street == "" then "" else "\n" + street))
  {
    hide Trim, Encoded, MetaLines, JoinLines, StreetTail;
    var meta := SchoolMeta(Some(timezone), Some(city), Some(name), Some(email), Some(notes), Some(street));
    EncodedForm(meta);
    TrimId(street);
    LinesOf(meta);
    hide Trimmed;
    FiveWritten("timezone: " + timezone, "city: " + city, "contact_name: " + name, "contact_email: " + email,
                "notes: " + notes, META_END + StreetTail(street));
    Spelt(timezone, city, name, email, notes, META_END + StreetTail(street));
    TailSpelt(street);
  }

  /** The lines of a block put one after the other, each behind its line break. */
  function Stacked(a: string, b: string, c: string, d: string, e: string, close: string): string {
    META_START + "\n" + a + ("\n" + b) + ("\n" + c) + ("\n" + d) + ("\n" + e) + ("\n" + close)
  }

  lemma FiveWritten(a: string, b: string, c: string, d: string, e: string, close: string)
    ensures META_START + "\n" + (JoinLines([a, b, c, d, e]) + "\n" + close) == Stacked(a, b, c, d, e, close)
  {
    hide JoinLines;
    JoinFirst(a, [b, c, d, e]);
    JoinFirst(b, [c, d, e]);
    JoinFirst(c, [d, e]);
    JoinFirst(d, [e]);
    JoinOne(e);
    assert [a] + [b, c, d, e] == [a, b, c, d, e] && [b] + [c, d, e] == [b, c, d, e];
    assert [c] + [d, e] == [c, d, e] && [d] + [e] == [d, e];
    var start := META_START + "\n" + a;
    assert META_START + "\n" + ((a + "\n" + JoinLines([b, c, d, e])) + "\n" + close)
        == start + ("\n" + (JoinLines([b, c, d, e]) + "\n" + close));
    NextLine(start, b, JoinLines([c, d, e]), close);
    NextLine(start + ("\n" + b), c, JoinLines([d, e]), close);
    NextLine(start + ("\n" + b) + ("\n" + c), d, e, close);
    LastLine(start + ("\n" + b) + ("\n" + c) + ("\n" + d), e, close);
  }

  lemma JoinFirst(first: string, more: seq<string>)
    requires more != []
    ensures JoinLines([first] + more) == first + "\n" + JoinLines(more)
  {
    assert ([first] + more)[1..] == more;
  }

  lemma JoinOne(line: string)
    ensures JoinLines([line]) == line
  {
  }

  lemma NextLine(before: string, line: string, more: string, close: string)
    ensures before + ("\n" + ((line + "\n" + more) + "\n" + close))
            == before + ("\n" + line) + ("\n" + (more + "\n" + close))
  {
  }

  lemma LastLine(before: string, line: string, close: string)
    ensures before + ("\n" + (line + "\n" + close)) == before + ("\n" + line) + ("\n" + close)
  {
  }

  lemma Behind(before: string, name: string, v: string, line: string)
    requires line == name + v
    ensures before + line == before + name + v
  {
  }

  lemma Spelt(timezone: string, city: string, name: string, email: string, notes: string, close: string)
    ensures Stacked("timezone: " + timezone, "city: " + city, "contact_name: " + name, "contact_email: " + email,
                    "notes: " + notes, close)
            == "---school-meta---\ntimezone: " + timezone + "\ncity: " + city + "\ncontact_name: " + name
               + "\ncontact_email: " + email + "\nnotes: " + notes + ("\n" + close)
  {
    Labels(timezone, city, name, email, notes);
    var t := META_START + "\n" + ("timezone: " + timezone);
    Behind(t, "\ncity: ", city, "\n" + ("city: " + city));
    var u := t + "\ncity: " + city;
    Behind(u, "\ncontact_name: ", name, "\n" + ("contact_name: " + name));
    var v := u + "\ncontact_name: " + name;
    Behind(v, "\ncontact_email: ", email, "\n" + ("contact_email: " + email));
    var w := v + "\ncontact_email: " + email;
    Behind(w, "\nnotes: ", notes, "\n" + ("notes: " + notes));
  }

  lemma Labels(timezone: string, city: string, name: string, email: string, notes: string)
    ensures META_START + "\n" + ("timezone: " + timezone) == "---school-meta---\ntimezone: " + timezone
    ensures "\n" + ("city: " + city) == "\ncity: " + city
    ensures "\n" + ("contact_name: " + name) == "\ncontact_name: " + name
    ensures "\n" + ("contact_email: " + email) == "\ncontact_email: " + email
    ensures "\n" + ("notes: " + notes) == "\nnotes: " + notes
  {
    assert META_START + "\n" + ("timezone: " + timezone) == META_START + "\n" + "timezone: " + timezone;
    assert META_START + "\n" + "timezone: " == "---school-meta---\ntimezone: ";
    assert "\n" + "city: " == "\ncity: " && "\n" + "contact_name: " == "\ncontact_name: ";
    assert "\n" + "contact_email: " == "\ncontact_email: " && "\n" + "notes: " == "\nnotes: ";
  }

  lemma TailSpelt(street: string)
    ensures "\n" + (META_END + StreetTail(street))
            == "\n---end-meta---" + (if street == "" then "" else "\n" + street)
  {
    assert "\n" + META_END == "\n---end-meta---";
    assert "\n" + (META_END + StreetTail(street)) == "\n" + META_END + StreetTail(street);
  }

  lemma LinesOf(meta: SchoolMeta)
    requires Truthy(meta.timezone) && Truthy(meta.city) && Truthy(meta.contactName) && Truthy(meta.contactEmail)
    requires Truthy(meta.notes)
    ensures MetaLines(meta)
            == ["timezone: " + meta.timezone.value, "city: " + meta.city.value,
                "contact_name: " + meta.contactName.value, "contact_email: " + meta.contactEmail.value,
                "notes: " + meta.notes.value]
  {
    assert KeyText(Timezone) + ": " == "timezone: " && KeyText(City) + ": " == "city: ";
    assert KeyText(ContactName) + ": " == "contact_name: " && KeyText(ContactEmail) + ": " == "contact_email: ";
    assert KeyText(Notes) + ": " == "notes: ";
  }

  // ---- lines and blocks written by hand ----

  /** Key and value are what stands before and after the first colon, trimmed; other keys change nothing. */
  lemma LineReads(fields: SchoolMeta, key: string, value: string)
    requires ':' !in key
    ensures WithLine(fields, key + ":" + value)
            == if Trim(key) == "timezone" then fields.(timezone := Some(Trim(value)))
               else if Trim(key) == "city" then fields.(city := Some(Trim(value)))
               else if Trim(key) == "contact_name" then fields.(contactName := Some(Trim(value)))
               else if Trim(key) == "contact_email" then fields.(contactEmail := Some(Trim(value)))
               else if Trim(key) == "notes" then fields.(notes := Some(Trim(value)))
               else fields
  {
    hide Trim;
    var line := key + ":" + value;
    IndexOfCharAfter(key, ':', value);
    assert line == key + [':'] + value;
    assert line[..|key|] == key && line[|key| + 1..] == value;
  }

  lemma LineWithoutColon(fields: SchoolMeta, line: string)
    requires ':' !in line
    ensures WithLine(fields, line) == fields
  {
    IndexOfCharAbsent(line, ':');
  }

  /** Lines are read from first to last, so that of two for one key the later one counts. */
  lemma LinesReadInOrder(fields: SchoolMeta, lines: seq<string>, last: string)
    ensures WithLines(fields, lines + [last]) == WithLine(WithLines(fields, lines), last)
  {
    assert (lines + [last])[..|lines|] == lines;
  }

  /** A block that is never closed runs to the end of the text and leaves no street. */
  lemma UnclosedBlockReads(v: string)
    requires FitsLine(v) && v != ""
    ensures Decoded("---school-meta---\ncity: " + v) == SchoolMeta(None, Some(v), None, None, None, None)
  {
    hide Contains, IndexOf, WithLine, Trim, SplitLines;
    MarkersAre();
    LineIsFit(City, v);
    var line := KeyText(City) + ": " + v;
    var raw := "---school-meta---\ncity: " + v;
    assert "---school-meta---\ncity: " == META_START + "\n" + (KeyText(City) + ": ");
    assert raw == META_START + ("\n" + line) == META_START + ['\n'] + line;
    FoundAtFront(META_START, "\n" + line);
    StartMarkerIsNotEnd();
    NeverFound(line, META_END);
    IndexOfAfter(META_START, '\n', line, META_END);
    assert MetaBlock(raw, 0, -1) == "" + "\n" + line;
    SplitCons("", line);
    SplitOneLine(line);
    KeyLineDecodes(EMPTY, City, v);
    EmptyLineReads(EMPTY);
    assert ["", line][..1] == [""] && [""][..0] == [] && ["", line] == [""] + [line];
    assert WithLines(EMPTY, [""]) == EMPTY;
  }

  lemma EmptyLineReads(fields: SchoolMeta)
    ensures WithLine(fields, "") == fields
  {
  }

  lemma NeverFound(s: string, pat: string)
    requires !Contains(s, pat)
    ensures IndexOf(s, pat, 0) == -1
  {
    IndexOfIsFirst(s, pat, 0);
  }

  lemma SplitOneLine(line: string)
    requires '\n' !in line
    ensures SplitLines(line) == [line]
  {
    IndexOfCharAbsent(line, '\n');
  }

  // ---- text in front of the block ----

  lemma FoundShifted(pre: string, s: string, pat: string, k: int)
    ensures k >= 0 ==> (At(pre + s, pat, |pre| + k) <==> At(s, pat, k))
  {
    if 0 <= k && k + |pat| <= |s| {
      assert (pre + s)[|pre| + k..|pre| + k + |pat|] == s[k..k + |pat|];
    }
  }

  lemma {:induction false} SearchShifted(pre: string, s: string, pat: string, from: nat)
    ensures IndexOf(pre + s, pat, |pre| + from)
            == if IndexOf(s, pat, from) == -1 then -1 else |pre| + IndexOf(s, pat, from)
    decreases |s| - from
  {
    hide At;
    FoundShifted(pre, s, pat, from);
    if from + |pat| <= |s| && !At(s, pat, from) {
      SearchShifted(pre, s, pat, from + 1);
    }
  }

  /** Whatever stands before the first start marker is passed over, end markers included. */
  lemma LeadingTextIsIgnored(pre: string, rest: string)
    requires IndexOf(pre + rest, META_START, 0) == |pre| && IndexOf(rest, META_START, 0) == 0
    ensures Decoded(pre + rest) == Decoded(rest)
  {
    hide IndexOf, WithLines, SplitLines, Trim;
    SearchShifted(pre, rest, META_END, 0);
    var raw, end := pre + rest, IndexOf(rest, META_END, 0);
    SliceShifted(pre, rest, |META_START|, if end < 0 then |rest| else end);
    if end >= 0 { SliceShifted(pre, rest, end + |META_END|, |rest|); }
    assert MetaBlock(raw, |pre|, if end < 0 then -1 else |pre| + end) == MetaBlock(rest, 0, end);
    assert StreetAfter(raw, if end < 0 then -1 else |pre| + end) == StreetAfter(rest, end);
  }

  lemma SliceShifted(pre: string, s: string, a: nat, b: nat)
    ensures Slice(pre + s, |pre| + a, |pre| + b) == Slice(s, a, b)
  {
    if a <= b <= |s| {
      assert (pre + s)[|pre| + a..|pre| + b] == s[a..b];
    } else if a <= |s| < b {
      assert (pre + s)[|pre| + a..] == s[a..];
    }
  }
}
