/**
 Editing a school: the address column read by `normalizeSchool` and `normalizeSchoolDetail` of
 `lib/admin/schools-normalizer.ts`, shown and saved by the form of `lib/school-form.ts`.
 */
module SchoolForm {
  import opened Wrappers
  import opened Text
  import opened SchoolAddress
  import opened SchoolText

  const DEFAULT_TIMEZONE := "Africa/Addis_Ababa"

  /** The inputs that share the address column. */
  datatype Form = Form(timezone: string, city: string, contactName: string, contactEmail: string, notes: string,
                       address: string)

  /** `str(row.address)`: blank text counts as absent. */
  function Shown(stored: Option<string>): Option<string> {
    if stored.Some? && Trim(stored.value) != "" then stored else None
  }

  /** The form of a school as it opens; where no street is found the whole column is shown as the address. */
  function Opened(stored: Option<string>): Form {
    var address := Shown(stored);
    var meta := Decoded(address.GetOr(""));
    Form(meta.timezone.GetOr(DEFAULT_TIMEZONE), meta.city.GetOr(""), meta.contactName.GetOr(""),
         meta.contactEmail.GetOr(""), meta.notes.GetOr(""), meta.streetAddress.GetOr(address.GetOr("")))
  }

  function TrimmedForm(f: Form): Form {
    Form(Trim(f.timezone), Trim(f.city), Trim(f.contactName), Trim(f.contactEmail), Trim(f.notes), Trim(f.address))
  }

  /** What the schema asks of these inputs once trimmed. */
  predicate Accepted(f: Form, isEmail: string -> bool) {
    f.timezone != "" && (f.contactEmail == "" || isEmail(f.contactEmail))
  }

  function ToMeta(f: Form): SchoolMeta {
    SchoolMeta(Some(f.timezone), Some(f.city), Some(f.contactName), Some(f.contactEmail), Some(f.notes),
               Some(f.address))
  }

  /** Submitting the form: the new column, or None if the schema refuses. */
  function Submitted(f: Form, isEmail: string -> bool): Option<string> {
    if Accepted(TrimmedForm(f), isEmail) then Some(Encoded(ToMeta(TrimmedForm(f)))) else None
  }

  /** Opening the form and saving it unchanged. */
  function SavedUnchanged(stored: Option<string>, isEmail: string -> bool): Option<string> {
    Submitted(Opened(stored), isEmail)
  }

  predicate CarriableInputs(f: Form) {
    Carriable(f.timezone) && Carriable(f.city) && Carriable(f.contactName) && Carriable(f.contactEmail)
    && Carriable(f.notes)
  }

  lemma BlankIsCarriable()
    ensures Carriable("")
  {
    TrimId("");
  }

  lemma DefaultIsCarriable()
    ensures Carriable(DEFAULT_TIMEZONE)
  {
    assert forall k | 0 <= k < |DEFAULT_TIMEZONE| :: !IsSpace(DEFAULT_TIMEZONE[k]) && DEFAULT_TIMEZONE[k] != '-';
    TrimId(DEFAULT_TIMEZONE);
    assert META_END[0] == '-';
  }

  /** The column written with a meta field is never blank. */
  lemma EncodedIsShown(meta: SchoolMeta)
    requires HasMeta(meta)
    ensures Encoded(meta) != "" && Shown(Some(Encoded(meta))) == Some(Encoded(meta))
  {
    hide MetaLines, HasMeta, JoinLines, Trim;
    EncodedForm(meta);
    var joined, street := JoinLines(MetaLines(meta)), Trim(meta.streetAddress.GetOr(""));
    var _ := TrimIsSlice(META_START + "\n" + joined + "\n" + META_END + "\n" + street);
    TrimId(Encoded(meta));
  }

  /** A saved form is decoded in full, its empty inputs as absent fields. */
  lemma SubmittedDecodes(f: Form)
    requires f == TrimmedForm(f) && f.timezone != "" && CarriableInputs(f)
    ensures var m := Decoded(Encoded(ToMeta(f)));
            && m == WithoutBlanks(ToMeta(f))
            && Encoded(ToMeta(f)) != "" && Shown(Some(Encoded(ToMeta(f)))) == Some(Encoded(ToMeta(f)))
  {
    hide Decoded, Encoded, Carriable, Shown;
    var meta := ToMeta(f);
    EncodedIsShown(meta);
    var _ := TrimIsSlice(f.address);
    if f.address != "" {
      EncodedDecodes(meta);
    } else {
      EncodedDecodes(meta.(streetAddress := None));
      SameEncoding(meta);
    }
  }

  lemma SameEncoding(meta: SchoolMeta)
    requires meta.streetAddress == Some("")
    ensures Encoded(meta) == Encoded(meta.(streetAddress := None))
  {
  }

  /** What a saved form shows when it is opened again. */
  lemma ReopenedForm(f: Form)
    requires f == TrimmedForm(f) && f.timezone != "" && CarriableInputs(f)
    ensures Opened(Some(Encoded(ToMeta(f)))) == if f.address == "" then f.(address := Encoded(ToMeta(f))) else f
    ensures Encoded(ToMeta(f)) != ""
  {
    hide Decoded, Encoded, CarriableInputs, Shown, TrimmedForm;
    SubmittedDecodes(f);
  }

  lemma OpenedIsCarriable(stored: Option<string>)
    ensures CarriableInputs(Opened(stored))
  {
    hide Decoded, Carriable, Shown;
    DecodedIsCarriable(Shown(stored).GetOr(""));
    BlankIsCarriable();
    DefaultIsCarriable();
  }

  /**
   A form reads back as it was saved exactly when its inputs fit on their lines and an address was given: without one
   the whole column comes back as the address.
   */
  lemma FormReadsBack(f: Form)
    requires f == TrimmedForm(f) && f.timezone != ""
    ensures Opened(Some(Encoded(ToMeta(f)))) == f <==> CarriableInputs(f) && f.address != ""
  {
    hide Opened, Encoded, CarriableInputs, TrimmedForm;
    OpenedIsCarriable(Some(Encoded(ToMeta(f))));
    if CarriableInputs(f) { ReopenedForm(f); }
  }

  lemma CarriableIsTrimmed(s: string)
    requires Carriable(s)
    ensures Trim(s) == s
  {
    TrimId(s);
  }

  lemma TrimTwice(s: string)
    ensures Trim(Trim(s)) == Trim(s)
  {
    var _ := TrimIsSlice(s);
    TrimId(Trim(s));
  }

  /** Only the address can open with white space around it. */
  lemma OpenedTrims(stored: Option<string>)
    ensures var f := Opened(stored);
            && TrimmedForm(f) == f.(address := Trim(f.address)) && TrimmedForm(TrimmedForm(f)) == TrimmedForm(f)
            && CarriableInputs(TrimmedForm(f))
  {
    hide Opened, Carriable, Trim;
    var f := Opened(stored);
    OpenedIsCarriable(stored);
    CarriableIsTrimmed(f.timezone);
    CarriableIsTrimmed(f.city);
    CarriableIsTrimmed(f.contactName);
    CarriableIsTrimmed(f.contactEmail);
    CarriableIsTrimmed(f.notes);
    TrimTwice(f.address);
  }

  lemma AddressGivenExactly(stored: Option<string>)
    ensures Trim(Opened(stored).address) != "" <==> Shown(stored).Some?
  {
    hide Decoded, Trim, Carriable;
    TrimBlank();
    var raw := Shown(stored).GetOr("");
    DecodedIsCarriable(raw);
    var street := Decoded(raw).streetAddress;
    if street.Some? { TrimId(street.value); }
    if Shown(stored).None? { NothingDecodes(); }
  }

  lemma NothingDecodes()
    ensures Decoded("").streetAddress == None
  {
    TrimBlank();
  }

  /**
   Saving a school unchanged: the form then shows what was saved, except that a school without an address column shows
   the column just written as its address.
   */
  lemma UnchangedSaveShows(stored: Option<string>, isEmail: string -> bool)
    requires SavedUnchanged(stored, isEmail).Some?
    ensures var f, saved := TrimmedForm(Opened(stored)), SavedUnchanged(stored, isEmail);
            Opened(saved) == if Shown(stored).Some? then f else f.(address := saved.value)
  {
    hide Opened, Encoded, Trim, CarriableInputs;
    OpenedTrims(stored);
    AddressGivenExactly(stored);
    ReopenedForm(TrimmedForm(Opened(stored)));
  }

  /** A column with an address is the one without, a line break and the address. */
  lemma AddressFollows(f: Form, address: string)
    requires f.timezone != "" && f.address == "" && address != "" && Trimmed(address)
    ensures Encoded(ToMeta(f.(address := address))) == Encoded(ToMeta(f)) + "\n" + address
  {
    hide JoinLines, Encoded;
    var bare, full := ToMeta(f), ToMeta(f.(address := address));
    TrimId(address);
    TrimBlank();
    EncodedForm(bare);
    EncodedForm(full);
    assert MetaLines(bare) == MetaLines(full);
    hide MetaLines, Trim, Trimmed;
    var joined := JoinLines(MetaLines(bare));
    assert Encoded(full) == META_START + "\n" + (joined + "\n" + (META_END + ("\n" + address)));
    assert Encoded(bare) == META_START + "\n" + (joined + "\n" + (META_END + ""));
    assert Encoded(full) == META_START + "\n" + (joined + "\n" + (META_END + "")) + "\n" + address;
  }

  /** The column written is trimmed, so the address it may come back as is saved as it is. */
  lemma EncodedIsTrimmed(f: Form)
    ensures Trimmed(Encoded(ToMeta(f))) && Trim(Encoded(ToMeta(f))) == Encoded(ToMeta(f))
  {
    hide JoinLines, Trim, MetaLines;
    var meta := ToMeta(f);
    var street := Trim(meta.streetAddress.GetOr(""));
    var _ := TrimIsSlice(meta.streetAddress.GetOr(""));
    var _ := TrimIsSlice(META_START + "\n" + JoinLines(MetaLines(meta)) + "\n" + META_END + "\n" + street);
    TrimId(Encoded(meta));
  }

  /** A school with something in its address column is saved to the same column from then on. */
  lemma SettledAtOnce(stored: Option<string>, isEmail: string -> bool)
    requires SavedUnchanged(stored, isEmail).Some? && Shown(stored).Some?
    ensures SavedUnchanged(SavedUnchanged(stored, isEmail), isEmail) == SavedUnchanged(stored, isEmail)
  {
    hide Opened, Encoded, TrimmedForm;
    UnchangedSaveShows(stored, isEmail);
    OpenedTrims(stored);
  }

  /** Without one, the second save nests the column written by the first in itself. */
  lemma NestedOnce(stored: Option<string>, isEmail: string -> bool)
    requires SavedUnchanged(stored, isEmail).Some? && Shown(stored).None?
    ensures var once := SavedUnchanged(stored, isEmail);
            && SavedUnchanged(once, isEmail) == Some(once.value + "\n" + once.value)
            && Shown(once).Some?
  {
    hide Opened, Encoded, Trim, CarriableInputs, Shown;
    var f := TrimmedForm(Opened(stored));
    var once := SavedUnchanged(stored, isEmail);
    UnchangedSaveShows(stored, isEmail);
    OpenedTrims(stored);
    AddressGivenExactly(stored);
    SubmittedDecodes(f);
    EncodedIsTrimmed(f);
    AddressFollows(f, once.value);
    assert TrimmedForm(Opened(once)) == f.(address := once.value);
  }

  /**
   Unchanged edits settle: after one save if the school had anything in its address column, and otherwise after two,
   the second of which saves the column twice over.
   */
  lemma UnchangedSavesSettle(stored: Option<string>, isEmail: string -> bool)
    requires SavedUnchanged(stored, isEmail).Some?
    ensures var once := SavedUnchanged(stored, isEmail);
            var twice := SavedUnchanged(once, isEmail);
            && twice.Some? && SavedUnchanged(twice, isEmail) == twice
            && (twice == once <==> Shown(stored).Some?)
  {
    hide SavedUnchanged, Shown;
    var once := SavedUnchanged(stored, isEmail);
    if Shown(stored).Some? {
      SettledAtOnce(stored, isEmail);
    } else {
      NestedOnce(stored, isEmail);
      SettledAtOnce(once, isEmail);
    }
  }

  // ---- which input is which ----

  /** Every input shows its own field; an absent time zone is the default, an absent street the whole column. */
  lemma InputsShow(raw: string)
    requires Trim(raw) != ""
    ensures var f, m := Opened(Some(raw)), Decoded(raw);
            && (if m.timezone.Some? then f.timezone == m.timezone.value else f.timezone == "Africa/Addis_Ababa")
            && (if m.city.Some? then f.city == m.city.value else f.city == "")
            && (if m.contactName.Some? then f.contactName == m.contactName.value else f.contactName == "")
            && (if m.contactEmail.Some? then f.contactEmail == m.contactEmail.value else f.contactEmail == "")
            && (if m.notes.Some? then f.notes == m.notes.value else f.notes == "")
            && (if m.streetAddress.Some? then f.address == m.streetAddress.value else f.address == raw)
  {
    hide Decoded, Trim;
  }

  lemma EmptyInputs()
    ensures Opened(None) == Form("Africa/Addis_Ababa", "", "", "", "", "")
    ensures Opened(Some("  ")) == Opened(None)
  {
    TrimBlank();
    BlankColumn();
    NothingDecodes();
    assert Decoded("") == EMPTY by { assert IndexOf("", META_START, 0) == -1; }
  }

  lemma BlankColumn()
    ensures Trim("  ") == ""
  {
    TrimAround("  ", "", "");
    assert "  " + "" + "" == "  ";
  }

  /** What a filled-in form sends, each input on its own line. */
  lemma FilledFormSends(f: Form, isEmail: string -> bool)
    requires f == TrimmedForm(f) && isEmail(f.contactEmail) && Trimmed(f.address)
    requires f.timezone != "" && f.city != "" && f.contactName != "" && f.contactEmail != "" && f.notes != ""
    ensures Submitted(f, isEmail)
            == Some("---school-meta---\ntimezone: " + f.timezone + "\ncity: " + f.city + "\ncontact_name: "
                    + f.contactName + "\ncontact_email: " + f.contactEmail + "\nnotes: " + f.notes
                    + ("\n---end-meta---" + (if f.address == "" then "" else "\n" + f.address)))
  {
    hide Encoded, TrimmedForm, Trimmed;
    WrittenText(f.timezone, f.city, f.contactName, f.contactEmail, f.notes, f.address);
  }

  /** The schema refuses exactly a blank time zone and a contact e-mail that is none. */
  lemma RefusedExactly(f: Form, isEmail: string -> bool)
    ensures Submitted(f, isEmail).None?
            <==> Trim(f.timezone) == "" || (Trim(f.contactEmail) != "" && !isEmail(Trim(f.contactEmail)))
  {
    hide Encoded, Trim;
  }
}
