/**
 Children's names: `splitFullName` of `lib/admin/children-normalizer.ts` and `buildFullName` with the child form of
 `lib/entity-form.ts`. A child is stored with one full name, shown as a first and a last name, and saved back as one.
 */
module FullName {
  import opened Wrappers
  import opened Text

  datatype Name = Name(first: string, last: string)

  function Split(fullName: string): Name {
    var trimmed := Trim(fullName);
    var space := IndexOfChar(trimmed, ' ');
    if space == -1 then Name(trimmed, "")
    else Name(trimmed[..space], Trim(trimmed[space + 1..]))
  }

  function Build(name: Name): string {
    Trim(Trim(name.first) + " " + Trim(name.last))
  }

  /** The part of a child record the form reads. */
  datatype Child = Child(firstName: string, lastName: Option<string>, name: string)

  /** `normalizeChild` on the name the server sent, absent or blank names being replaced. */
  function FromServer(fullName: Option<string>): Child {
    var full := if fullName.Some? && Trim(fullName.value) != "" then fullName.value else "Unknown child";
    var split := Split(full);
    Child(split.first, if split.last == "" then None else Some(split.last), full)
  }

  /** `childToFormValues`: the two name inputs. */
  function ToForm(child: Child): Name {
    Name(child.firstName, child.lastName.GetOr(""))
  }

  /** Opening a child and saving the form unchanged: the full name sent back. */
  function SavedUnchanged(fullName: Option<string>): string {
    Build(ToForm(FromServer(fullName)))
  }

  /** Trimmed parts, a first name without a space, and no last name without a first one. */
  predicate Clean(name: Name) {
    Trimmed(name.first) && Trimmed(name.last) && ' ' !in name.first && (name.first == "" ==> name.last == "")
  }

  lemma SpaceIsBlank()
    ensures AllSpace(" ") && AllSpace("")
  {
  }

  lemma BuildForm(name: Name)
    ensures var f, l := Trim(name.first), Trim(name.last);
            Build(name) == if f == "" then l else if l == "" then f else f + " " + l
  {
    hide Trim, IsSpace;
    var f, l := Trim(name.first), Trim(name.last);
    var _ := TrimIsSlice(name.first);
    var _ := TrimIsSlice(name.last);
    assert AllSpace(" ") && AllSpace("") by { SpaceIsBlank(); }
    if f == "" {
      TrimAround(" ", l, "");
      assert f + " " + l == " " + l + "";
    } else if l == "" {
      TrimAround("", f, " ");
      assert f + " " + l == "" + f + " ";
    } else {
      var full := f + " " + l;
      assert full[0] == f[0] && full[|full| - 1] == l[|l| - 1];
      TrimId(full);
    }
  }

  lemma SplitWords(first: string, last: string)
    requires first != "" && Trimmed(first) && Trimmed(last) && ' ' !in first
    ensures Split(first) == Name(first, "")
    ensures last != "" ==> Split(first + " " + last) == Name(first, last)
  {
    TrimId(first);
    IndexOfCharAbsent(first, ' ');
    if last != "" {
      var full := first + " " + last;
      assert full[0] == first[0] && full[|full| - 1] == last[|last| - 1];
      TrimId(full);
      IndexOfCharAfter(first, ' ', last);
      assert full == first + [' '] + last;
      assert full[..|first|] == first && full[|first| + 1..] == last;
      TrimId(last);
    }
  }

  /** A first name of several words gives its later words to the last name. */
  lemma SplitSpaced(first: string, rest: string)
    requires first != "" && Trimmed(first) && ' ' in first && (rest != "" ==> !IsSpace(rest[|rest| - 1]))
    ensures |Split(first + rest).first| < |first|
  {
    var full := first + rest;
    assert full[0] == first[0];
    assert full[|full| - 1] == if rest == "" then first[|first| - 1] else rest[|rest| - 1];
    TrimId(full);
    IndexOfCharIsFirst(first, ' ');
    var k := IndexOfChar(first, ' ');
    IndexOfCharAfter(first[..k], ' ', full[k + 1..]);
    assert full == first[..k] + [' '] + full[k + 1..];
  }

  lemma SplitStartsNonBlank(text: string)
    requires Trimmed(text)
    ensures text == "" ==> Split(text) == Name("", "")
    ensures text != "" ==> Split(text).first != "" && !IsSpace(Split(text).first[0])
    ensures ' ' !in Split(text).first && Trimmed(Split(text).last)
  {
    TrimId(text);
    IndexOfCharIsFirst(text, ' ');
    var k := IndexOfChar(text, ' ');
    if k >= 0 {
      assert IsSpace(text[k]);
      var _ := TrimIsSlice(text[k + 1..]);
    }
  }

  lemma NonBlankStart(s: string)
    requires s != "" && !IsSpace(s[0])
    ensures Trim(s) != ""
  {
    TrimEndKeepsStart(s);
  }

  lemma {:induction false} TrimEndKeepsStart(s: string)
    requires s != "" && !IsSpace(s[0])
    ensures TrimEnd(s) != ""
  {
    if IsSpace(s[|s| - 1]) {
      TrimEndKeepsStart(s[..|s| - 1]);
    }
  }

  /** What splitting makes of a built name, by the shape of its trimmed first part. */
  lemma SplitOfBuilt(name: Name)
    ensures var f, l := Trim(name.first), Trim(name.last);
            && (f == "" ==> Split(Build(name)) == Split(l))
            && (f != "" && ' ' !in f ==> Split(Build(name)) == Name(f, l))
            && (f != "" && ' ' in f ==> |Split(Build(name)).first| < |f|)
  {
    hide Trim, Split, Build;
    var f, l := Trim(name.first), Trim(name.last);
    var _ := TrimIsSlice(name.first);
    var _ := TrimIsSlice(name.last);
    BuildForm(name);
    if f != "" && ' ' in f {
      var rest := if l == "" then "" else " " + l;
      SplitSpaced(f, rest);
      assert Build(name) == f + rest;
    } else if f != "" {
      SplitWords(f, l);
    }
  }

  /** Exactly which pairs of names a save and a reload keep. */
  lemma SplitAfterBuild(name: Name)
    ensures Split(Build(name)) == name <==> Clean(name)
  {
    var f, l := Trim(name.first), Trim(name.last);
    var _ := TrimIsSlice(name.first);
    var _ := TrimIsSlice(name.last);
    SplitOfBuilt(name);
    if Trimmed(name.first) { TrimId(name.first); }
    if Trimmed(name.last) { TrimId(name.last); }
    if f == "" {
      SplitStartsNonBlank(l);
      if name.first != "" && !IsSpace(name.first[0]) {
        NonBlankStart(name.first);
      }
    }
  }

  /** Splitting gives a first name that may still end in a tab, say; trimming it makes the name clean. */
  lemma TrimmedSplitIsClean(fullName: string)
    ensures var n := Split(fullName); Clean(Name(Trim(n.first), n.last))
    ensures Trim(fullName) != "" ==> Trim(Split(fullName).first) != ""
  {
    var t := Trim(fullName);
    var _ := TrimIsSlice(fullName);
    TrimId(t);
    SplitStartsNonBlank(t);
    var first := Split(fullName).first;
    var _ := TrimIsSlice(first);
    if t != "" { NonBlankStart(first); }
  }

  /** Whatever text is split, rebuilding it gives a form that splitting and rebuilding leave alone. */
  lemma RebuiltIsCanonical(fullName: string)
    ensures Build(Split(Build(Split(fullName)))) == Build(Split(fullName))
    ensures Trim(fullName) != "" ==> Build(Split(fullName)) != "" && Trimmed(Build(Split(fullName)))
  {
    var name := Split(fullName);
    var clean := Name(Trim(name.first), name.last);
    TrimmedSplitIsClean(fullName);
    TrimId(name.last);
    TrimId(clean.first);
    assert Build(name) == Build(clean);
    SplitAfterBuild(clean);
    BuildForm(clean);
    if name.last != "" && clean.first != "" {
      var full := clean.first + " " + name.last;
      assert full[0] == clean.first[0] && full[|full| - 1] == name.last[|name.last| - 1];
    }
  }

  /** Saving a child unchanged settles after one save, whatever name the server holds. */
  lemma UnchangedEditsSettle(fullName: Option<string>)
    ensures SavedUnchanged(Some(SavedUnchanged(fullName))) == SavedUnchanged(fullName)
  {
    var full := FromServer(fullName).name;
    if full == "Unknown child" { TrimId(full); }
    RebuiltIsCanonical(full);
    assert SavedUnchanged(fullName) == Build(Split(full));
    var saved := Build(Split(full));
    TrimId(saved);
    assert FromServer(Some(saved)).name == saved;
  }

  /** A child without a name is shown, and saved, as "Unknown child"; any other name is kept as it came. */
  lemma NamelessChild(fullName: Option<string>)
    ensures FromServer(None).name == "Unknown child" && SavedUnchanged(None) == "Unknown child"
    ensures fullName.Some? && Trim(fullName.value) == "" ==> FromServer(fullName) == FromServer(None)
    ensures fullName.Some? && Trim(fullName.value) != "" ==> FromServer(fullName).name == fullName.value
  {
    hide Trim, Split, Build;
    UnknownSplits();
  }

  lemma UnknownSplits()
    ensures Split("Unknown child") == Name("Unknown", "child") && Build(Name("Unknown", "child")) == "Unknown child"
  {
    hide Trim, IsSpace, Split, Build, Trimmed;
    WordsAreTrimmed();
    TrimId("Unknown");
    TrimId("child");
    SplitWords("Unknown", "child");
    assert "Unknown" + " " + "child" == "Unknown child";
    BuildForm(Name("Unknown", "child"));
  }

  lemma WordsAreTrimmed()
    ensures Trimmed("Unknown") && Trimmed("child") && Trimmed("Unknown child") && ' ' !in "Unknown"
  {
  }

  /** The two inputs of the form are the two parts of the name, an empty last name being none. */
  lemma FormShowsParts(fullName: string)
    requires Trim(fullName) != ""
    ensures var child := FromServer(Some(fullName));
            && ToForm(child) == Split(fullName)
            && child.firstName == Split(fullName).first
            && (child.lastName == None <==> Split(fullName).last == "")
  {
    hide Trim, Split;
  }
}
