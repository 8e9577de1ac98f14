/** Which part of an answer each field of a user comes from, and how roles and statuses may be spelt. */
module UserWire {
  import opened Wrappers
  import opened Text
  import opened Json
  import opened Users

  /** A string that is not empty; every other value counts as absent. */
  function Filled(v: Option<Json>): Option<string> {
    match v
    case Some(Str(s)) => if s == "" then None else Some(s)
    case _ => None
  }

  function First(a: Option<string>, b: Option<string>): Option<string> {
    if a.Some? then a else b
  }

  /** The record under `user`, if there is one. */
  function Inner(r: Record): Record {
    match Lookup(r, "user")
    case Some(Obj(fields)) => fields
    case _ => []
  }

  lemma PickedOne(r: Record, key: string)
    ensures PickString(r, [key]) == Filled(Lookup(r, key))
  {
    hide Lookup;
    assert [key][1..] == [];
  }

  lemma PickedThree(r: Record, a: string, b: string, c: string)
    ensures PickString(r, [a, b, c])
            == First(Filled(Lookup(r, a)), First(Filled(Lookup(r, b)), Filled(Lookup(r, c))))
  {
    hide Lookup;
    assert [a, b, c][1..] == [b, c] && [b, c][1..] == [c];
    PickedOne(r, c);
    assert PickString(r, [b, c]) == First(Filled(Lookup(r, b)), Filled(Lookup(r, c)));
  }

  /** The id, the e-mail and the role, without any of which there is no user. */
  function IdIn(r: Record): Option<string> {
    First(Filled(Lookup(r, "id")), First(Filled(Lookup(r, "user_id")), Filled(Lookup(r, "userId"))))
  }

  function RoleIn(r: Record): Option<Role> {
    if NormalizeRole(Lookup(r, "role")).Some? then NormalizeRole(Lookup(r, "role"))
    else if NormalizeRole(Lookup(r, "user_role")).Some? then NormalizeRole(Lookup(r, "user_role"))
    else if NormalizeRole(Lookup(r, "userRole")).Some? then NormalizeRole(Lookup(r, "userRole"))
    else NormalizeRole(Lookup(Inner(r), "role"))
  }

  lemma InnerIsNested(r: Record)
    ensures Entries(Lookup(r, "user")) == Inner(r)
  {
    hide Lookup;
  }

  /**
   Every field of a user under all the keys it may stand under, first come first served: what stands in the record
   itself comes before what stands under `user`, where only id, e-mail, role and status are looked for.
   */
  lemma UserReads(r: Record)
    ensures var u := NormalizeUser(Obj(r));
            var id := First(IdIn(r), IdIn(Inner(r)));
            var email := First(Filled(Lookup(r, "email")), Filled(Lookup(Inner(r), "email")));
            && (u.Some? <==> id.Some? && email.Some? && RoleIn(r).Some?)
            && (u.Some? ==>
                  && u.value.id == id.value && u.value.email == Trim(email.value) && u.value.role == RoleIn(r).value
                  && u.value.name == First(Filled(Lookup(r, "name")),
                                           First(Filled(Lookup(r, "full_name")), Filled(Lookup(r, "fullName"))))
                  && u.value.status == NormalizeStatus(
                       if Lookup(r, "status").Some? && Lookup(r, "status") != Some(Null) then Lookup(r, "status")
                       else Lookup(Inner(r), "status"))
                  && (u.value.forcePasswordChange <==>
                        Lookup(r, "force_password_change") == Some(Bool(true))
                        || Lookup(r, "forcePasswordChange") == Some(Bool(true))))
  {
    hide Lookup, Trim, NormalizeRole, NormalizeStatus, PickString, Filled;
    InnerIsNested(r);
    PickedThree(r, "id", "user_id", "userId");
    PickedThree(Inner(r), "id", "user_id", "userId");
    PickedThree(r, "name", "full_name", "fullName");
    PickedOne(r, "email");
    PickedOne(Inner(r), "email");
  }

  /** Only records are users; an array is read as a record without entries. */
  lemma OnlyRecordsAreUsers(items: seq<Json>, text: string, b: bool)
    ensures NormalizeUser(Null).None? && NormalizeUser(Str(text)).None? && NormalizeUser(Bool(b)).None?
    ensures NormalizeUser(Num(text)).None? && NormalizeUser(Arr(items)).None?
  {
    hide Trim, NormalizeRole, NormalizeStatus;
    PickFromNothing(ID_KEYS);
    PickFromNothing(["email"]);
  }

  // ---- spellings ----

  /** The text in any case, with hyphens or spaces for the underscores. */
  predicate Spells(text: string, name: string) {
    |text| == |name| && forall k | 0 <= k < |name| ::
      if name[k] == '_' then text[k] == '_' || text[k] == '-' || text[k] == ' ' else UpperChar(text[k]) == name[k]
  }

  lemma SpelledIsTrimmed(text: string, name: string)
    requires Spells(text, name) && IsName(name) && name != "" && name[0] != '_' && name[|name| - 1] != '_'
    ensures Trim(text) == text
  {
    assert !IsSpace(text[0]) && !IsSpace(text[|text| - 1]);
    TrimId(text);
  }

  /** Single spaces become underscores. */
  lemma {:induction false} SpacesFall(s: string)
    requires forall k | 0 <= k < |s| - 1 :: !(IsSpace(s[k]) && IsSpace(s[k + 1]))
    ensures |SpacesToUnderscore(s)| == |s|
    ensures forall k | 0 <= k < |s| :: SpacesToUnderscore(s)[k] == if IsSpace(s[k]) then '_' else s[k]
  {
    if s != "" {
      assert forall k | 0 <= k < |s[1..]| :: s[1..][k] == s[k + 1];
      SpacesFall(s[1..]);
    }
  }

  lemma SpelledNames(text: string, name: string)
    requires Spells(text, name) && IsName(name) && name != "" && name[0] != '_' && name[|name| - 1] != '_'
    requires forall k | 0 <= k < |name| - 1 :: !(name[k] == '_' && name[k + 1] == '_')
    ensures RoleName(text) == name
  {
    SpelledIsTrimmed(text, name);
    hide Trim, SpacesToUnderscore;
    var plain := HyphensToUnderscores(Upper(text));
    assert forall k | 0 <= k < |name| :: IsSpace(plain[k]) ==> name[k] == '_';
    SpacesFall(plain);
    assert forall k | 0 <= k < |name| :: SpacesToUnderscore(plain)[k] == name[k];
  }

  lemma SuperAdminSpelt(text: string)
    requires Spells(text, "SUPER_ADMIN") || Spells(text, "SUPERADMIN")
    ensures RoleName(text) in ["SUPER_ADMIN", "SUPERADMIN"]
  {
    hide RoleName, Spells;
    if Spells(text, "SUPER_ADMIN") { SpelledNames(text, "SUPER_ADMIN"); } else { SpelledNames(text, "SUPERADMIN"); }
  }

  lemma SchoolAdminSpelt(text: string)
    requires Spells(text, "SCHOOL_ADMIN") || Spells(text, "SCHOOLADMIN")
    ensures RoleName(text) in ["SCHOOL_ADMIN", "SCHOOLADMIN"]
  {
    hide RoleName, Spells;
    if Spells(text, "SCHOOL_ADMIN") { SpelledNames(text, "SCHOOL_ADMIN"); } else { SpelledNames(text, "SCHOOLADMIN"); }
  }

  lemma OtherRoleSpelt(text: string)
    ensures Spells(text, "TECHNICIAN") ==> RoleName(text) == "TECHNICIAN"
    ensures Spells(text, "PARENT") ==> RoleName(text) == "PARENT"
  {
    hide RoleName, Spells;
    if Spells(text, "TECHNICIAN") { SpelledNames(text, "TECHNICIAN"); }
    if Spells(text, "PARENT") { SpelledNames(text, "PARENT"); }
  }

  lemma NamesOfRoles(name: string)
    ensures name in ["SUPER_ADMIN", "SUPERADMIN"] ==> RoleNamed(name) == Some(SuperAdmin)
    ensures name in ["SCHOOL_ADMIN", "SCHOOLADMIN"] ==> RoleNamed(name) == Some(SchoolAdmin)
    ensures name == "TECHNICIAN" ==> RoleNamed(name) == Some(Technician)
    ensures name == "PARENT" ==> RoleNamed(name) == Some(Role.Parent)
  {
  }

  /** A role may be written in any case, with spaces or hyphens, the two admin roles also as one word. */
  lemma RoleSpellings(text: string)
    ensures Spells(text, "SUPER_ADMIN") || Spells(text, "SUPERADMIN") ==>
              NormalizeRole(Some(Str(text))) == Some(SuperAdmin)
    ensures Spells(text, "SCHOOL_ADMIN") || Spells(text, "SCHOOLADMIN") ==>
              NormalizeRole(Some(Str(text))) == Some(SchoolAdmin)
    ensures Spells(text, "TECHNICIAN") ==> NormalizeRole(Some(Str(text))) == Some(Technician)
    ensures Spells(text, "PARENT") ==> NormalizeRole(Some(Str(text))) == Some(Role.Parent)
  {
    hide RoleName, RoleNamed, Spells;
    NamesOfRoles(RoleName(text));
    OtherRoleSpelt(text);
    if Spells(text, "SUPER_ADMIN") || Spells(text, "SUPERADMIN") { SuperAdminSpelt(text); }
    if Spells(text, "SCHOOL_ADMIN") || Spells(text, "SCHOOLADMIN") { SchoolAdminSpelt(text); }
  }

  /** No other name is a role. */
  lemma OtherRoles(v: Option<Json>)
    ensures NormalizeRole(v).Some? ==>
              v.Some? && v.value.Str?
              && RoleName(v.value.s) in ["SUPER_ADMIN", "SUPERADMIN", "SCHOOL_ADMIN", "SCHOOLADMIN", "TECHNICIAN",
                                         "PARENT"]
  {
    hide RoleName;
  }

  /** A status in any case, with white space around it; everything else counts as active. */
  lemma StatusSpellings(before: string, text: string, after: string)
    requires AllSpace(before) && AllSpace(after) && Trimmed(text)
    ensures NormalizeStatus(Some(Str(before + text + after)))
            == if Upper(text) == "BLOCKED" then Blocked else if Upper(text) == "DISABLED" then Disabled else Active
    ensures NormalizeStatus(None) == Active && NormalizeStatus(Some(Null)) == Active
  {
    hide Trim, Upper;
    TrimAround(before, text, after);
  }
}
