/** What each alert filter lets through, one at a time and together, and what the summary counts. */
module AlertFilters {
  import opened Wrappers
  import opened Text
  import opened Alerts

  /** Filters act independently: an alert passes exactly if it passes each of them alone. */
  lemma FiltersAreIndependent(a: Alert, f: Filters)
    ensures Matches(a, f)
            <==> && Matches(a, NO_FILTERS.(status := f.status)) && Matches(a, NO_FILTERS.(severity := f.severity))
                 && Matches(a, NO_FILTERS.(alertType := f.alertType)) && Matches(a, NO_FILTERS.(schoolId := f.schoolId))
                 && Matches(a, NO_FILTERS.(cameraId := f.cameraId)) && Matches(a, NO_FILTERS.(search := f.search))
  {
    hide Haystack, Contains;
    NothingSearched();
  }

  lemma NothingSearched()
    ensures Lower(Trim("")) == ""
  {
    TrimBlank();
  }

  /** An empty choice, and for the first three the choice of all, lets everything through. */
  lemma EmptyChoices(a: Alert)
    ensures Matches(a, NO_FILTERS)
    ensures Matches(a, NO_FILTERS.(status := Some(""))) && Matches(a, NO_FILTERS.(status := Some("all")))
    ensures Matches(a, NO_FILTERS.(severity := Some(""))) && Matches(a, NO_FILTERS.(severity := Some("all")))
    ensures Matches(a, NO_FILTERS.(alertType := Some(""))) && Matches(a, NO_FILTERS.(alertType := Some("all")))
    ensures Matches(a, NO_FILTERS.(schoolId := Some(""))) && Matches(a, NO_FILTERS.(cameraId := Some("")))
  {
    hide Haystack, Contains;
    NothingSearched();
  }

  /** A choice is compared with its own field: statuses and severities in any case, the others as they are. */
  lemma ChoicesCompare(a: Alert, x: string)
    requires x != "" && x != "all"
    ensures Matches(a, NO_FILTERS.(status := Some(x))) <==> a.status == Lower(x)
    ensures Matches(a, NO_FILTERS.(severity := Some(x))) <==> a.severity == Lower(x)
    ensures Matches(a, NO_FILTERS.(alertType := Some(x))) <==> a.kind == x
    ensures Matches(a, NO_FILTERS.(schoolId := Some(x))) <==> a.schoolId == Some(x)
    ensures Matches(a, NO_FILTERS.(cameraId := Some(x))) <==> a.cameraId == Some(x)
  {
    hide Haystack, Contains;
    NothingSearched();
  }

  /** The search is for the trimmed text, in any case, in what is searched; blank text finds everything. */
  lemma SearchFinds(a: Alert, text: string)
    ensures Matches(a, NO_FILTERS.(search := Some(text)))
            <==> Trim(text) == "" || Contains(Lower(Haystack(a)), Lower(Trim(text)))
  {
    hide Haystack, Contains, Trim;
    assert |Lower(Trim(text))| == |Trim(text)|;
  }

  /** The texts of an alert, one after the other with a space between, those that are empty or absent left out. */
  lemma {:induction false} Searched(parts: seq<Option<string>>, more: seq<Option<string>>)
    ensures JoinGiven(parts + more)
            == if JoinGiven(parts) == "" then JoinGiven(more)
               else if JoinGiven(more) == "" then JoinGiven(parts) else JoinGiven(parts) + " " + JoinGiven(more)
    decreases |parts|
  {
    if parts == [] {
      assert parts + more == more;
    } else {
      assert (parts + more)[1..] == parts[1..] + more;
      Searched(parts[1..], more);
    }
  }

  lemma OneSearched(part: Option<string>)
    ensures JoinGiven([part]) == part.GetOr("")
  {
    assert [part][1..] == [];
  }

  /** All seven texts are searched, in this order. */
  lemma SearchedTexts(a: Alert)
    requires a.message != "" && a.title != "" && a.kind != "" && Truthy(a.schoolName) && Truthy(a.cameraName)
    requires Truthy(a.schoolId) && Truthy(a.cameraId)
    ensures Haystack(a) == a.message + " " + (a.title + " " + (a.kind + " " + (a.schoolName.value + " "
                           + (a.cameraName.value + " " + (a.schoolId.value + " " + a.cameraId.value)))))
  {
    hide JoinGiven;
    var p := [Some(a.message), Some(a.title), Some(a.kind), a.schoolName, a.cameraName, a.schoolId, a.cameraId];
    assert p == [p[0]] + p[1..] && p[1..] == [p[1]] + p[2..] && p[2..] == [p[2]] + p[3..] && p[3..] == [p[3]] + p[4..];
    assert p[4..] == [p[4]] + p[5..] && p[5..] == [p[5]] + p[6..] && p[6..] == [p[6]];
    OneSearched(p[0]);
    OneSearched(p[1]);
    OneSearched(p[2]);
    OneSearched(p[3]);
    OneSearched(p[4]);
    OneSearched(p[5]);
    OneSearched(p[6]);
    Searched([p[5]], p[6..]);
    Searched([p[4]], p[5..]);
    Searched([p[3]], p[4..]);
    Searched([p[2]], p[3..]);
    Searched([p[1]], p[2..]);
    Searched([p[0]], p[1..]);
  }

  /** Filtering keeps the order of the list and treats every alert on its own. */
  lemma {:induction false} FilteredInOrder(a: seq<Alert>, b: seq<Alert>, f: Filters)
    ensures Filtered(a + b, f) == Filtered(a, f) + Filtered(b, f)
    decreases |b|
  {
    hide Matches;
    if b == [] {
      assert a + b == a;
    } else {
      assert (a + b)[..|a + b| - 1] == a + b[..|b| - 1];
      FilteredInOrder(a, b[..|b| - 1], f);
    }
  }

  lemma OneFiltered(a: Alert, f: Filters)
    ensures Filtered([a], f) == if Matches(a, f) then [a] else []
  {
    hide Matches;
    assert [a][..0] == [];
  }

  /** A delivery has failed with one of two statuses, in any case; an alert is resolved on the day its time names. */
  lemma WordsOfSummary(status: string, id: string, a: Alert, day: string)
    ensures Failed(Delivery(id, Some(status))) <==> Upper(status) == "FAILED" || Upper(status) == "ERROR"
    ensures !Failed(Delivery(id, None))
    ensures ResolvedOn(a, day)
            <==> a.resolvedAt.Some? && |day| <= |a.resolvedAt.value| && a.resolvedAt.value[..|day|] == day
  {
    assert |Upper("")| == 0;
  }
}
