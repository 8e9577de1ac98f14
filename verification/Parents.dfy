/**
 `getParentById` of `lib/admin/parents-api.ts`: the children linked to a parent, found by asking every school for its
 children and every child for its parents. The server's answers are parameters; a failed request is an error.
 */
module Parents {
  import opened Wrappers

  datatype Failure = Forbidden | Failed

  datatype Parent = Parent(id: string, name: string)

  datatype School = School(id: string, name: string)

  datatype Child = Child(id: string, name: string, classroomId: Option<string>, status: string)

  datatype LinkedChild = LinkedChild(
    id: string,
    fullName: string,
    schoolId: string,
    schoolName: string,
    classroomId: Option<string>,
    status: string)

  datatype Detail = Detail(parent: Parent, children: seq<LinkedChild>)

  /** What the server answers to the requests involved. */
  datatype Server = Server(
    parents: Result<seq<Parent>, Failure>,
    schools: Result<seq<School>, Failure>,
    childrenOf: string -> Result<seq<Child>, Failure>,
    parentsOf: string -> Result<seq<Parent>, Failure>)

  function LinkOf(school: School, child: Child): LinkedChild {
    LinkedChild(child.id, child.name, school.id, school.name, child.classroomId, child.status)
  }

  predicate Holds(parents: seq<Parent>, id: string) {
    exists i | 0 <= i < |parents| :: parents[i].id == id
  }

  /** A failing lookup of a child's parents counts as a child without parents. */
  predicate IsLinked(server: Server, child: Child, parentId: string) {
    server.parentsOf(child.id).Ok? && Holds(server.parentsOf(child.id).value, parentId)
  }

  /** The linked ones among a school's children, in order. */
  function LinkedIn(server: Server, parentId: string, school: School, children: seq<Child>): seq<LinkedChild> {
    if children == [] then []
    else
      var n := |children| - 1;
      LinkedIn(server, parentId, school, children[..n])
      + if IsLinked(server, children[n], parentId) then [LinkOf(school, children[n])] else []
  }

  predicate AllAnswer(server: Server, schools: seq<School>) {
    forall i | 0 <= i < |schools| :: server.childrenOf(schools[i].id).Ok?
  }

  /** The linked children of the schools, school by school. */
  function LinkedAcross(server: Server, parentId: string, schools: seq<School>): seq<LinkedChild>
    requires AllAnswer(server, schools)
  {
    if schools == [] then []
    else
      var n := |schools| - 1;
      LinkedAcross(server, parentId, schools[..n])
      + LinkedIn(server, parentId, schools[n], server.childrenOf(schools[n].id).value)
  }

  /** `getParents`: only a failure other than a refusal is passed on, and a refused caller finds nobody listed. */
  method GetParents(server: Server) returns (r: Result<seq<Parent>, Failure>)
    ensures r.Err? <==> server.parents == Err(Failed)
    ensures r.Err? || server.parents.Ok? ==> r == server.parents
    ensures r.Ok? && server.parents.Err? ==> forall id :: !Holds(r.value, id)
  {
    r := server.parents;
    if r.Err? && r.error == Forbidden { r := Ok([]); }
  }

  method Find(parents: seq<Parent>, id: string) returns (r: Option<Parent>)
    ensures r.Some? <==> Holds(parents, id)
    ensures r.Some? ==> exists i | 0 <= i < |parents| ::
                          parents[i] == r.value && parents[i].id == id && forall j | 0 <= j < i :: parents[j].id != id
  {
    for i := 0 to |parents|
      invariant forall j | 0 <= j < i :: parents[j].id != id
    {
      if parents[i].id == id { return Some(parents[i]); }
    }
    return None;
  }

  /** The nested loops; the list under construction is given up as a whole when a school's children cannot be read. */
  method JoinChildren(server: Server, parentId: string, schools: seq<School>)
    returns (r: Result<seq<LinkedChild>, Failure>)
    ensures r.Ok? <==> AllAnswer(server, schools)
    ensures r.Ok? ==> r.value == LinkedAcross(server, parentId, schools)
  {
    var linkedChildren: seq<LinkedChild> := [];
    for i := 0 to |schools|
      invariant AllAnswer(server, schools[..i])
      invariant linkedChildren == LinkedAcross(server, parentId, schools[..i])
    {
      var school := schools[i];
      assert schools[..i + 1][..i] == schools[..i];
      var answer := server.childrenOf(school.id);
      if answer.Err? { return Err(answer.error); }
      var children := answer.value;
      ghost var before := linkedChildren;
      for j := 0 to |children|
        invariant linkedChildren == before + LinkedIn(server, parentId, school, children[..j])
      {
        var child := children[j];
        assert children[..j + 1][..j] == children[..j];
        var asked := server.parentsOf(child.id);
        var parentsForChild := if asked.Ok? then asked.value else [];
        var linked := Find(parentsForChild, parentId);
        if linked.Some? { linkedChildren := linkedChildren + [LinkOf(school, child)]; }
      }
      assert children[..|children|] == children;
    }
    assert schools[..|schools|] == schools;
    return Ok(linkedChildren);
  }

  /**
   No detail if the parent is not listed; otherwise the parent with all its linked children, or with none when the
   schools or any school's children cannot be read.
   */
  method GetParentById(server: Server, parentId: string) returns (r: Result<Option<Detail>, Failure>)
    ensures server.parents.Err? && server.parents.error == Failed ==> r == Err(Failed)
    ensures server.parents == Err(Forbidden) ==> r == Ok(None)
    ensures server.parents.Ok? && !Holds(server.parents.value, parentId) ==> r == Ok(None)
    ensures server.parents.Ok? && Holds(server.parents.value, parentId) ==>
              && r.Ok? && r.value.Some? && r.value.value.parent.id == parentId
              && r.value.value.parent in server.parents.value
              && r.value.value.children
                 == (if server.schools.Ok? && AllAnswer(server, server.schools.value)
                     then LinkedAcross(server, parentId, server.schools.value) else [])
  {
    var parents := GetParents(server);
    if parents.Err? { return Err(parents.error); }
    var parent := Find(parents.value, parentId);
    if parent.None? { return Ok(None); }
    if server.schools.Err? { return Ok(Some(Detail(parent.value, []))); }
    var linked := JoinChildren(server, parentId, server.schools.value);
    return Ok(Some(Detail(parent.value, if linked.Ok? then linked.value else [])));
  }

  // ---- the join, child by child ----

  /** A child of a school, by the positions of both. */
  datatype Place = Place(school: nat, child: nat)

  ghost function ChildrenAt(server: Server, schools: seq<School>, i: nat): seq<Child>
    requires AllAnswer(server, schools) && i < |schools|
  {
    server.childrenOf(schools[i].id).value
  }

  ghost predicate LinkedPlace(server: Server, parentId: string, schools: seq<School>, p: Place)
    requires AllAnswer(server, schools)
  {
    && p.school < |schools| && p.child < |ChildrenAt(server, schools, p.school)|
    && IsLinked(server, ChildrenAt(server, schools, p.school)[p.child], parentId)
  }

  ghost predicate Before(p: Place, q: Place) {
    p.school < q.school || (p.school == q.school && p.child < q.child)
  }

  /** The places of the linked children: each once, in school-then-child order, and none left out. */
  ghost predicate IsListing(server: Server, parentId: string, schools: seq<School>, places: seq<Place>)
    requires AllAnswer(server, schools)
  {
    && (forall k | 0 <= k < |places| :: LinkedPlace(server, parentId, schools, places[k]))
    && (forall k, l | 0 <= k < l < |places| :: Before(places[k], places[l]))
    && (forall p | LinkedPlace(server, parentId, schools, p) :: p in places)
  }

  lemma {:induction false} LinkedPositions(server: Server, parentId: string, school: School, children: seq<Child>)
    returns (js: seq<nat>)
    ensures forall k | 0 <= k < |js| :: js[k] < |children| && IsLinked(server, children[js[k]], parentId)
    ensures forall k, l | 0 <= k < l < |js| :: js[k] < js[l]
    ensures forall j: nat | j < |children| && IsLinked(server, children[j], parentId) :: j in js
    ensures var r := LinkedIn(server, parentId, school, children);
            |r| == |js| && forall k | 0 <= k < |js| :: r[k] == LinkOf(school, children[js[k]])
    decreases |children|
  {
    if children == [] {
      js := [];
    } else {
      var n := |children| - 1;
      var before := LinkedPositions(server, parentId, school, children[..n]);
      js := before + if IsLinked(server, children[n], parentId) then [n] else [];
    }
  }

  /** The places of all schools but the last, followed by those of the last. */
  lemma ListingPush(server: Server, parentId: string, schools: seq<School>, earlier: seq<Place>, js: seq<nat>)
    requires AllAnswer(server, schools) && schools != []
    requires IsListing(server, parentId, schools[..|schools| - 1], earlier)
    requires var children := ChildrenAt(server, schools, |schools| - 1);
             && (forall k | 0 <= k < |js| :: js[k] < |children| && IsLinked(server, children[js[k]], parentId))
             && (forall k, l | 0 <= k < l < |js| :: js[k] < js[l])
             && (forall j: nat | j < |children| && IsLinked(server, children[j], parentId) :: j in js)
    ensures IsListing(server, parentId, schools, earlier + PlacesOf(|schools| - 1, js))
  {
    hide IsLinked;
    var n := |schools| - 1;
    var last := PlacesOf(n, js);
    var places := earlier + last;
    forall p | LinkedPlace(server, parentId, schools, p) ensures p in places {
      if p.school < n {
        assert LinkedPlace(server, parentId, schools[..n], p);
      } else {
        var k :| 0 <= k < |js| && js[k] == p.child;
        assert last[k] == p;
      }
    }
    forall k | 0 <= k < |places| ensures LinkedPlace(server, parentId, schools, places[k]) {
      if k < |earlier| { assert LinkedPlace(server, parentId, schools[..n], earlier[k]); }
    }
  }

  function PlacesOf(school: nat, js: seq<nat>): (places: seq<Place>)
    ensures |places| == |js| && forall k | 0 <= k < |js| :: places[k] == Place(school, js[k])
  {
    seq(|js|, k requires 0 <= k < |js| => Place(school, js[k]))
  }

  /** The children found are exactly the linked ones, in school-then-child order. */
  lemma {:induction false} LinkedAcrossIsListing(server: Server, parentId: string, schools: seq<School>)
    returns (places: seq<Place>)
    requires AllAnswer(server, schools)
    ensures IsListing(server, parentId, schools, places)
    ensures var r := LinkedAcross(server, parentId, schools);
            && |r| == |places|
            && forall k | 0 <= k < |places| ::
                 var p := places[k];
                 r[k] == LinkOf(schools[p.school], ChildrenAt(server, schools, p.school)[p.child])
    decreases |schools|
  {
    if schools == [] {
      places := [];
    } else {
      hide IsLinked, LinkedIn;
      var n := |schools| - 1;
      var earlier := LinkedAcrossIsListing(server, parentId, schools[..n]);
      var js := LinkedPositions(server, parentId, schools[n], ChildrenAt(server, schools, n));
      ListingPush(server, parentId, schools, earlier, js);
      places := earlier + PlacesOf(n, js);
    }
  }

  /** What is shown of a linked child: its own id, name, classroom and status, with the school it was found in. */
  lemma LinkShows(school: School, child: Child)
    ensures var l := LinkOf(school, child);
            && l.id == child.id && l.fullName == child.name && l.classroomId == child.classroomId
            && l.status == child.status && l.schoolId == school.id && l.schoolName == school.name
  {
  }
}
