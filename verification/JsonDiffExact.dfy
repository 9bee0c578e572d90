/** Exactly which nodes the comparison visits, in which order, and exactly what it reports. */
module JsonDiffExact {
  import opened Wrappers
  import opened Json
  import opened JsonPointer
  import opened JsonDiff
  import opened JsonDiffTheorems
  import Ordering

  // ----- Places in a document -----

  datatype Place = Member(key: string) | Item(index: nat)

  type Path = seq<Place>

  /** What a document has at a place. */
  function Below(doc: Option<Json>, p: Place): Option<Json> {
    if doc.None? then None
    else
      match p
      case Member(key) => if doc.value.Obj? && key in doc.value.members then Some(doc.value.members[key]) else None
      case Item(i) => if doc.value.Arr? && i < |doc.value.items| then Some(doc.value.items[i]) else None
  }

  function Follow(doc: Option<Json>, path: Path): Option<Json>
    decreases |path|
  {
    if path == [] then doc else Follow(Below(doc, path[0]), path[1..])
  }

  /** The reference token of a place, and the pointer of a path, as RFC 6901 writes them. */
  function Token(p: Place): string {
    match p
    case Member(key) => Escape(key)
    case Item(i) => Decimal(i)
  }

  function PointerOf(path: Path): string {
    if path == [] then "" else "/" + Token(path[0]) + PointerOf(path[1..])
  }

  predicate IsNonEmptyContainer(j: Json) {
    (j.Obj? && j.members != map[]) || (j.Arr? && j.items != [])
  }

  /** A pair that is as deep as it can be: there is nothing below it that both sides could share. */
  predicate IsDeepest(before: Option<Json>, after: Option<Json>) {
    match (before, after)
    case (Some(b), Some(a)) => !(b.Obj? && a.Obj?) && !(b.Arr? && a.Arr?)
    case (Some(b), None) => !IsNonEmptyContainer(b)
    case (None, Some(a)) => !IsNonEmptyContainer(a)
    case (None, None) => true
  }

  predicate IsThere(before: Option<Json>, after: Option<Json>, p: Place) {
    Below(before, p).Some? || Below(after, p).Some?
  }

  /**
   * The walk comes to a path: nothing above it is deepest or excluded, and each place is there in one of the
   * documents. `pointer` is the pointer of the node where the path starts.
   */
  predicate Visited(before: Option<Json>, after: Option<Json>, pointer: string, ignored: seq<string>, path: Path)
    decreases |path|
  {
    path == []
    || (!IsDeepest(before, after) && pointer !in ignored && IsThere(before, after, path[0])
        && Visited(Below(before, path[0]), Below(after, path[0]), pointer + "/" + Token(path[0]), ignored, path[1..]))
  }

  /** The order of the places below one node: members by key, items by index. */
  predicate PlaceBefore(p: Place, q: Place) {
    match (p, q)
    case (Member(k), Member(l)) => Ordering.Less(k, l)
    case (Item(i), Item(j)) => i < j
    case _ => false
  }

  /** The order of the walk: a node before what is below it, and places in their order. */
  predicate Comes(p: Path, q: Path) {
    q != [] && (p == [] || PlaceBefore(p[0], q[0]) || (p[0] == q[0] && Comes(p[1..], q[1..])))
  }

  predicate InOrder(paths: seq<Path>) {
    forall i, j | 0 <= i < j < |paths| :: Comes(paths[i], paths[j])
  }

  /** What a difference at a path is reported as. */
  function ChangeAt(before: Option<Json>, after: Option<Json>, pointer: string, path: Path): Change {
    var b, a := Follow(before, path), Follow(after, path);
    Change(pointer + PointerOf(path), if b.None? then Added else if a.None? then Removed else Changed, b, a)
  }

  /** What the walk does at a path. */
  function StepAt(
      before: Option<Json>, after: Option<Json>, pointer: string, depth: nat, ignored: seq<string>, path: Path): Step
  {
    var b, a := Follow(before, path), Follow(after, path);
    var excluded := pointer + PointerOf(path) in ignored;
    Step(depth + |path|, excluded,
         if !excluded && IsDeepest(b, a) && b != a then Some(ChangeAt(before, after, pointer, path)) else None)
  }

  // ----- The children of a node are its places -----

  lemma LeavesAreDeepest(before: Option<Json>, after: Option<Json>)
    ensures Children(before, after).None? <==> IsDeepest(before, after)
  {
    hide Escape, Decimal, Ordering.SortedKeys;
  }

  /** The places of a node, in the order of its children. */
  ghost predicate Places(before: Option<Json>, after: Option<Json>, children: seq<Child>, places: seq<Place>) {
    && |places| == |children|
    && (forall i | 0 <= i < |places| ::
          IsThere(before, after, places[i])
          && children[i] == Child(Token(places[i]), Below(before, places[i]), Below(after, places[i])))
    && (forall i, j | 0 <= i < j < |places| :: PlaceBefore(places[i], places[j]))
    && forall p | IsThere(before, after, p) :: p in places
  }

  lemma ObjectPlaces(before: Option<Json>, after: Option<Json>, keys: seq<string>, children: seq<Child>)
    returns (places: seq<Place>)
    requires before.Some? ==> before.value.Obj?
    requires after.Some? ==> after.value.Obj?
    requires Ordering.Sorted(keys) && |children| == |keys|
    requires forall k :: k in keys <==> IsThere(before, after, Member(k))
    requires forall i | 0 <= i < |keys| ::
      children[i] == Child(Escape(keys[i]), Below(before, Member(keys[i])), Below(after, Member(keys[i])))
    ensures Places(before, after, children, places)
  {
    hide Escape, Decimal, Ordering.Less;
    places := seq(|keys|, i requires 0 <= i < |keys| => Member(keys[i]));
    forall i | 0 <= i < |places| ensures IsThere(before, after, places[i]) {
      assert keys[i] in keys;
    }
    forall p | IsThere(before, after, p) ensures p in places {
      assert p.Member?;
      var i :| 0 <= i < |keys| && keys[i] == p.key;
      assert places[i] == p;
    }
  }

  lemma ArrayPlaces(before: Option<Json>, after: Option<Json>, children: seq<Child>) returns (places: seq<Place>)
    requires before.Some? ==> before.value.Arr?
    requires after.Some? ==> after.value.Arr?
    requires forall i: nat :: i < |children| <==> IsThere(before, after, Item(i))
    requires forall i: nat | i < |children| ::
      children[i] == Child(Decimal(i), Below(before, Item(i)), Below(after, Item(i)))
    ensures Places(before, after, children, places)
  {
    hide Escape, Decimal, Ordering.Less;
    places := seq(|children|, (i: nat) => Item(i));
    forall p | IsThere(before, after, p) ensures p in places {
      assert p.Item?;
      assert p.index < |children|;
      assert places[p.index] == p;
    }
  }

  lemma PlacesOf(before: Option<Json>, after: Option<Json>) returns (places: seq<Place>)
    requires Children(before, after).Some?
    ensures Places(before, after, Children(before, after).value, places)
  {
    hide Escape, Decimal, Ordering.Less, Places;
    var children := Children(before, after).value;
    match (before, after) {
      case (Some(Obj(a)), Some(Obj(b))) =>
        places := ObjectPlaces(before, after, Ordering.SortedKeys(a.Keys + b.Keys), children);
      case (Some(Obj(a)), None) => places := ObjectPlaces(before, after, Ordering.SortedKeys(a.Keys), children);
      case (None, Some(Obj(b))) => places := ObjectPlaces(before, after, Ordering.SortedKeys(b.Keys), children);
      case (_, _) => places := ArrayPlaces(before, after, children);
    }
  }

  // ----- The walk -----

  /** These are the paths of the nodes, in order: each is visited, does what it must, and none is left out. */
  ghost predicate Nodes(
      before: Option<Json>, after: Option<Json>, pointer: string, depth: nat, ignored: seq<string>, steps: seq<Step>,
      paths: seq<Path>)
  {
    && |paths| == |steps| && InOrder(paths)
    && (forall i | 0 <= i < |paths| ::
          Visited(before, after, pointer, ignored, paths[i])
          && steps[i] == StepAt(before, after, pointer, depth, ignored, paths[i]))
    && forall path | Visited(before, after, pointer, ignored, path) :: path in paths
  }

  /** The same for the nodes below some of the places of a node. */
  ghost predicate NodesBelow(
      before: Option<Json>, after: Option<Json>, pointer: string, depth: nat, ignored: seq<string>,
      places: seq<Place>, steps: seq<Step>, paths: seq<Path>)
  {
    && |paths| == |steps| && InOrder(paths)
    && (forall i | 0 <= i < |paths| ::
          paths[i] != [] && paths[i][0] in places && Visited(before, after, pointer, ignored, paths[i])
          && steps[i] == StepAt(before, after, pointer, depth, ignored, paths[i]))
    && forall path | path != [] && path[0] in places && Visited(before, after, pointer, ignored, path) :: path in paths
  }

  lemma UnderPlace(
      before: Option<Json>, after: Option<Json>, pointer: string, depth: nat, ignored: seq<string>, p: Place,
      path: Path)
    requires !IsDeepest(before, after) && pointer !in ignored && IsThere(before, after, p)
    ensures Visited(Below(before, p), Below(after, p), pointer + "/" + Token(p), ignored, path)
       <==> Visited(before, after, pointer, ignored, [p] + path)
    ensures StepAt(Below(before, p), Below(after, p), pointer + "/" + Token(p), depth + 1, ignored, path)
         == StepAt(before, after, pointer, depth, ignored, [p] + path)
  {
    hide Below, Token, IsDeepest;
    assert ([p] + path)[1..] == path;
    assert pointer + ("/" + Token(p) + PointerOf(path)) == pointer + "/" + Token(p) + PointerOf(path);
  }

  lemma Prefixed(p: Place, paths: seq<Path>) returns (all: seq<Path>)
    ensures |all| == |paths| && forall i | 0 <= i < |all| :: all[i] == [p] + paths[i]
    ensures InOrder(paths) ==> InOrder(all)
  {
    hide PlaceBefore;
    all := seq(|paths|, i requires 0 <= i < |paths| => [p] + paths[i]);
    forall i, j | 0 <= i < j < |paths| && Comes(paths[i], paths[j]) ensures Comes(all[i], all[j]) {
      assert all[i][1..] == paths[i] && all[j][1..] == paths[j];
    }
  }

  /** Nodes below the first place, and those below the others. */
  lemma FirstPlace(
      before: Option<Json>, after: Option<Json>, pointer: string, depth: nat, ignored: seq<string>,
      places: seq<Place>, first: seq<Step>, rest: seq<Step>, paths: seq<Path>, more: seq<Path>)
    returns (all: seq<Path>)
    requires places != [] && !IsDeepest(before, after) && pointer !in ignored && IsThere(before, after, places[0])
    requires forall i | 0 < i < |places| :: PlaceBefore(places[0], places[i])
    requires Nodes(Below(before, places[0]), Below(after, places[0]), pointer + "/" + Token(places[0]), depth + 1,
                   ignored, first, paths)
    requires NodesBelow(before, after, pointer, depth, ignored, places[1..], rest, more)
    ensures NodesBelow(before, after, pointer, depth, ignored, places, first + rest, all)
  {
    hide Below, Token, IsDeepest, StepAt, Visited, PlaceBefore, IsThere;
    var p := places[0];
    var start := Prefixed(p, paths);
    all := start + more;
    assert places == [p] + places[1..];
    forall i | 0 <= i < |all|
      ensures all[i] != [] && all[i][0] in places && Visited(before, after, pointer, ignored, all[i])
              && (first + rest)[i] == StepAt(before, after, pointer, depth, ignored, all[i])
    {
      if i < |start| {
        UnderPlace(before, after, pointer, depth, ignored, p, paths[i]);
      }
    }
    forall i, j | 0 <= i < j < |all| ensures Comes(all[i], all[j]) {
      if i < |start| <= j {
        assert all[j] == more[j - |start|] && all[i][0] == p;
      } else if i >= |start| {
        assert all[i] == more[i - |start|] && all[j] == more[j - |start|];
      }
    }
    forall path | path != [] && path[0] in places && Visited(before, after, pointer, ignored, path)
      ensures path in all
    {
      if path[0] == p {
        assert path == [p] + path[1..];
        UnderPlace(before, after, pointer, depth, ignored, p, path[1..]);
        var i :| 0 <= i < |paths| && paths[i] == path[1..];
        assert all[i] == path;
      } else {
        assert path in more;
      }
    }
  }

  lemma {:induction false} NodesBelowAre(
      before: Option<Json>, after: Option<Json>, pointer: string, depth: nat, ignored: seq<string>,
      children: seq<Child>, places: seq<Place>)
    returns (paths: seq<Path>)
    requires !IsDeepest(before, after) && pointer !in ignored && |places| == |children|
    requires forall i | 0 <= i < |places| ::
      IsThere(before, after, places[i])
      && children[i] == Child(Token(places[i]), Below(before, places[i]), Below(after, places[i]))
    requires forall i, j | 0 <= i < j < |places| :: PlaceBefore(places[i], places[j])
    ensures NodesBelow(before, after, pointer, depth, ignored, places,
                       StepsAll(children, pointer, depth + 1, ignored), paths)
    decreases SizeOfAll(children), |children|
  {
    hide Below, Token, IsDeepest, IsThere, PlaceBefore, Steps, Nodes, Size;
    if children == [] {
      paths := [];
      NoPlaces(before, after, pointer, depth, ignored);
    } else {
      var c := children[0];
      var first := NodesAre(c.before, c.after, pointer + "/" + c.token, depth + 1, ignored);
      var more := NodesBelowAre(before, after, pointer, depth, ignored, children[1..], places[1..]);
      hide NodesBelow;
      paths := FirstPlace(before, after, pointer, depth, ignored, places,
                          Steps(c.before, c.after, pointer + "/" + c.token, depth + 1, ignored),
                          StepsAll(children[1..], pointer, depth + 1, ignored), first, more);
    }
  }

  lemma NoPlaces(before: Option<Json>, after: Option<Json>, pointer: string, depth: nat, ignored: seq<string>)
    ensures NodesBelow(before, after, pointer, depth, ignored, [], [], [])
  {
  }

  lemma WithRoot(
      before: Option<Json>, after: Option<Json>, pointer: string, depth: nat, ignored: seq<string>,
      places: seq<Place>, steps: seq<Step>, paths: seq<Path>)
    requires !IsDeepest(before, after) && pointer !in ignored
    requires NodesBelow(before, after, pointer, depth, ignored, places, steps, paths)
    requires forall p | IsThere(before, after, p) :: p in places
    ensures Nodes(before, after, pointer, depth, ignored, [Step(depth, false, None)] + steps, [[]] + paths)
  {
    AtRoot(before, after, pointer, depth, ignored);
    hide *;
    InOrderBelow(before, after, pointer, depth, ignored, places, steps, paths);
    var all: seq<Path> := [[]] + paths;
    var done := [Step(depth, false, None)] + steps;
    forall i | 0 <= i < |all|
      ensures Visited(before, after, pointer, ignored, all[i])
              && done[i] == StepAt(before, after, pointer, depth, ignored, all[i])
    {
      if i > 0 {
        assert all[i] == paths[i - 1] && done[i] == steps[i - 1];
        BelowIs(before, after, pointer, depth, ignored, places, steps, paths, i - 1);
      }
    }
    forall path | Visited(before, after, pointer, ignored, path) ensures path in all {
      if path == [] {
        assert all[0] == path;
      } else {
        VisitedIsThere(before, after, pointer, ignored, path);
        FoundBelow(before, after, pointer, depth, ignored, places, steps, paths, path);
      }
    }
    RootComesFirst(paths);
    Together(before, after, pointer, depth, ignored, done, all);
  }

  lemma AtRoot(before: Option<Json>, after: Option<Json>, pointer: string, depth: nat, ignored: seq<string>)
    requires !IsDeepest(before, after) && pointer !in ignored
    ensures Visited(before, after, pointer, ignored, [])
    ensures StepAt(before, after, pointer, depth, ignored, []) == Step(depth, false, None)
  {
    hide IsDeepest;
    assert pointer + "" == pointer;
  }

  lemma VisitedIsThere(before: Option<Json>, after: Option<Json>, pointer: string, ignored: seq<string>, path: Path)
    requires path != [] && Visited(before, after, pointer, ignored, path)
    ensures IsThere(before, after, path[0])
  {
    hide IsDeepest, IsThere, Below, Token;
  }

  lemma BelowIs(
      before: Option<Json>, after: Option<Json>, pointer: string, depth: nat, ignored: seq<string>,
      places: seq<Place>, steps: seq<Step>, paths: seq<Path>, i: nat)
    requires NodesBelow(before, after, pointer, depth, ignored, places, steps, paths) && i < |paths|
    ensures |paths| == |steps| && Visited(before, after, pointer, ignored, paths[i])
    ensures steps[i] == StepAt(before, after, pointer, depth, ignored, paths[i])
  {
    hide Visited, StepAt, InOrder;
  }

  lemma FoundBelow(
      before: Option<Json>, after: Option<Json>, pointer: string, depth: nat, ignored: seq<string>,
      places: seq<Place>, steps: seq<Step>, paths: seq<Path>, path: Path)
    requires NodesBelow(before, after, pointer, depth, ignored, places, steps, paths)
    requires path != [] && path[0] in places && Visited(before, after, pointer, ignored, path)
    ensures path in paths
  {
    hide Visited, StepAt, InOrder;
  }

  lemma InOrderBelow(
      before: Option<Json>, after: Option<Json>, pointer: string, depth: nat, ignored: seq<string>,
      places: seq<Place>, steps: seq<Step>, paths: seq<Path>)
    requires NodesBelow(before, after, pointer, depth, ignored, places, steps, paths)
    ensures InOrder(paths) && |paths| == |steps| && forall i | 0 <= i < |paths| :: paths[i] != []
  {
    hide Visited, StepAt, InOrder;
  }

  lemma RootComesFirst(paths: seq<Path>)
    requires InOrder(paths) && forall i | 0 <= i < |paths| :: paths[i] != []
    ensures InOrder([[]] + paths)
  {
    hide PlaceBefore;
    var all: seq<Path> := [[]] + paths;
    assert forall i | 0 < i < |all| :: all[i] == paths[i - 1];
  }

  lemma Together(
      before: Option<Json>, after: Option<Json>, pointer: string, depth: nat, ignored: seq<string>, steps: seq<Step>,
      paths: seq<Path>)
    requires |paths| == |steps| && InOrder(paths)
    requires forall i | 0 <= i < |paths| ::
      Visited(before, after, pointer, ignored, paths[i])
      && steps[i] == StepAt(before, after, pointer, depth, ignored, paths[i])
    requires forall path | Visited(before, after, pointer, ignored, path) :: path in paths
    ensures Nodes(before, after, pointer, depth, ignored, steps, paths)
  {
    hide Visited, StepAt, InOrder;
  }

  lemma OnlyRoot(before: Option<Json>, after: Option<Json>, pointer: string, depth: nat, ignored: seq<string>)
    requires IsDeepest(before, after) || pointer in ignored
    ensures Nodes(before, after, pointer, depth, ignored, [StepAt(before, after, pointer, depth, ignored, [])], [[]])
    ensures StepAt(before, after, pointer, depth, ignored, [])
         == Step(depth, pointer in ignored, if pointer in ignored then None else Leaf(before, after, pointer))
  {
    assert pointer + "" == pointer;
    var root: Path := [];
    assert [root][0] == root;
  }

  /**
   * Main result: the nodes of the walk are those at the paths that it comes to, each path once, a node before what is
   * below it, members in key order and items by index. Each counts its depth and whether it is excluded, and reports
   * a difference exactly when the pair at its path is deepest and differs.
   */
  lemma {:induction false} NodesAre(
      before: Option<Json>, after: Option<Json>, pointer: string, depth: nat, ignored: seq<string>)
    returns (paths: seq<Path>)
    ensures Nodes(before, after, pointer, depth, ignored, Steps(before, after, pointer, depth, ignored), paths)
    decreases Size(before, after), 0
  {
    hide Below, Token, IsDeepest, IsThere, PlaceBefore, Nodes, NodesBelow, Leaf, Size;
    LeavesAreDeepest(before, after);
    if pointer in ignored || Children(before, after).None? {
      OnlyRoot(before, after, pointer, depth, ignored);
      paths := [[]];
    } else {
      var children := Children(before, after).value;
      var places := PlacesOf(before, after);
      var below := NodesBelowAre(before, after, pointer, depth, ignored, children, places);
      WithRoot(before, after, pointer, depth, ignored, places, StepsAll(children, pointer, depth + 1, ignored), below);
      paths := [[]] + below;
    }
  }

  // ----- What is reported -----

  /** A difference that is reported: the walk comes to it, it is not excluded, and it is as deep as it can be. */
  predicate Differs(before: Json, after: Json, ignored: seq<string>, path: Path) {
    var b, a := Follow(Some(before), path), Follow(Some(after), path);
    Visited(Some(before), Some(after), "", ignored, path) && PointerOf(path) !in ignored && IsDeepest(b, a) && b != a
  }

  function Reported(before: Json, after: Json, path: Path): Change {
    ChangeAt(Some(before), Some(after), "", path)
  }

  lemma StepReports(before: Json, after: Json, ignored: seq<string>, path: Path)
    requires Visited(Some(before), Some(after), "", ignored, path)
    ensures var change := StepAt(Some(before), Some(after), "", 0, ignored, path).change;
      (change.Some? <==> Differs(before, after, ignored, path))
      && (change.Some? ==> change.value == Reported(before, after, path))
  {
    hide Follow, IsDeepest, Visited;
    assert "" + PointerOf(path) == PointerOf(path);
  }

  /** The changes of some nodes in order, and their paths. */
  lemma {:induction false} CollectedPaths(
      before: Json, after: Json, ignored: seq<string>, steps: seq<Step>, paths: seq<Path>)
    returns (found: seq<Path>)
    requires |paths| == |steps| && InOrder(paths)
    requires forall i | 0 <= i < |paths| ::
      Visited(Some(before), Some(after), "", ignored, paths[i])
      && steps[i] == StepAt(Some(before), Some(after), "", 0, ignored, paths[i])
    ensures |found| == |Collected(steps)| && InOrder(found)
    ensures forall i | 0 <= i < |found| ::
      found[i] in paths && Differs(before, after, ignored, found[i])
      && Collected(steps)[i] == Reported(before, after, found[i])
    ensures forall path <- paths :: Differs(before, after, ignored, path) ==> path in found
    decreases |steps|
  {
    hide *;
    if steps == [] {
      found := [];
      NothingCollected();
    } else {
      var tail := paths[1..];
      RestInOrder(paths);
      var rest := CollectedPaths(before, after, ignored, steps[1..], tail);
      StepReports(before, after, ignored, paths[0]);
      CollectedFirst(steps);
      assert paths == [paths[0]] + tail;
      if steps[0].change.Some? {
        found := [paths[0]] + rest;
        FirstInOrder(paths, rest);
      } else {
        found := rest;
      }
    }
  }

  lemma NothingCollected()
    ensures Collected([]) == [] && InOrder([])
  {
  }

  lemma CollectedFirst(steps: seq<Step>)
    requires steps != []
    ensures Collected(steps)
         == if steps[0].change.Some? then [steps[0].change.value] + Collected(steps[1..]) else Collected(steps[1..])
  {
    assert [] + Collected(steps[1..]) == Collected(steps[1..]);
  }

  lemma RestInOrder(paths: seq<Path>)
    requires paths != [] && InOrder(paths)
    ensures InOrder(paths[1..])
  {
    hide Comes;
  }

  lemma FirstInOrder(paths: seq<Path>, rest: seq<Path>)
    requires paths != [] && InOrder(paths) && InOrder(rest) && forall path <- rest :: path in paths[1..]
    ensures InOrder([paths[0]] + rest)
  {
    hide Comes;
    var found := [paths[0]] + rest;
    forall j | 0 < j < |found| ensures Comes(found[0], found[j]) {
      assert found[j] == rest[j - 1] && rest[j - 1] in paths[1..];
      var k :| 0 <= k < |paths[1..]| && paths[1..][k] == found[j];
      assert paths[k + 1] == found[j];
    }
    assert forall i, j | 0 < i < j < |found| :: found[i] == rest[i - 1] && found[j] == rest[j - 1];
  }

  /**
   * Main result: the comparison reports a difference at exactly the paths where there is one that is as deep as it can
   * be, with both values and the kind, in the order of the walk: members by key, items by index. Excluded are exactly
   * the nodes whose pointer is listed, with all that is below them. So a report that is not truncated is determined by
   * the documents; a truncated one is the beginning of it.
   */
  lemma ReportsExactlyTheDeepestDifferences(before: Json, after: Json, ignored: seq<string>)
    returns (found: seq<Path>)
    ensures var changes := Compare(before, after, ignored).changes;
      && |changes| <= |found| && (!Compare(before, after, ignored).truncated ==> |changes| == |found|)
      && (forall i | 0 <= i < |changes| :: changes[i] == Reported(before, after, found[i]))
    ensures InOrder(found)
    ensures forall path :: path in found <==> Differs(before, after, ignored, path)
  {
    hide Steps, Diff, Collected, Compare, Visited, StepAt, Differs, InOrder;
    BoundedRefinesUnbounded(before, after, ignored);
    StepsCarryDiff(Some(before), Some(after), "", 0, ignored);
    var steps := Steps(Some(before), Some(after), "", 0, ignored);
    var paths := NodesAre(Some(before), Some(after), "", 0, ignored);
    found := CollectedPaths(before, after, ignored, steps, paths);
    forall path | Differs(before, after, ignored, path) ensures path in found {
      DiffersIsVisited(before, after, ignored, path);
      assert path in paths;
    }
  }

  lemma DiffersIsVisited(before: Json, after: Json, ignored: seq<string>, path: Path)
    requires Differs(before, after, ignored, path)
    ensures Visited(Some(before), Some(after), "", ignored, path)
  {
    hide Follow, IsDeepest, Visited;
  }

  // ----- Counters and limits -----

  lemma {:induction false} MoreIsCollected(steps: seq<Step>, i: nat, j: nat)
    requires i <= j <= |steps|
    ensures |Collected(steps[..i])| <= |Collected(steps[..j])|
  {
    assert steps[..j] == steps[..i] + steps[i..j];
    CollectedConcat(steps[..i], steps[i..j]);
  }

  /** How many of the paths are excluded. */
  function ExcludedPaths(paths: seq<Path>, ignored: seq<string>): nat {
    if paths == [] then 0 else (if PointerOf(paths[0]) in ignored then 1 else 0) + ExcludedPaths(paths[1..], ignored)
  }

  lemma {:induction false} ExcludedAre(
      before: Option<Json>, after: Option<Json>, ignored: seq<string>, steps: seq<Step>, paths: seq<Path>)
    requires |paths| == |steps|
    requires forall i | 0 <= i < |paths| :: steps[i] == StepAt(before, after, "", 0, ignored, paths[i])
    ensures Excluded(steps) == ExcludedPaths(paths, ignored)
    decreases |steps|
  {
    hide Follow, IsDeepest, PointerOf, ChangeAt;
    if steps != [] {
      assert "" + PointerOf(paths[0]) == PointerOf(paths[0]);
      ExcludedAre(before, after, ignored, steps[1..], paths[1..]);
    }
  }

  /**
   * Main result: a comparison counts the nodes that it visits and those that are excluded, and is truncated if and
   * only if there are more than 100,000 nodes, or one is deeper than 64, or 1,000 changes come before the last node.
   */
  lemma TruncatedExactly(before: Json, after: Json, ignored: seq<string>) returns (paths: seq<Path>)
    ensures forall path :: path in paths <==> Visited(Some(before), Some(after), "", ignored, path)
    ensures InOrder(paths) && paths != []
    ensures var r := Compare(before, after, ignored);
      r.visited <= |paths| && (!r.truncated ==> r.visited == |paths|)
      && r.ignoredSubtrees == ExcludedPaths(paths[..r.visited], ignored)
    ensures var steps := Steps(Some(before), Some(after), "", 0, ignored);
      |steps| == |paths|
      && (Compare(before, after, ignored).truncated
          <==> |paths| > 100_000 || (exists path <- paths :: |path| > 64)
               || |Collected(steps[..|steps| - 1])| >= 1_000)
  {
    hide Diff, Collected, Visited, StepAt, Excluded, Run, Fits;
    var steps := Steps(Some(before), Some(after), "", 0, ignored);
    hide Steps;
    paths := NodesAre(Some(before), Some(after), "", 0, ignored);
    assert |steps| == |paths|;
    RootIsVisited(Some(before), Some(after), ignored);
    RunIsBoundedPrefix(EMPTY, steps);
    var r := Compare(before, after, ignored);
    FitsExactly(Some(before), Some(after), ignored, steps, paths);
    ExcludedAre(Some(before), Some(after), ignored, steps[..r.visited], paths[..r.visited]);
  }

  lemma RootIsVisited(before: Option<Json>, after: Option<Json>, ignored: seq<string>)
    ensures Visited(before, after, "", ignored, [])
  {
  }

  lemma DepthOfStep(before: Option<Json>, after: Option<Json>, ignored: seq<string>, path: Path)
    ensures StepAt(before, after, "", 0, ignored, path).depth == |path|
  {
    hide Follow, IsDeepest, PointerOf, ChangeAt;
  }

  lemma FitsExactly(
      before: Option<Json>, after: Option<Json>, ignored: seq<string>, steps: seq<Step>, paths: seq<Path>)
    requires |paths| == |steps| > 0
    requires forall i | 0 <= i < |paths| :: steps[i] == StepAt(before, after, "", 0, ignored, paths[i])
    ensures Fits(0, 0, steps)
       <==> |paths| <= 100_000 && (forall path <- paths :: |path| <= 64) && |Collected(steps[..|steps| - 1])| < 1_000
  {
    hide StepAt, Collected;
    forall i | 0 <= i < |steps|
      ensures steps[i].depth == |paths[i]|
      ensures |Collected(steps[..i])| <= |Collected(steps[..|steps| - 1])|
    {
      DepthOfStep(before, after, ignored, paths[i]);
      MoreIsCollected(steps, i, |steps| - 1);
    }
    if Fits(0, 0, steps) {
      forall path <- paths ensures |path| <= 64 {
        var i :| 0 <= i < |paths| && paths[i] == path;
      }
    } else if forall path <- paths :: |path| <= 64 {
      assert forall i | 0 <= i < |steps| :: paths[i] in paths;
    }
  }
}
