/** The bounded structural comparison of two JSON documents. */
module JsonDiff {
  import opened Wrappers
  import opened Json
  import opened JsonPointer
  import Ordering

  const MAX_COMPARISON_BYTES: nat := 4 * 1024 * 1024
  const MAX_CHANGES: nat := 1_000
  const MAX_VISITED: nat := 100_000
  const MAX_DEPTH: nat := 64

  datatype ChangeKind = Added | Removed | Changed

  datatype Change = Change(pointer: string, kind: ChangeKind, before: Option<Json>, after: Option<Json>)

  // ----- One node of the walk: a value on either side, of which one may be missing -----

  datatype Child = Child(token: string, before: Option<Json>, after: Option<Json>)

  function Members(keys: seq<string>, before: map<string, Json>, after: map<string, Json>): (r: seq<Child>)
    ensures |r| == |keys|
    ensures forall i | 0 <= i < |r| :: r[i] == Child(Escape(keys[i]), Get(before, keys[i]), Get(after, keys[i]))
  {
    seq(|keys|, i requires 0 <= i < |keys| => Child(Escape(keys[i]), Get(before, keys[i]), Get(after, keys[i])))
  }

  function Items(before: seq<Json>, after: seq<Json>): (r: seq<Child>)
    ensures |r| == if |before| < |after| then |after| else |before|
    ensures forall i | 0 <= i < |r| :: r[i] == Child(Decimal(i), At(before, i), At(after, i))
  {
    seq(if |before| < |after| then |after| else |before|, (i: nat) => Child(Decimal(i), At(before, i), At(after, i)))
  }

  /** The pairs below a pair of values, in walking order; a pair without any is compared as a leaf. */
  function Children(before: Option<Json>, after: Option<Json>): (r: Option<seq<Child>>)
    ensures r.Some? ==> SizeOfAll(r.value) < Size(before, after)
  {
    ChildrenAreSmaller(before, after);
    Pairs(before, after)
  }

  function Pairs(before: Option<Json>, after: Option<Json>): Option<seq<Child>> {
    match (before, after)
    case (Some(Obj(a)), Some(Obj(b))) => Some(Members(Ordering.SortedKeys(a.Keys + b.Keys), a, b))
    case (Some(Arr(a)), Some(Arr(b))) => Some(Items(a, b))
    case (Some(Obj(a)), None) => if a == map[] then None else Some(Members(Ordering.SortedKeys(a.Keys), a, map[]))
    case (None, Some(Obj(b))) => if b == map[] then None else Some(Members(Ordering.SortedKeys(b.Keys), map[], b))
    case (Some(Arr(a)), None) => if a == [] then None else Some(Items(a, []))
    case (None, Some(Arr(b))) => if b == [] then None else Some(Items([], b))
    case _ => None
  }

  lemma ChildrenAreSmaller(before: Option<Json>, after: Option<Json>)
    ensures Pairs(before, after).Some? ==> SizeOfAll(Pairs(before, after).value) < Size(before, after)
  {
    if Pairs(before, after).Some? {
      EachIsSmaller(before, after);
      hide Pairs, Size;
      AllSmaller(Pairs(before, after).value, Size(before, after));
    }
  }

  lemma EachIsSmaller(before: Option<Json>, after: Option<Json>)
    requires Pairs(before, after).Some?
    ensures Size(before, after) > 0
    ensures forall c <- Pairs(before, after).value :: Size(c.before, c.after) < Size(before, after)
  {
    hide Escape, Decimal, Ordering.SortedKeys;
  }

  ghost function SizeOfAll(children: seq<Child>): nat {
    if children == [] then 0
    else
      var first, rest := Size(children[0].before, children[0].after), SizeOfAll(children[1..]);
      if first < rest then rest else first
  }

  lemma AllSmaller(children: seq<Child>, bound: nat)
    requires bound > 0 && forall c <- children :: Size(c.before, c.after) < bound
    ensures SizeOfAll(children) < bound
  {
    if children != [] {
      AllSmaller(children[1..], bound);
    }
  }

  function KindOf(before: Option<Json>, after: Option<Json>): ChangeKind {
    if before.None? then Added else if after.None? then Removed else Changed
  }

  /** What comparing a leaf reports. */
  function Leaf(before: Option<Json>, after: Option<Json>, pointer: string): Option<Change> {
    if before != after then Some(Change(pointer, KindOf(before, after), before, after)) else None
  }

  function Report(change: Option<Change>): seq<Change> {
    if change.Some? then [change.value] else []
  }

  // ----- The comparison without any limit -----

  function Diff(before: Option<Json>, after: Option<Json>, pointer: string, ignored: seq<string>): seq<Change>
    decreases Size(before, after), 0
  {
    if pointer in ignored then []
    else
      match Children(before, after)
      case Some(children) => DiffAll(children, pointer, ignored)
      case None => Report(Leaf(before, after, pointer))
  }

  function DiffAll(children: seq<Child>, pointer: string, ignored: seq<string>): seq<Change>
    decreases SizeOfAll(children), |children|
  {
    if children == [] then []
    else
      Diff(children[0].before, children[0].after, pointer + "/" + children[0].token, ignored)
      + DiffAll(children[1..], pointer, ignored)
  }

  // ----- The bounded comparison, as a run over the nodes in walking order -----

  /** What visiting one node does when no limit stops it. */
  datatype Step = Step(depth: nat, excluded: bool, change: Option<Change>)

  function Steps(
      before: Option<Json>, after: Option<Json>, pointer: string, depth: nat, ignored: seq<string>): seq<Step>
    decreases Size(before, after), 0
  {
    if pointer in ignored then [Step(depth, true, None)]
    else
      match Children(before, after)
      case Some(children) => [Step(depth, false, None)] + StepsAll(children, pointer, depth + 1, ignored)
      case None => [Step(depth, false, Leaf(before, after, pointer))]
  }

  function StepsAll(children: seq<Child>, pointer: string, depth: nat, ignored: seq<string>): seq<Step>
    decreases SizeOfAll(children), |children|
  {
    if children == [] then []
    else
      Steps(children[0].before, children[0].after, pointer + "/" + children[0].token, depth, ignored)
      + StepsAll(children[1..], pointer, depth, ignored)
  }

  /** The accumulator. */
  datatype Progress = Progress(changes: seq<Change>, truncated: bool, ignoredSubtrees: nat, visited: nat)

  const EMPTY := Progress([], false, 0, 0)

  predicate Stops(st: Progress, step: Step) {
    st.visited >= MAX_VISITED || |st.changes| >= MAX_CHANGES || step.depth > MAX_DEPTH
  }

  function Advance(st: Progress, step: Step): Progress {
    if Stops(st, step) then st.(truncated := true)
    else
      Progress(st.changes + Report(step.change), st.truncated,
               st.ignoredSubtrees + (if step.excluded then 1 else 0), st.visited + 1)
  }

  function Run(st: Progress, steps: seq<Step>): Progress
    decreases |steps|
  {
    if st.truncated || steps == [] then st else Run(Advance(st, steps[0]), steps[1..])
  }

  lemma RunCons(st: Progress, step: Step, rest: seq<Step>)
    requires !st.truncated
    ensures Run(st, [step] + rest) == Run(Advance(st, step), rest)
  {
    assert ([step] + rest)[1..] == rest;
  }

  lemma {:induction false} RunConcat(st: Progress, first: seq<Step>, second: seq<Step>)
    ensures Run(st, first + second) == Run(Run(st, first), second)
    decreases |first|
  {
    if first == [] {
      assert first + second == second;
    } else if !st.truncated {
      assert (first + second)[1..] == first[1..] + second;
      RunConcat(Advance(st, first[0]), first[1..], second);
    }
  }

  lemma RunOne(st: Progress, step: Step)
    requires !st.truncated
    ensures Run(st, [step]) == Advance(st, step)
  {
    assert [step][1..] == [];
  }

  /** What the first node of a subtree does to a run, and what is left to do after it. */
  lemma FirstStep(
      st: Progress, before: Option<Json>, after: Option<Json>, pointer: string, depth: nat, ignored: seq<string>)
    ensures var run := Run(st, Steps(before, after, pointer, depth, ignored));
      if st.truncated then run == st
      else if st.visited >= MAX_VISITED || |st.changes| >= MAX_CHANGES || depth > MAX_DEPTH then
        run == st.(truncated := true)
      else if pointer in ignored then run == Advance(st, Step(depth, true, None))
      else
        match Children(before, after)
        case None => run == Advance(st, Step(depth, false, Leaf(before, after, pointer)))
        case Some(children) =>
          run == Run(Advance(st, Step(depth, false, None)), StepsAll(children, pointer, depth + 1, ignored))
  {
    hide Children, Leaf, Report, StepsAll, Size, SizeOfAll;
    if !st.truncated {
      if pointer in ignored {
        RunOne(st, Step(depth, true, None));
      } else {
        match Children(before, after)
        case None => RunOne(st, Step(depth, false, Leaf(before, after, pointer)));
        case Some(children) =>
          RunCons(st, Step(depth, false, None), StepsAll(children, pointer, depth + 1, ignored));
      }
    }
  }

  class JsonComparison {
    var changes: seq<Change>
    var truncated: bool
    var ignoredSubtrees: nat
    var visited: nat

    constructor ()
      ensures View() == EMPTY
    {
      changes, truncated, ignoredSubtrees, visited := [], false, 0, 0;
    }

    function View(): Progress
      reads this
    {
      Progress(changes, truncated, ignoredSubtrees, visited)
    }

    /** The recursive walk: exactly the bounded run over the nodes of this subtree. */
    method Visit(before: Option<Json>, after: Option<Json>, pointer: string, depth: nat, ignored: seq<string>)
      modifies this
      ensures View() == Run(old(View()), Steps(before, after, pointer, depth, ignored))
      decreases Size(before, after), 0
    {
      hide Run, Steps, StepsAll, Children, Size, SizeOfAll;
      ghost var st := View();
      FirstStep(st, before, after, pointer, depth, ignored);
      if truncated {
        return;
      }
      if visited >= MAX_VISITED || |changes| >= MAX_CHANGES || depth > MAX_DEPTH {
        truncated := true;
        return;
      }
      visited := visited + 1;
      if pointer in ignored {
        ignoredSubtrees := ignoredSubtrees + 1;
        return;
      }
      match Children(before, after) {
        case Some(children) =>
          assert View() == Advance(st, Step(depth, false, None));
          VisitAll(children, pointer, depth + 1, ignored);
        case None =>
          if before != after {
            changes := changes + [Change(pointer, KindOf(before, after), before, after)];
          }
          assert View() == Advance(st, Step(depth, false, Leaf(before, after, pointer)));
      }
    }

    /** The loop over the pairs below a node, left as soon as a limit was hit. */
    method VisitAll(children: seq<Child>, pointer: string, depth: nat, ignored: seq<string>)
      modifies this
      ensures View() == Run(old(View()), StepsAll(children, pointer, depth, ignored))
      decreases SizeOfAll(children), 1
    {
      for i := 0 to |children|
        invariant Run(View(), StepsAll(children[i..], pointer, depth, ignored))
               == Run(old(View()), StepsAll(children, pointer, depth, ignored))
      {
        EnterChild(View(), children, i, pointer, depth, ignored);
        Visit(children[i].before, children[i].after, pointer + "/" + children[i].token, depth, ignored);
        if truncated {
          break;
        }
      }
    }
  }

  lemma SizeOfOne(children: seq<Child>, i: nat)
    requires i < |children|
    ensures Size(children[i].before, children[i].after) <= SizeOfAll(children)
  {
    if i > 0 {
      SizeOfOne(children[1..], i - 1);
    }
  }

  lemma EnterChild(st: Progress, children: seq<Child>, i: nat, pointer: string, depth: nat, ignored: seq<string>)
    requires i < |children|
    ensures Size(children[i].before, children[i].after) <= SizeOfAll(children)
    ensures Run(st, StepsAll(children[i..], pointer, depth, ignored))
         == Run(Run(st, Steps(children[i].before, children[i].after, pointer + "/" + children[i].token,
                             depth, ignored)),
                StepsAll(children[i + 1..], pointer, depth, ignored))
  {
    SizeOfOne(children, i);
    assert children[i..][1..] == children[i + 1..];
    RunConcat(st, Steps(children[i].before, children[i].after, pointer + "/" + children[i].token, depth, ignored),
              StepsAll(children[i + 1..], pointer, depth, ignored));
  }
  /** The result of comparing two parsed documents. */
  function Compare(before: Json, after: Json, ignored: seq<string>): Progress {
    Run(EMPTY, Steps(Some(before), Some(after), "", 0, ignored))
  }

  // ----- The entry point -----

  /** A response body: its size, and what the JSON parser makes of it. */
  datatype Body = Body(length: nat, parsed: Option<Json>)

  datatype CompareError =
    | TooLarge
    | MustStartWithSlash(pointer: string)
    | InvalidEscape(pointer: string)
    | BaselineNotJson
    | CurrentNotJson

  /** The error of the first exclusion that is not a JSON Pointer. */
  function PointerError(ignored: seq<string>): (r: Option<CompareError>)
    ensures r.None? <==> forall p <- ignored :: Accepted(p)
  {
    assert ignored != [] ==> ignored[0] in ignored;
    if ignored == [] then None
    else if ignored[0] != "" && ignored[0][0] != '/' then Some(MustStartWithSlash(ignored[0]))
    else if !EscapesOk(ignored[0]) then Some(InvalidEscape(ignored[0]))
    else PointerError(ignored[1..])
  }

  method CheckEscapes(pointer: string) returns (ok: bool)
    ensures ok <==> EscapesOk(pointer)
  {
    var i := 0;
    while i < |pointer|
      invariant i <= |pointer|
      invariant EscapesOk(pointer) <==> EscapesOk(pointer[i..])
    {
      if pointer[i] == '~' {
        if i + 1 == |pointer| || (pointer[i + 1] != '0' && pointer[i + 1] != '1') {
          return false;
        }
        i := i + 1;
      }
      i := i + 1;
    }
    return true;
  }

  method CompareJson(before: Body, after: Body, ignored: seq<string>) returns (r: Result<JsonComparison, CompareError>)
    ensures r.Ok? <==> before.length <= 4_194_304 && after.length <= 4_194_304
                       && (forall p <- ignored :: Accepted(p)) && before.parsed.Some? && after.parsed.Some?
    ensures r.Ok? ==> fresh(r.value)
                      && r.value.View() == Compare(before.parsed.value, after.parsed.value, ignored)
    ensures r == Err(TooLarge) <==> before.length > 4_194_304 || after.length > 4_194_304
    ensures r.Err? && r.error != TooLarge && PointerError(ignored).Some? ==> Some(r.error) == PointerError(ignored)
    ensures r.Err? && r.error != TooLarge && PointerError(ignored).None? ==>
      r.error == if before.parsed.None? then BaselineNotJson else CurrentNotJson
  {
    if before.length > MAX_COMPARISON_BYTES || after.length > MAX_COMPARISON_BYTES {
      return Err(TooLarge);
    }
    for i := 0 to |ignored|
      invariant forall p <- ignored[..i] :: Accepted(p)
      invariant PointerError(ignored) == PointerError(ignored[i..])
    {
      assert ignored[i..][1..] == ignored[i + 1..];
      if ignored[i] != "" && ignored[i][0] != '/' {
        return Err(MustStartWithSlash(ignored[i]));
      }
      var ok := CheckEscapes(ignored[i]);
      if !ok {
        return Err(InvalidEscape(ignored[i]));
      }
    }
    if before.parsed.None? {
      return Err(BaselineNotJson);
    }
    if after.parsed.None? {
      return Err(CurrentNotJson);
    }
    var result := new JsonComparison();
    result.Visit(before.parsed, after.parsed, "", 0, ignored);
    return Ok(result);
  }
}

/** What the comparison promises, for all pairs of documents. */
module JsonDiffTheorems {
  import opened Wrappers
  import opened Json
  import opened JsonPointer
  import opened JsonDiff
  import Ordering

  // ----- The bounded comparison refines the unbounded one -----

  function Collected(steps: seq<Step>): seq<Change> {
    if steps == [] then [] else Report(steps[0].change) + Collected(steps[1..])
  }

  function Excluded(steps: seq<Step>): nat {
    if steps == [] then 0 else (if steps[0].excluded then 1 else 0) + Excluded(steps[1..])
  }

  lemma {:induction false} CollectedConcat(first: seq<Step>, second: seq<Step>)
    ensures Collected(first + second) == Collected(first) + Collected(second)
  {
    if first == [] {
      assert first + second == second;
    } else {
      assert (first + second)[1..] == first[1..] + second;
      CollectedConcat(first[1..], second);
    }
  }

  /** The nodes of the walk carry, in order, exactly the changes of the unbounded comparison. */
  lemma {:induction false} StepsCarryDiff(
    before: Option<Json>, after: Option<Json>, pointer: string, depth: nat, ignored: seq<string>)
    ensures Collected(Steps(before, after, pointer, depth, ignored)) == Diff(before, after, pointer, ignored)
    decreases Size(before, after), 0
  {
    if pointer !in ignored {
      match Children(before, after)
      case Some(children) =>
        StepsAllCarryDiff(children, pointer, depth + 1, ignored);
        CollectedConcat([Step(depth, false, None)], StepsAll(children, pointer, depth + 1, ignored));
      case None =>
    }
  }

  lemma {:induction false} StepsAllCarryDiff(children: seq<Child>, pointer: string, depth: nat, ignored: seq<string>)
    ensures Collected(StepsAll(children, pointer, depth, ignored)) == DiffAll(children, pointer, ignored)
    decreases SizeOfAll(children), |children|
  {
    if children != [] {
      var c := children[0];
      StepsCarryDiff(c.before, c.after, pointer + "/" + c.token, depth, ignored);
      StepsAllCarryDiff(children[1..], pointer, depth, ignored);
      CollectedConcat(Steps(c.before, c.after, pointer + "/" + c.token, depth, ignored),
                      StepsAll(children[1..], pointer, depth, ignored));
    }
  }

  /** No limit is hit when `visited` nodes and `found` changes were there before. */
  predicate Fits(visited: nat, found: nat, steps: seq<Step>) {
    && visited + |steps| <= MAX_VISITED
    && forall i | 0 <= i < |steps| :: steps[i].depth <= MAX_DEPTH && found + |Collected(steps[..i])| < MAX_CHANGES
  }

  lemma FitsCons(visited: nat, found: nat, steps: seq<Step>)
    requires steps != []
    ensures Fits(visited, found, steps)
       <==> visited < MAX_VISITED && found < MAX_CHANGES && steps[0].depth <= MAX_DEPTH
            && Fits(visited + 1, found + |Report(steps[0].change)|, steps[1..])
  {
    forall i | 0 < i < |steps|
      ensures |Collected(steps[..i])| == |Report(steps[0].change)| + |Collected(steps[1..][..i - 1])|
      ensures steps[i] == steps[1..][i - 1]
    {
      assert steps[..i][1..] == steps[1..][..i - 1];
    }
    var rest := steps[1..];
    assert Collected(steps[..0]) == [];
    if Fits(visited, found, steps) {
      forall i | 0 <= i < |rest|
        ensures rest[i].depth <= MAX_DEPTH && found + |Report(steps[0].change)| + |Collected(rest[..i])| < MAX_CHANGES
      {
        assert rest[i] == steps[i + 1] && rest[..i] == rest[..(i + 1) - 1];
      }
    }
  }

  /** A run processes a prefix of the nodes, and all of them exactly when they fit the limits. */
  lemma {:induction false} RunIsBoundedPrefix(st: Progress, steps: seq<Step>)
    requires !st.truncated && st.visited <= MAX_VISITED && |st.changes| <= MAX_CHANGES
    ensures var r := Run(st, steps); var done := r.visited - st.visited;
      && 0 <= done <= |steps| && r.visited <= MAX_VISITED && |r.changes| <= MAX_CHANGES
      && r.changes == st.changes + Collected(steps[..done])
      && r.ignoredSubtrees == st.ignoredSubtrees + Excluded(steps[..done])
      && (r.truncated <==> !Fits(st.visited, |st.changes|, steps))
      && (r.truncated <==> done < |steps|)
    decreases |steps|
  {
    if steps == [] {
    } else {
      FitsCons(st.visited, |st.changes|, steps);
      var next := Advance(st, steps[0]);
      if Stops(st, steps[0]) {
        assert Run(st, steps) == next;
      } else {
        RunIsBoundedPrefix(next, steps[1..]);
        var done := Run(next, steps[1..]).visited - next.visited;
        assert steps[..done + 1][1..] == steps[1..][..done];
      }
    }
  }

  /**
   * Main result: the reported changes are a prefix, in order, of the changes found without limits;
   * they are all of them when the report is not truncated; both limits are kept; and the report is
   * truncated exactly when the walk does not fit the limits.
   */
  lemma BoundedRefinesUnbounded(before: Json, after: Json, ignored: seq<string>)
    ensures var r := Compare(before, after, ignored); var all := Diff(Some(before), Some(after), "", ignored);
      && r.changes <= all
      && (!r.truncated ==> r.changes == all)
      && r.visited <= MAX_VISITED && |r.changes| <= MAX_CHANGES
      && (r.truncated <==> !Fits(0, 0, Steps(Some(before), Some(after), "", 0, ignored)))
  {
    hide Steps, Diff, Run, Fits, Collected;
    var steps := Steps(Some(before), Some(after), "", 0, ignored);
    StepsCarryDiff(Some(before), Some(after), "", 0, ignored);
    StartsEmpty();
    RunIsBoundedPrefix(EMPTY, steps);
    var done := Run(EMPTY, steps).visited;
    CollectedConcat(steps[..done], steps[done..]);
    assert steps[..done] + steps[done..] == steps;
  }

  lemma StartsEmpty()
    ensures Collected([]) == [] && [] + Collected([]) == []
  {
  }

  // ----- Every reported change is true of the two documents -----

  predicate TokensAreWhole(children: seq<Child>) {
    && (forall c <- children :: '/' !in c.token)
    && (forall i, j | 0 <= i < j < |children| :: children[i].token != children[j].token)
  }

  /** The pairs below a node are what their tokens select on either side. */
  lemma ChildrenAreSelected(before: Option<Json>, after: Option<Json>, i: nat)
    requires Children(before, after).Some? && i < |Children(before, after).value|
    ensures var c := Children(before, after).value[i];
      '/' !in c.token && c.before == Select(before, c.token) && c.after == Select(after, c.token)
  {
    match (before, after) {
      case (Some(Obj(a)), Some(Obj(b))) => MemberToken(Ordering.SortedKeys(a.Keys + b.Keys)[i]);
      case (Some(Obj(a)), None) => MemberToken(Ordering.SortedKeys(a.Keys)[i]);
      case (None, Some(Obj(b))) => MemberToken(Ordering.SortedKeys(b.Keys)[i]);
      case (_, _) => ArrayIndexInvertsDecimal(i);
    }
  }

  lemma MemberToken(key: string)
    ensures '/' !in Escape(key) && Unescape(Escape(key)) == key
  {
    EscapedHasNoSlash(key);
    UnescapeInvertsEscape(key);
  }

  ghost predicate True(before: Option<Json>, after: Option<Json>, pointer: string, c: Change) {
    && pointer <= c.pointer
    && Continues(c.pointer[|pointer|..])
    && Evaluate(before, c.pointer[|pointer|..]) == c.before
    && Evaluate(after, c.pointer[|pointer|..]) == c.after
    && c.before != c.after
    && c.kind == KindOf(c.before, c.after)
  }

  lemma {:induction false} DiffIsTrue(
    before: Option<Json>, after: Option<Json>, pointer: string, ignored: seq<string>, c: Change)
    requires c in Diff(before, after, pointer, ignored)
    ensures True(before, after, pointer, c)
    decreases Size(before, after), 0
  {
    match Children(before, after)
    case None => assert c.pointer[|pointer|..] == "";
    case Some(children) =>
      var i := DiffAllIsTrue(children, pointer, ignored, c);
      ChildrenAreSelected(before, after, i);
      TrueAbove(before, after, pointer, children[i].token, c);
  }

  /** A change that is true of what a token selects is true of the node itself. */
  lemma TrueAbove(before: Option<Json>, after: Option<Json>, pointer: string, token: string, c: Change)
    requires '/' !in token && True(Select(before, token), Select(after, token), pointer + "/" + token, c)
    ensures True(before, after, pointer, c)
  {
    hide Evaluate, Select, KindOf;
    var below := pointer + "/" + token;
    var rest := c.pointer[|below|..];
    assert c.pointer == below + rest;
    assert c.pointer[|pointer|..] == "/" + token + rest;
    EvaluateStep(before, token, rest);
    EvaluateStep(after, token, rest);
  }

  lemma {:induction false} DiffAllIsTrue(children: seq<Child>, pointer: string, ignored: seq<string>, c: Change)
    returns (i: nat)
    requires c in DiffAll(children, pointer, ignored)
    ensures i < |children| && True(children[i].before, children[i].after, pointer + "/" + children[i].token, c)
    decreases SizeOfAll(children), |children|
  {
    hide True, Diff, Children;
    var first := children[0];
    if c in Diff(first.before, first.after, pointer + "/" + first.token, ignored) {
      DiffIsTrue(first.before, first.after, pointer + "/" + first.token, ignored, c);
      i := 0;
    } else {
      i := DiffAllIsTrue(children[1..], pointer, ignored, c);
      i := i + 1;
    }
  }

  /**
   * Main result: evaluating a reported pointer in the two documents, as RFC 6901 does, gives exactly
   * the reported values, which differ, and the kind says which side is missing.
   */
  lemma ReportedChangesAreTrue(before: Json, after: Json, ignored: seq<string>, c: Change)
    requires c in Compare(before, after, ignored).changes
    ensures Evaluate(Some(before), c.pointer) == c.before && Evaluate(Some(after), c.pointer) == c.after
    ensures c.before != c.after
    ensures c.kind == Added <==> c.before.None?
    ensures c.kind == Removed <==> c.after.None?
  {
    BoundedRefinesUnbounded(before, after, ignored);
    DiffIsTrue(Some(before), Some(after), "", ignored, c);
    assert c.pointer[0..] == c.pointer;
  }

  // ----- No two reported pointers are related -----

  lemma DiffExtends(before: Option<Json>, after: Option<Json>, pointer: string, ignored: seq<string>, c: Change)
    requires c in Diff(before, after, pointer, ignored)
    ensures Extends(pointer, c.pointer)
  {
    DiffIsTrue(before, after, pointer, ignored, c);
    var rest := c.pointer[|pointer|..];
    if rest != "" {
      assert (pointer + "/")[..|pointer|] == pointer;
    }
  }

  predicate Unrelated(changes: seq<Change>) {
    forall i, j | 0 <= i < j < |changes| ::
      !Extends(changes[i].pointer, changes[j].pointer) && !Extends(changes[j].pointer, changes[i].pointer)
  }

  lemma TokensOfChildren(before: Option<Json>, after: Option<Json>)
    requires Children(before, after).Some?
    ensures TokensAreWhole(Children(before, after).value)
  {
    var children := Children(before, after).value;
    forall i | 0 <= i < |children| ensures '/' !in children[i].token {
      ChildrenAreSelected(before, after, i);
    }
    forall i, j | 0 <= i < j < |children| ensures children[i].token != children[j].token {
      TokensDiffer(before, after, i, j);
    }
  }

  lemma TokensDiffer(before: Option<Json>, after: Option<Json>, i: nat, j: nat)
    requires Children(before, after).Some? && i < j < |Children(before, after).value|
    ensures Children(before, after).value[i].token != Children(before, after).value[j].token
  {
    match (before, after) {
      case (Some(Obj(a)), Some(Obj(b))) => KeysDiffer(Ordering.SortedKeys(a.Keys + b.Keys), i, j);
      case (Some(Obj(a)), None) => KeysDiffer(Ordering.SortedKeys(a.Keys), i, j);
      case (None, Some(Obj(b))) => KeysDiffer(Ordering.SortedKeys(b.Keys), i, j);
      case (_, _) =>
        ArrayIndexInvertsDecimal(i);
        ArrayIndexInvertsDecimal(j);
    }
  }

  lemma KeysDiffer(keys: seq<string>, i: nat, j: nat)
    requires Ordering.Sorted(keys) && i < j < |keys|
    ensures Escape(keys[i]) != Escape(keys[j])
  {
    Ordering.Asymmetric();
    UnescapeInvertsEscape(keys[i]);
    UnescapeInvertsEscape(keys[j]);
  }

  lemma {:induction false} DiffIsUnrelated(
    before: Option<Json>, after: Option<Json>, pointer: string, ignored: seq<string>)
    ensures Unrelated(Diff(before, after, pointer, ignored))
    decreases Size(before, after), 0
  {
    if pointer !in ignored && Children(before, after).Some? {
      TokensOfChildren(before, after);
      DiffAllIsUnrelated(Children(before, after).value, pointer, ignored);
    }
  }

  lemma {:induction false} DiffAllIsUnrelated(children: seq<Child>, pointer: string, ignored: seq<string>)
    requires TokensAreWhole(children)
    ensures Unrelated(DiffAll(children, pointer, ignored))
    decreases SizeOfAll(children), |children|
  {
    if children != [] {
      var c, below := children[0], pointer + "/" + children[0].token;
      var first, rest := Diff(c.before, c.after, below, ignored), DiffAll(children[1..], pointer, ignored);
      DiffIsUnrelated(c.before, c.after, below, ignored);
      DiffAllIsUnrelated(children[1..], pointer, ignored);
      forall x, y | x in first && y in rest
        ensures !Extends(x.pointer, y.pointer) && !Extends(y.pointer, x.pointer)
      {
        DiffExtends(c.before, c.after, below, ignored, x);
        var i := ChildOfChange(children[1..], pointer, ignored, y);
        var other := children[i + 1];
        BranchesAreUnrelated(pointer, c.token, other.token, x.pointer, y.pointer);
        BranchesAreUnrelated(pointer, other.token, c.token, y.pointer, x.pointer);
      }
    }
  }

  lemma {:induction false} ChildOfChange(children: seq<Child>, pointer: string, ignored: seq<string>, c: Change)
    returns (i: nat)
    requires c in DiffAll(children, pointer, ignored)
    ensures i < |children| && Extends(pointer + "/" + children[i].token, c.pointer)
    decreases |children|
  {
    var first := children[0];
    if c in Diff(first.before, first.after, pointer + "/" + first.token, ignored) {
      DiffExtends(first.before, first.after, pointer + "/" + first.token, ignored, c);
      i := 0;
    } else {
      i := ChildOfChange(children[1..], pointer, ignored, c);
      i := i + 1;
    }
  }

  /** Main result: reported pointers are pairwise distinct and none lies below another. */
  lemma ReportedPointersAreUnrelated(before: Json, after: Json, ignored: seq<string>)
    ensures Unrelated(Compare(before, after, ignored).changes)
  {
    BoundedRefinesUnbounded(before, after, ignored);
    DiffIsUnrelated(Some(before), Some(after), "", ignored);
  }

  // ----- Exclusions are a filter -----

  predicate Covered(pointer: string, ignored: seq<string>) {
    exists q <- ignored :: Extends(q, pointer)
  }

  function Kept(changes: seq<Change>, ignored: seq<string>): seq<Change> {
    if changes == [] then []
    else (if Covered(changes[0].pointer, ignored) then [] else [changes[0]]) + Kept(changes[1..], ignored)
  }

  lemma {:induction false} KeptConcat(first: seq<Change>, second: seq<Change>, ignored: seq<string>)
    ensures Kept(first + second, ignored) == Kept(first, ignored) + Kept(second, ignored)
  {
    if first == [] {
      assert first + second == second;
    } else {
      assert (first + second)[1..] == first[1..] + second;
      KeptConcat(first[1..], second, ignored);
    }
  }

  lemma {:induction false} NothingKept(changes: seq<Change>, ignored: seq<string>)
    requires forall c <- changes :: Covered(c.pointer, ignored)
    ensures Kept(changes, ignored) == []
  {
    if changes != [] {
      NothingKept(changes[1..], ignored);
    }
  }

  lemma CoveredChild(pointer: string, token: string, ignored: seq<string>)
    requires '/' !in token && Covered(pointer + "/" + token, ignored) && pointer + "/" + token !in ignored
    ensures Covered(pointer, ignored)
  {
    var q :| q in ignored && Extends(q, pointer + "/" + token);
    var child := pointer + "/" + token;
    assert child[|q|] == '/';
    assert forall i | |pointer| < i < |child| :: child[i] == token[i - |pointer| - 1];
    assert |q| <= |pointer|;
    assert q == child[..|q|];
    if |q| < |pointer| {
      assert q + "/" == pointer[..|q| + 1];
    }
  }

  lemma {:induction false} DiffIsFiltered(
    before: Option<Json>, after: Option<Json>, pointer: string, ignored: seq<string>)
    requires Covered(pointer, ignored) ==> pointer in ignored
    ensures Diff(before, after, pointer, ignored) == Kept(Diff(before, after, pointer, []), ignored)
    decreases Size(before, after), 0
  {
    if pointer in ignored {
      var all := Diff(before, after, pointer, []);
      forall c <- all ensures Covered(c.pointer, ignored) {
        DiffExtends(before, after, pointer, [], c);
      }
      NothingKept(all, ignored);
    } else if Children(before, after).Some? {
      TokensOfChildren(before, after);
      DiffAllIsFiltered(Children(before, after).value, pointer, ignored);
    }
  }

  lemma {:induction false} DiffAllIsFiltered(children: seq<Child>, pointer: string, ignored: seq<string>)
    requires !Covered(pointer, ignored) && forall c <- children :: '/' !in c.token
    ensures DiffAll(children, pointer, ignored) == Kept(DiffAll(children, pointer, []), ignored)
    decreases SizeOfAll(children), |children|
  {
    if children != [] {
      var c, below := children[0], pointer + "/" + children[0].token;
      if Covered(below, ignored) && below !in ignored {
        CoveredChild(pointer, c.token, ignored);
      }
      DiffIsFiltered(c.before, c.after, below, ignored);
      DiffAllIsFiltered(children[1..], pointer, ignored);
      KeptConcat(Diff(c.before, c.after, below, []), DiffAll(children[1..], pointer, []), ignored);
    }
  }

  /**
   * Main result: excluding pointers removes exactly the changes at or below them, wherever they lie,
   * so a report that was not truncated is the filtered comparison without exclusions.
   */
  lemma ExclusionsAreAFilter(before: Json, after: Json, ignored: seq<string>)
    ensures Diff(Some(before), Some(after), "", ignored) == Kept(Diff(Some(before), Some(after), "", []), ignored)
    ensures !Compare(before, after, ignored).truncated
        ==> Compare(before, after, ignored).changes == Kept(Diff(Some(before), Some(after), "", []), ignored)
  {
    DiffIsFiltered(Some(before), Some(after), "", ignored);
    BoundedRefinesUnbounded(before, after, ignored);
  }

  // ----- Completeness -----

  lemma {:induction false} EqualHasNoDiff(value: Json, pointer: string)
    ensures Diff(Some(value), Some(value), pointer, []) == []
    decreases Size(Some(value), Some(value)), 0
  {
    if Children(Some(value), Some(value)).Some? {
      var children := Children(Some(value), Some(value)).value;
      forall i | 0 <= i < |children|
        ensures children[i].before == children[i].after && children[i].before.Some?
      {
        if value.Obj? {
          var keys := Ordering.SortedKeys(value.members.Keys + value.members.Keys);
          assert keys[i] in keys;
        }
      }
      NoChildDiffers(children, pointer);
    }
  }

  lemma {:induction false} NoChildDiffers(children: seq<Child>, pointer: string)
    requires forall i | 0 <= i < |children| :: children[i].before == children[i].after && children[i].before.Some?
    ensures DiffAll(children, pointer, []) == []
    decreases SizeOfAll(children), |children|
  {
    if children != [] {
      EqualHasNoDiff(children[0].before.value, pointer + "/" + children[0].token);
      NoChildDiffers(children[1..], pointer);
    }
  }

  lemma {:induction false} DifferentHasDiff(before: Option<Json>, after: Option<Json>, pointer: string)
    requires before != after
    ensures Diff(before, after, pointer, []) != []
    decreases Size(before, after), 0
  {
    if Children(before, after).Some? {
      var children := Children(before, after).value;
      var i := SomeChildDiffers(before, after);
      ChildDiffShows(children, pointer, i);
    }
  }

  lemma {:induction false} ChildDiffShows(children: seq<Child>, pointer: string, i: nat)
    requires i < |children| && children[i].before != children[i].after
    ensures DiffAll(children, pointer, []) != []
    decreases SizeOfAll(children), |children|
  {
    if i == 0 {
      DifferentHasDiff(children[0].before, children[0].after, pointer + "/" + children[0].token);
    } else {
      ChildDiffShows(children[1..], pointer, i - 1);
    }
  }

  lemma SomeChildDiffers(before: Option<Json>, after: Option<Json>) returns (i: nat)
    requires before != after && Children(before, after).Some?
    ensures i < |Children(before, after).value|
    ensures Children(before, after).value[i].before != Children(before, after).value[i].after
  {
    i := 0;
    match (before, after) {
      case (Some(Obj(a)), Some(Obj(b))) =>
        var k := DifferentMember(a, b);
        i := IndexOf(Ordering.SortedKeys(a.Keys + b.Keys), k);
      case (Some(Arr(a)), Some(Arr(b))) =>
        i := DifferentItem(a, b);
      case (Some(Obj(a)), None) =>
        var k :| k in a.Keys;
        i := IndexOf(Ordering.SortedKeys(a.Keys), k);
      case (None, Some(Obj(b))) =>
        var k :| k in b.Keys;
        i := IndexOf(Ordering.SortedKeys(b.Keys), k);
      case (_, _) =>
    }
  }

  lemma DifferentMember(a: map<string, Json>, b: map<string, Json>) returns (k: string)
    requires a != b
    ensures k in a.Keys + b.Keys && Get(a, k) != Get(b, k)
  {
    if forall k <- a.Keys + b.Keys :: Get(a, k) == Get(b, k) {
      SameMembers(a, b);
    }
    k :| k in a.Keys + b.Keys && Get(a, k) != Get(b, k);
  }

  lemma SameMembers(a: map<string, Json>, b: map<string, Json>)
    requires forall k <- a.Keys + b.Keys :: Get(a, k) == Get(b, k)
    ensures a == b
  {
    assert a.Keys == b.Keys by {
      assert forall k <- a.Keys :: Get(b, k).Some?;
      assert forall k <- b.Keys :: Get(a, k).Some?;
    }
    assert forall k <- a.Keys :: Some(a[k]) == Get(a, k) == Get(b, k) == Some(b[k]);
  }

  lemma DifferentItem(a: seq<Json>, b: seq<Json>) returns (i: nat)
    requires a != b
    ensures (i < |a| || i < |b|) && At(a, i) != At(b, i)
  {
    i := 0;
    while i < |a| && i < |b| && a[i] == b[i]
      invariant i <= |a| && i <= |b| && a[..i] == b[..i]
    {
      i := i + 1;
    }
    assert a[..|a|] == a && b[..|b|] == b;
  }

  lemma IndexOf(keys: seq<string>, k: string) returns (i: nat)
    requires k in keys
    ensures i < |keys| && keys[i] == k
  {
    i :| i < |keys| && keys[i] == k;
  }

  /** Main result: an unfiltered report that was not truncated is empty exactly for equal documents. */
  lemma EmptyExactlyWhenEqual(before: Json, after: Json)
    requires !Compare(before, after, []).truncated
    ensures Compare(before, after, []).changes == [] <==> before == after
  {
    BoundedRefinesUnbounded(before, after, []);
    if before == after {
      EqualHasNoDiff(before, "");
    } else {
      DifferentHasDiff(Some(before), Some(after), "");
    }
  }

  // ----- Symmetry -----

  function Reverse(c: Change): Change {
    var kind := match c.kind case Added => Removed case Removed => Added case Changed => Changed;
    Change(c.pointer, kind, c.after, c.before)
  }

  function ReverseAll(changes: seq<Change>): (r: seq<Change>)
    ensures |r| == |changes|
  {
    if changes == [] then [] else [Reverse(changes[0])] + ReverseAll(changes[1..])
  }

  function ReverseStep(step: Step): Step {
    step.(change := if step.change.Some? then Some(Reverse(step.change.value)) else None)
  }

  function ReverseSteps(steps: seq<Step>): seq<Step> {
    if steps == [] then [] else [ReverseStep(steps[0])] + ReverseSteps(steps[1..])
  }

  function ReverseChildren(children: seq<Child>): (r: seq<Child>)
    ensures |r| == |children|
    ensures forall i | 0 <= i < |r| :: r[i] == Child(children[i].token, children[i].after, children[i].before)
  {
    seq(|children|, i requires 0 <= i < |children| =>
      Child(children[i].token, children[i].after, children[i].before))
  }

  lemma {:induction false} ReverseStepsConcat(first: seq<Step>, second: seq<Step>)
    ensures ReverseSteps(first + second) == ReverseSteps(first) + ReverseSteps(second)
  {
    if first == [] {
      assert first + second == second;
    } else {
      assert (first + second)[1..] == first[1..] + second;
      ReverseStepsConcat(first[1..], second);
    }
  }

  lemma {:induction false} ReverseAllConcat(first: seq<Change>, second: seq<Change>)
    ensures ReverseAll(first + second) == ReverseAll(first) + ReverseAll(second)
  {
    if first == [] {
      assert first + second == second;
    } else {
      assert (first + second)[1..] == first[1..] + second;
      ReverseAllConcat(first[1..], second);
    }
  }

  lemma ChildrenReversed(before: Option<Json>, after: Option<Json>)
    ensures Children(after, before).Some? <==> Children(before, after).Some?
    ensures Children(before, after).Some?
        ==> Children(after, before).value == ReverseChildren(Children(before, after).value)
  {
    if before.Some? && after.Some? && before.value.Obj? && after.value.Obj? {
      assert before.value.members.Keys + after.value.members.Keys
          == after.value.members.Keys + before.value.members.Keys;
    }
  }

  lemma {:induction false} StepsReversed(
    before: Option<Json>, after: Option<Json>, pointer: string, depth: nat, ignored: seq<string>)
    ensures Steps(after, before, pointer, depth, ignored) == ReverseSteps(Steps(before, after, pointer, depth, ignored))
    decreases Size(before, after), 0
  {
    if pointer !in ignored {
      ChildrenReversed(before, after);
      match Children(before, after)
      case None =>
      case Some(children) =>
        StepsAllReversed(children, pointer, depth + 1, ignored);
        ReverseStepsConcat([Step(depth, false, None)], StepsAll(children, pointer, depth + 1, ignored));
    }
  }

  lemma {:induction false} StepsAllReversed(children: seq<Child>, pointer: string, depth: nat, ignored: seq<string>)
    ensures StepsAll(ReverseChildren(children), pointer, depth, ignored)
         == ReverseSteps(StepsAll(children, pointer, depth, ignored))
    decreases SizeOfAll(children), |children|
  {
    if children != [] {
      var c := children[0];
      StepsReversed(c.before, c.after, pointer + "/" + c.token, depth, ignored);
      StepsAllReversed(children[1..], pointer, depth, ignored);
      assert ReverseChildren(children)[1..] == ReverseChildren(children[1..]);
      ReverseStepsConcat(Steps(c.before, c.after, pointer + "/" + c.token, depth, ignored),
                         StepsAll(children[1..], pointer, depth, ignored));
    }
  }

  lemma {:induction false} RunReversed(st: Progress, steps: seq<Step>)
    ensures Run(st.(changes := ReverseAll(st.changes)), ReverseSteps(steps))
         == var r := Run(st, steps); r.(changes := ReverseAll(r.changes))
    decreases |steps|
  {
    if !st.truncated && steps != [] {
      AdvanceReversed(st, steps[0]);
      assert ReverseSteps(steps)[0] == ReverseStep(steps[0]) && ReverseSteps(steps)[1..] == ReverseSteps(steps[1..]);
      hide Advance, ReverseAll, ReverseStep, ReverseSteps;
      RunReversed(Advance(st, steps[0]), steps[1..]);
    }
  }

  lemma AdvanceReversed(st: Progress, step: Step)
    ensures Advance(st.(changes := ReverseAll(st.changes)), ReverseStep(step))
         == var r := Advance(st, step); r.(changes := ReverseAll(r.changes))
  {
    ReverseAllConcat(st.changes, Report(step.change));
    ReverseAllLength(st.changes);
    assert ReverseAll(Report(step.change)) == Report(ReverseStep(step).change);
  }

  lemma {:induction false} ReverseAllLength(changes: seq<Change>)
    ensures |ReverseAll(changes)| == |changes|
  {
    if changes != [] {
      ReverseAllLength(changes[1..]);
    }
  }

  /**
   * Main result: swapping the documents reverses each change in place; pointers, their order, all
   * counters and the truncation flag are the same, under every exclusion and even when limits are hit.
   */
  lemma SwappingReverses(before: Json, after: Json, ignored: seq<string>)
    ensures var r := Compare(before, after, ignored);
      Compare(after, before, ignored) == r.(changes := ReverseAll(r.changes))
  {
    StepsReversed(Some(before), Some(after), "", 0, ignored);
    RunReversed(EMPTY, Steps(Some(before), Some(after), "", 0, ignored));
  }
}
