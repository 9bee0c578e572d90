/** What the tab operations keep, over every sequence of them. */
module TabsTheorems {
  import opened Wrappers
  import opened RequestModel
  import opened Tabs

  // ----- The active index -----

  predicate InRange(s: App) {
    s.active < |s.tabs| || (s.tabs == [] && s.active == 0)
  }

  datatype Op =
    | NewOp(id: nat)
    | SwitchOp(index: nat)
    | CloseOp(index: nat, id: nat)
    | CloseOthersOp
    | MoveOp(direction: int)
    | DiscardOp(id: nat)
    | SelectOp(path: string, request: Request)
    | EditOp(request: Request, edited: Request)

  /** The user changes the working copy; its identifier is not editable. */
  function Edit(s: App, request: Request, edited: Request): App {
    s.(request := request.(id := s.request.id), edited := edited.(id := s.edited.id), dirty := true)
  }

  function Apply(w: World, s: App, op: Op): App {
    match op
    case NewOp(id) => New(w, s, id)
    case SwitchOp(index) => Switch(w, s, index)
    case CloseOp(index, id) => Close(w, s, index, id)
    case CloseOthersOp => CloseOthers(s)
    case MoveOp(direction) => Move(s, direction)
    case DiscardOp(id) => Discard(w, s, id)
    case SelectOp(path, request) => Select(w, s, path, request)
    case EditOp(request, edited) => Edit(s, request, edited)
  }

  lemma StaysInRange(w: World, s: App, op: Op)
    requires InRange(s)
    ensures InRange(Apply(w, s, op))
  {
    hide WithoutRecovered, RecoveredCount, SyncedTab, CurrentTab, Show, Select, Discard;
    match op {
      case SwitchOp(index) => ShowingKeepsTabs(w, Sync(w, s), index);
      case CloseOp(index, id) =>
        if index < |s.tabs| && |s.tabs| > 1 {
          var active := if index < s.active then s.active - 1 else Min(s.active, |s.tabs| - 2);
          ShowingKeepsTabs(w, s.(tabs := Remove(s.tabs, index), active := active), active);
        }
      case DiscardOp(id) => DiscardStaysInRange(w, s, id);
      case SelectOp(path, request) => SelectStaysInRange(w, s, path, request);
      case _ =>
    }
  }

  lemma DiscardStaysInRange(w: World, s: App, id: nat)
    requires InRange(s)
    ensures InRange(Discard(w, s, id))
  {
    hide WithoutRecovered, RecoveredCount;
  }

  lemma SelectStaysInRange(w: World, s: App, path: string, request: Request)
    requires InRange(s)
    ensures InRange(Select(w, s, path, request))
  {
    hide SyncedTab;
  }

  lemma ShowingKeepsTabs(w: World, s: App, index: nat)
    ensures Show(w, s, index).tabs == s.tabs && (index < |s.tabs| ==> Show(w, s, index).active == index)
  {
  }

  // ----- The same tab stays active -----

  /** Closing another tab keeps the active tab active and shows it again. */
  lemma ClosingAnotherKeepsActive(w: World, s: App, index: nat, id: nat)
    requires s.active < |s.tabs| && index < |s.tabs| && index != s.active
    ensures var t := Close(w, s, index, id);
      t.active < |t.tabs| && t.tabs[t.active] == s.tabs[s.active]
      && (s.tabs[index].dirty ==> t == s)
      && (!s.tabs[index].dirty ==> t.tabs == Remove(s.tabs, index) && t.request == s.tabs[s.active].request
                                   && t.dirty == s.tabs[s.active].dirty)
  {
  }

  lemma ClosingOthersKeepsActive(s: App)
    requires s.active < |s.tabs|
    ensures var t := CloseOthers(s);
      t.active < |t.tabs| && t.tabs[t.active] == s.tabs[s.active]
      && (|t.tabs| == 1 <==> |s.tabs| == 1 || forall i | 0 <= i < |s.tabs| :: i == s.active || !s.tabs[i].dirty)
      && (|t.tabs| != 1 ==> t == s)
  {
  }

  /** Moving keeps the active tab active and only exchanges two tabs; moving back undoes it. */
  lemma MovingKeepsActive(s: App, direction: int)
    requires s.active < |s.tabs|
    ensures var t := Move(s, direction);
      t.active < |t.tabs| && t.tabs[t.active] == s.tabs[s.active]
      && multiset(t.tabs) == multiset(s.tabs)
      && (0 <= s.active + direction < |s.tabs| ==> t.active == s.active + direction && Move(t, -direction) == s)
  {
    hide Move, Exchanged;
    var target := s.active + direction;
    Moved(s, direction);
    if 0 <= target < |s.tabs| {
      ExchangedOnce(s, target);
      Moved(Exchanged(s, target), -direction);
    }
  }

  function Exchanged(s: App, target: nat): App
    requires s.active < |s.tabs| && target < |s.tabs|
  {
    s.(tabs := s.tabs[s.active := s.tabs[target]][target := s.tabs[s.active]], active := target)
  }

  lemma ExchangedOnce(s: App, target: nat)
    requires s.active < |s.tabs| && target < |s.tabs|
    ensures var t := Exchanged(s, target);
      t.active == target < |t.tabs| == |s.tabs| && t.tabs[target] == s.tabs[s.active]
      && multiset(t.tabs) == multiset(s.tabs) && Exchanged(t, s.active) == s
  {
    Swapped(s.tabs, s.active, target);
    SwappedBack(s.tabs, s.active, target);
  }

  lemma Moved(s: App, direction: int)
    requires s.active < |s.tabs|
    ensures Move(s, direction) == if 0 <= s.active + direction < |s.tabs| then Exchanged(s, s.active + direction) else s
  {
  }

  lemma SwappedBack(tabs: seq<Tab>, i: nat, j: nat)
    requires i < |tabs| && j < |tabs|
    ensures var swapped := tabs[i := tabs[j]][j := tabs[i]]; swapped[j := swapped[i]][i := swapped[j]] == tabs
  {
  }

  lemma Swapped(tabs: seq<Tab>, i: nat, j: nat)
    requires i < |tabs| && j < |tabs|
    ensures multiset(tabs[i := tabs[j]][j := tabs[i]]) == multiset(tabs)
  {
  }

  // ----- Discarding recovered tabs -----

  lemma {:induction false} KeptConcat(s: seq<Tab>, t: seq<Tab>)
    ensures WithoutRecovered(s + t) == WithoutRecovered(s) + WithoutRecovered(t)
  {
    if s == [] {
      assert s + t == t;
    } else {
      assert (s + t)[1..] == s[1..] + t;
      KeptConcat(s[1..], t);
    }
  }

  lemma {:induction false} KeptAndRecovered(tabs: seq<Tab>)
    ensures |WithoutRecovered(tabs)| + RecoveredCount(tabs) == |tabs|
  {
    if tabs != [] {
      KeptAndRecovered(tabs[1..]);
    }
  }

  /** A tab that is not recovered is found, after the filter, at its rank among those. */
  lemma KeptAtRank(tabs: seq<Tab>, i: nat)
    requires i < |tabs| && !tabs[i].recovered
    ensures var rank := |WithoutRecovered(tabs[..i])|;
      rank < |WithoutRecovered(tabs)| && WithoutRecovered(tabs)[rank] == tabs[i]
  {
    assert tabs == tabs[..i] + ([tabs[i]] + tabs[i + 1..]) && ([tabs[i]] + tabs[i + 1..])[1..] == tabs[i + 1..];
    KeptConcat(tabs[..i], [tabs[i]] + tabs[i + 1..]);
  }

  /**
   * Main result: discarding removes exactly the recovered tabs; a surviving active tab stays active, and
   * otherwise the tab at the active tab's rank among the survivors (or the last one) becomes active.
   */
  lemma DiscardKeepsActiveSurvivor(w: World, s: App, id: nat)
    requires s.active < |s.tabs|
    ensures var t := Discard(w, s, id); var kept := WithoutRecovered(s.tabs);
      var rank := |WithoutRecovered(s.tabs[..s.active])|;
      if kept == [] then |t.tabs| == 1 && t.active == 0 && t.request.id == id && t.dirty
      else
        t.tabs == kept && t.active == Min(rank, |kept| - 1) && t.request == kept[t.active].request
        && (!s.tabs[s.active].recovered ==> t.active == rank && t.tabs[t.active] == s.tabs[s.active])
  {
    assert Min(s.active, |s.tabs|) == s.active;
    KeptAndRecovered(s.tabs[..s.active]);
    if !s.tabs[s.active].recovered {
      KeptAtRank(s.tabs, s.active);
    }
  }

  // ----- Unsaved work is never dropped -----

  /** The tabs whose changes exist nowhere else. */
  function Unsaved(tabs: seq<Tab>): multiset<Tab> {
    if tabs == [] then multiset{}
    else (if IsUnsaved(tabs[0]) then multiset{tabs[0]} else multiset{}) + Unsaved(tabs[1..])
  }

  predicate IsUnsaved(tab: Tab) {
    tab.dirty && !tab.recovered
  }

  lemma {:induction false} UnsavedConcat(s: seq<Tab>, t: seq<Tab>)
    ensures Unsaved(s + t) == Unsaved(s) + Unsaved(t)
  {
    if s == [] {
      assert s + t == t;
    } else {
      assert (s + t)[1..] == s[1..] + t;
      UnsavedConcat(s[1..], t);
    }
  }

  lemma UnsavedAround(tabs: seq<Tab>, i: nat)
    requires i < |tabs|
    ensures Unsaved(tabs) == Unsaved(tabs[..i]) + Unsaved([tabs[i]]) + Unsaved(tabs[i + 1..])
  {
    hide *;
    assert tabs == tabs[..i] + [tabs[i]] + tabs[i + 1..];
    UnsavedConcat(tabs[..i] + [tabs[i]], tabs[i + 1..]);
    UnsavedConcat(tabs[..i], [tabs[i]]);
  }

  lemma UnsavedOfOne(tab: Tab)
    ensures Unsaved([tab]) == if IsUnsaved(tab) then multiset{tab} else multiset{}
  {
    assert [tab][1..] == [];
  }

  lemma {:induction false} UnsavedOfKept(tabs: seq<Tab>)
    ensures Unsaved(WithoutRecovered(tabs)) == Unsaved(tabs)
  {
    if tabs != [] {
      UnsavedOfKept(tabs[1..]);
      UnsavedConcat(if tabs[0].recovered then [] else [tabs[0]], WithoutRecovered(tabs[1..]));
      UnsavedOfOne(tabs[0]);
    }
  }

  lemma UnsavedOfRemoved(tabs: seq<Tab>, i: nat)
    requires i < |tabs| && !tabs[i].dirty
    ensures Unsaved(Remove(tabs, i)) == Unsaved(tabs)
  {
    UnsavedAround(tabs, i);
    UnsavedOfOne(tabs[i]);
    UnsavedConcat(tabs[..i], tabs[i + 1..]);
  }

  lemma {:induction false} UnsavedOfClean(tabs: seq<Tab>)
    requires forall i | 0 <= i < |tabs| :: !tabs[i].dirty
    ensures Unsaved(tabs) == multiset{}
  {
    if tabs != [] {
      UnsavedOfClean(tabs[1..]);
    }
  }

  lemma UnsavedAroundTwo(tabs: seq<Tab>, i: nat, j: nat)
    requires i < j < |tabs|
    ensures Unsaved(tabs)
         == Unsaved(tabs[..i]) + Unsaved([tabs[i]]) + Unsaved(tabs[i + 1..j]) + Unsaved([tabs[j]])
            + Unsaved(tabs[j + 1..])
  {
    UnsavedAround(tabs, j);
    UnsavedAround(tabs[..j], i);
    assert tabs[..j][..i] == tabs[..i] && tabs[..j][i + 1..] == tabs[i + 1..j];
  }

  lemma UnsavedOfMoved(tabs: seq<Tab>, i: nat, j: nat)
    requires i < j < |tabs|
    ensures Unsaved(tabs[i := tabs[j]][j := tabs[i]]) == Unsaved(tabs)
  {
    hide Unsaved;
    var moved := tabs[i := tabs[j]][j := tabs[i]];
    UnsavedAroundTwo(tabs, i, j);
    UnsavedAroundTwo(moved, i, j);
    assert tabs[..i] == moved[..i] && tabs[i + 1..j] == moved[i + 1..j] && tabs[j + 1..] == moved[j + 1..];
  }

  lemma UnsavedOfMove(s: App, direction: int)
    requires s.active < |s.tabs|
    ensures Unsaved(Move(s, direction).tabs) == Unsaved(s.tabs)
  {
    hide Unsaved;
    var target := s.active + direction;
    if 0 <= target < |s.tabs| {
      if target < s.active {
        UnsavedOfMoved(s.tabs, target, s.active);
        assert s.tabs[s.active := s.tabs[target]][target := s.tabs[s.active]]
            == s.tabs[target := s.tabs[s.active]][s.active := s.tabs[target]];
      } else if s.active < target {
        UnsavedOfMoved(s.tabs, s.active, target);
      } else {
        assert s.tabs[target := s.tabs[target]] == s.tabs;
      }
    }
  }

  lemma UnsavedOfCloseOthers(s: App)
    requires s.active < |s.tabs|
    ensures Unsaved(CloseOthers(s).tabs) == Unsaved(s.tabs)
  {
    hide Unsaved;
    if CloseOthers(s) != s {
      UnsavedAround(s.tabs, s.active);
      UnsavedOfClean(s.tabs[..s.active]);
      UnsavedOfClean(s.tabs[s.active + 1..]);
    }
  }

  /** The working copy is what its tab holds. */
  predicate Synced(w: World, s: App) {
    Sync(w, s).tabs == s.tabs
  }

  lemma ResettingKeepsTabs(w: World, s: App, id: nat)
    ensures ResetNew(w, s, id).tabs == s.tabs
  {
  }

  lemma UnsavedOfClose(w: World, s: App, index: nat, id: nat)
    requires InRange(s)
    ensures Unsaved(s.tabs) <= Unsaved(Close(w, s, index, id).tabs)
  {
    hide Unsaved, Show, ResetNew;
    if index < |s.tabs| && !s.tabs[index].dirty {
      UnsavedOfRemoved(s.tabs, index);
      UnsavedOfClean([]);
      if |s.tabs| > 1 {
        ClosedTabs(w, s, index, id);
      }
    }
  }

  lemma ClosedTabs(w: World, s: App, index: nat, id: nat)
    requires InRange(s) && index < |s.tabs| && !s.tabs[index].dirty && |s.tabs| > 1
    ensures Close(w, s, index, id).tabs == Remove(s.tabs, index)
  {
    hide ResetNew;
  }

  lemma UnsavedOfDiscard(w: World, s: App, id: nat)
    requires InRange(s)
    ensures Unsaved(s.tabs) <= Unsaved(Discard(w, s, id).tabs)
  {
    hide Unsaved, Show, ResetNew, WithoutRecovered, RecoveredCount;
    UnsavedOfKept(s.tabs);
    UnsavedOfClean([]);
    var kept := WithoutRecovered(s.tabs);
    if kept != [] {
      DiscardedTabs(w, s, id);
    }
  }

  lemma DiscardedTabs(w: World, s: App, id: nat)
    requires WithoutRecovered(s.tabs) != []
    ensures Discard(w, s, id).tabs == WithoutRecovered(s.tabs)
  {
    hide ResetNew, WithoutRecovered, RecoveredCount;
  }

  lemma UnsavedOfSelect(w: World, s: App, path: string, request: Request)
    requires Synced(w, s)
    ensures Unsaved(s.tabs) <= Unsaved(Select(w, s, path, request).tabs)
  {
    hide Unsaved, Show, Sync, PathAt;
    var synced := Sync(w, s);
    var added := Tab(synced.selectedCollection, Some(path), request, false, false);
    var index := PathAt(synced.tabs, path);
    UnsavedConcat(s.tabs, [added]);
    SyncedTabs(w, s);
    ShowingKeepsTabs(w, synced, index);
    ShowingKeepsTabs(w, synced.(tabs := synced.tabs + [added]), |synced.tabs|);
  }

  lemma SyncedTabs(w: World, s: App)
    requires Synced(w, s)
    ensures Sync(w, s).tabs == s.tabs
  {
  }

  /** Main result: no operation on a synced state drops or changes a tab with unsaved work. */
  lemma KeepsUnsaved(w: World, s: App, op: Op)
    requires InRange(s) && Synced(w, s)
    ensures Unsaved(s.tabs) <= Unsaved(Apply(w, s, op).tabs)
  {
    hide Unsaved, Show, ResetNew, Sync, Close, Discard, Select, CloseOthers, Move;
    match op {
      case NewOp(id) =>
        var reset := ResetNew(w, Sync(w, s), id);
        SyncedTabs(w, s);
        ResettingKeepsTabs(w, Sync(w, s), id);
        UnsavedConcat(s.tabs, [CurrentTab(reset)]);
      case SwitchOp(index) =>
        SyncedTabs(w, s);
        ShowingKeepsTabs(w, Sync(w, s), index);
      case CloseOp(index, id) => UnsavedOfClose(w, s, index, id);
      case CloseOthersOp =>
        if s.tabs != [] {
          UnsavedOfCloseOthers(s);
        } else {
          NothingToDo(s, 0);
        }
      case MoveOp(direction) =>
        if s.tabs != [] {
          UnsavedOfMove(s, direction);
        } else {
          NothingToDo(s, direction);
        }
      case DiscardOp(id) => UnsavedOfDiscard(w, s, id);
      case SelectOp(path, request) => UnsavedOfSelect(w, s, path, request);
      case EditOp(_, _) =>
    }
  }

  lemma NothingToDo(s: App, direction: int)
    requires s.tabs == []
    ensures CloseOthers(s) == s && Move(s, direction) == s
  {
  }

  /**
   * A run of the application with at most one operation in a frame: between two of them the end of a frame
   * writes the working copy back.
   */
  function Frames(w: World, s: App, ops: seq<Op>): App
    decreases |ops|
  {
    if ops == [] then Sync(w, s) else Frames(w, Apply(w, Sync(w, s), ops[0]), ops[1..])
  }

  lemma SyncIsIdempotent(w: World, s: App)
    ensures Synced(w, Sync(w, s))
  {
    if s.active < |s.tabs| {
      var tab := SyncedTab(w, s);
      assert SyncedTab(w, Sync(w, s)) == tab;
      assert s.tabs[s.active := tab][s.active := tab] == s.tabs[s.active := tab];
    }
  }

  /** The working copy is of the active tab's request, and no less unsaved. */
  predicate SameDraft(s: App) {
    s.active < |s.tabs| ==>
      && s.edited.id == s.tabs[s.active].request.id && s.recovered == s.tabs[s.active].recovered
      && (s.tabs[s.active].dirty ==> s.dirty)
  }

  lemma SyncKeepsSameDraft(w: World, s: App)
    requires SameDraft(s)
    ensures SameDraft(Sync(w, s))
  {
  }

  lemma ShownIsSameDraft(w: World, s: App, index: nat)
    requires w.Valid() && index < |s.tabs|
    ensures SameDraft(Show(w, s, index))
  {
  }

  lemma OperationsKeepSameDraft(w: World, s: App, op: Op)
    requires w.Valid() && InRange(s) && SameDraft(s)
    ensures SameDraft(Apply(w, s, op))
  {
    hide Show;
    match op {
      case NewOp(id) =>
      case SwitchOp(index) =>
        if index < |s.tabs| && index != s.active {
          ShownIsSameDraft(w, Sync(w, s), index);
        }
      case CloseOp(index, id) =>
        if index < |s.tabs| && !s.tabs[index].dirty && |s.tabs| > 1 {
          ClosedIsShown(w, s, index, id);
        }
      case CloseOthersOp =>
      case MoveOp(direction) =>
      case DiscardOp(id) => DiscardedIsShown(w, s, id);
      case SelectOp(path, request) =>
        var synced := Sync(w, s);
        var index := PathAt(synced.tabs, path);
        if index < |synced.tabs| {
          ShownIsSameDraft(w, synced, index);
        } else {
          var opened_ := Tab(synced.selectedCollection, Some(path), request, false, false);
          var more := synced.(tabs := synced.tabs + [opened_]);
          ShownIsSameDraft(w, more, |synced.tabs|);
        }
      case EditOp(_, _) =>
    }
  }

  lemma ClosedIsShown(w: World, s: App, index: nat, id: nat)
    requires w.Valid() && InRange(s) && index < |s.tabs| && !s.tabs[index].dirty && |s.tabs| > 1
    ensures SameDraft(Close(w, s, index, id))
  {
    hide Show;
    var rest := s.(tabs := Remove(s.tabs, index));
    var active :=
      if index < s.active then s.active - 1 else if s.active >= |rest.tabs| then |rest.tabs| - 1 else s.active;
    ShownIsSameDraft(w, rest.(active := active), active);
  }

  lemma DiscardedIsShown(w: World, s: App, id: nat)
    requires w.Valid() && InRange(s)
    ensures SameDraft(Discard(w, s, id))
  {
    hide Show;
    var kept := s.(tabs := WithoutRecovered(s.tabs), recovered := false);
    if kept.tabs != [] {
      var before := RecoveredCount(s.tabs[..Min(s.active, |s.tabs|)]);
      var active := Min(if s.active < before then 0 else s.active - before, |kept.tabs| - 1);
      ShownIsSameDraft(w, kept.(active := active), active);
    }
  }

  // ----- What is seen of unsaved tabs -----

  /** A part of each unsaved tab; a tab of which nothing is to be seen is left out. */
  function Seen<T>(tabs: seq<Tab>, view: Tab -> Option<T>): multiset<T> {
    if tabs == [] then multiset{}
    else
      (if IsUnsaved(tabs[0]) && view(tabs[0]).Some? then multiset{view(tabs[0]).value} else multiset{})
      + Seen(tabs[1..], view)
  }

  lemma {:induction false} SeenConcat<T>(s: seq<Tab>, t: seq<Tab>, view: Tab -> Option<T>)
    ensures Seen(s + t, view) == Seen(s, view) + Seen(t, view)
  {
    if s == [] {
      assert s + t == t;
    } else {
      assert (s + t)[1..] == s[1..] + t;
      SeenConcat(s[1..], t, view);
    }
  }

  lemma SeenAround<T>(tabs: seq<Tab>, i: nat, view: Tab -> Option<T>)
    requires i < |tabs|
    ensures Seen(tabs, view) == Seen(tabs[..i], view) + Seen([tabs[i]], view) + Seen(tabs[i + 1..], view)
  {
    hide *;
    assert tabs == tabs[..i] + [tabs[i]] + tabs[i + 1..];
    SeenConcat(tabs[..i] + [tabs[i]], tabs[i + 1..], view);
    SeenConcat(tabs[..i], [tabs[i]], view);
  }

  lemma SeenOfOne<T>(tab: Tab, view: Tab -> Option<T>)
    ensures Seen([tab], view)
         == if IsUnsaved(tab) && view(tab).Some? then multiset{view(tab).value} else multiset{}
  {
    assert [tab][1..] == [];
  }

  /** Where unsaved tabs are kept, what is seen of them is kept. */
  lemma {:induction false} KeptIsSeen<T>(a: seq<Tab>, b: seq<Tab>, view: Tab -> Option<T>)
    requires Unsaved(a) <= Unsaved(b)
    ensures Seen(a, view) <= Seen(b, view)
  {
    if a != [] {
      var tab := a[0];
      if IsUnsaved(tab) {
        assert tab in Unsaved(b);
        var j := UnsavedIsThere(b, tab);
        UnsavedAround(b, j);
        UnsavedOfOne(tab);
        UnsavedConcat(b[..j], b[j + 1..]);
        CancelOne(tab, Unsaved(a[1..]), Unsaved(b[..j]), Unsaved(b[j + 1..]));
        KeptIsSeen(a[1..], b[..j] + b[j + 1..], view);
        SeenConcat(b[..j], b[j + 1..], view);
        SeenAround(b, j, view);
        SeenOfOne(tab, view);
      } else {
        KeptIsSeen(a[1..], b, view);
      }
    }
  }

  lemma CancelOne(tab: Tab, a: multiset<Tab>, b: multiset<Tab>, c: multiset<Tab>)
    requires multiset{tab} + a <= b + multiset{tab} + c
    ensures a <= b + c
  {
    forall t | t in a ensures a[t] <= (b + c)[t] {
      assert (multiset{tab} + a)[t] <= (b + multiset{tab} + c)[t];
    }
  }

  lemma {:induction false} UnsavedIsThere(tabs: seq<Tab>, tab: Tab) returns (j: nat)
    requires tab in Unsaved(tabs)
    ensures j < |tabs| && tabs[j] == tab
  {
    if tabs[0] == tab {
      j := 0;
    } else {
      j := UnsavedIsThere(tabs[1..], tab);
      j := j + 1;
    }
  }

  // ----- Runs -----

  /** Writing the working copy back does not change what is seen of the active tab. */
  predicate SyncIsUnseen<T(==)>(w: World, s: App, view: Tab -> Option<T>) {
    s.active < |s.tabs| && IsUnsaved(s.tabs[s.active]) && view(s.tabs[s.active]).Some? ==>
      IsUnsaved(SyncedTab(w, s)) && view(SyncedTab(w, s)) == view(s.tabs[s.active])
  }

  lemma SyncKeepsSeen<T>(w: World, s: App, view: Tab -> Option<T>)
    requires SyncIsUnseen(w, s, view)
    ensures Seen(s.tabs, view) <= Seen(Sync(w, s).tabs, view)
  {
    if s.active < |s.tabs| {
      hide Seen, SyncedTab, IsUnsaved;
      var after := Sync(w, s).tabs;
      assert after == s.tabs[s.active := SyncedTab(w, s)];
      hide Sync;
      SeenAround(s.tabs, s.active, view);
      SeenAround(after, s.active, view);
      assert after[..s.active] == s.tabs[..s.active] && after[s.active + 1..] == s.tabs[s.active + 1..];
      SeenOfOne(s.tabs[s.active], view);
      SeenOfOne(after[s.active], view);
      MoreBetween(Seen(s.tabs[..s.active], view), Seen([s.tabs[s.active]], view), Seen([after[s.active]], view),
                  Seen(s.tabs[s.active + 1..], view));
    }
  }

  lemma MoreBetween<T>(before: multiset<T>, less: multiset<T>, more: multiset<T>, after: multiset<T>)
    requires less <= more
    ensures before + less + after <= before + more + after
  {
  }

  /** The write-back at the end of a frame, and the operation in the next one. */
  lemma FrameKeepsSeen<T>(w: World, s: App, op: Op, view: Tab -> Option<T>)
    requires InRange(s) && SyncIsUnseen(w, s, view)
    ensures InRange(Apply(w, Sync(w, s), op)) && Seen(s.tabs, view) <= Seen(Apply(w, Sync(w, s), op).tabs, view)
  {
    hide Seen, Apply, Unsaved, Sync, Synced, SyncIsUnseen;
    var synced := Sync(w, s);
    SyncKeepsSeen(w, s, view);
    SyncStaysInRange(w, s);
    SyncIsIdempotent(w, s);
    StaysInRange(w, synced, op);
    KeepsUnsaved(w, synced, op);
    KeptIsSeen(synced.tabs, Apply(w, synced, op).tabs, view);
  }

  lemma SyncStaysInRange(w: World, s: App)
    requires InRange(s)
    ensures InRange(Sync(w, s))
  {
  }

  function Id(tab: Tab): Option<nat> {
    Some(tab.request.id)
  }

  /**
   * Main result: over every sequence of operations and edits, with a write-back between any two, the
   * active index stays in range and no unsaved, not recovered tab is ever dropped.
   */
  lemma {:induction false} RunsKeepUnsaved(w: World, s: App, ops: seq<Op>)
    requires w.Valid() && InRange(s) && SameDraft(s)
    ensures InRange(Frames(w, s, ops)) && Seen(s.tabs, Id) <= Seen(Frames(w, s, ops).tabs, Id)
    decreases |ops|
  {
    hide Seen, Apply;
    SyncKeepsSeen(w, s, Id);
    SyncStaysInRange(w, s);
    if ops != [] {
      SyncKeepsSameDraft(w, s);
      OperationsKeepSameDraft(w, Sync(w, s), ops[0]);
      FrameKeepsSeen(w, s, ops[0], Id);
      RunsKeepUnsaved(w, Apply(w, Sync(w, s), ops[0]), ops[1..]);
    }
  }

  // ----- What unsaved tabs hold -----

  /** The requests that the user edits in a run. */
  function Touched(w: World, s: App, ops: seq<Op>): set<nat>
    decreases |ops|
  {
    if ops == [] then {}
    else
      (if ops[0].EditOp? then {Sync(w, s).edited.id} else {}) + Touched(w, Apply(w, Sync(w, s), ops[0]), ops[1..])
  }

  /** The working copy of a request that is not touched is what the editors make of the tab. */
  predicate SameContent(w: World, s: App, touched: set<nat>) {
    s.active < |s.tabs| && s.edited.id !in touched ==> s.edited == w.normalise(s.tabs[s.active].request)
  }

  /** The content up to what the editors make of it. */
  function Content(w: World, touched: set<nat>): Tab -> Option<Request> {
    (tab: Tab) => if tab.request.id in touched then None else Some(w.normalise(tab.request))
  }

  /** The exact content of the tabs that the editors leave as they are. */
  function ExactContent(w: World, touched: set<nat>): Tab -> Option<Request> {
    (tab: Tab) =>
      if tab.request.id in touched || w.normalise(tab.request) != tab.request then None else Some(tab.request)
  }

  lemma ContentIsUnseen(w: World, s: App, touched: set<nat>)
    requires w.Valid() && w.Stable() && SameDraft(s) && SameContent(w, s, touched)
    ensures SyncIsUnseen(w, s, Content(w, touched)) && SyncIsUnseen(w, s, ExactContent(w, touched))
    ensures SameContent(w, Sync(w, s), touched)
  {
  }

  lemma ShownIsSameContent(w: World, s: App, index: nat, touched: set<nat>)
    requires w.Valid() && index < |s.tabs|
    ensures SameContent(w, Show(w, s, index), touched)
  {
  }

  lemma ClosedIsSameContent(w: World, s: App, index: nat, id: nat, touched: set<nat>)
    requires w.Valid() && InRange(s) && index < |s.tabs| && !s.tabs[index].dirty && |s.tabs| > 1
    ensures SameContent(w, Close(w, s, index, id), touched)
  {
    hide Show, SameContent;
    var rest := s.(tabs := Remove(s.tabs, index));
    var active :=
      if index < s.active then s.active - 1 else if s.active >= |rest.tabs| then |rest.tabs| - 1 else s.active;
    ShownIsSameContent(w, rest.(active := active), active, touched);
  }

  lemma DiscardedIsSameContent(w: World, s: App, id: nat, touched: set<nat>)
    requires w.Valid() && InRange(s)
    ensures SameContent(w, Discard(w, s, id), touched)
  {
    hide Show, WithoutRecovered, RecoveredCount;
    var kept := s.(tabs := WithoutRecovered(s.tabs), recovered := false);
    if kept.tabs != [] {
      hide SameContent;
      var before := RecoveredCount(s.tabs[..Min(s.active, |s.tabs|)]);
      var active := Min(if s.active < before then 0 else s.active - before, |kept.tabs| - 1);
      ShownIsSameContent(w, kept.(active := active), active, touched);
    }
  }

  lemma SelectedIsSameContent(w: World, s: App, path: string, request: Request, touched: set<nat>)
    requires w.Valid() && Sync(w, s) == s
    ensures SameContent(w, Select(w, s, path, request), touched)
  {
    hide Show, SameContent, Sync;
    var index := PathAt(s.tabs, path);
    if index < |s.tabs| {
      ShownIsSameContent(w, s, index, touched);
    } else {
      var more := s.(tabs := s.tabs + [Tab(s.selectedCollection, Some(path), request, false, false)]);
      ShownIsSameContent(w, more, |s.tabs|, touched);
    }
  }

  lemma OperationsKeepSameContent(w: World, s: App, op: Op, touched: set<nat>)
    requires w.Valid() && InRange(s) && SameDraft(s) && SameContent(w, s, touched)
    requires Sync(w, s) == s || !(op.SwitchOp? || op.SelectOp? || op.NewOp?)
    requires op.EditOp? ==> s.edited.id in touched
    ensures SameContent(w, Apply(w, s, op), touched)
  {
    hide Show, Discard, Select;
    match op {
      case SwitchOp(index) =>
        if index < |s.tabs| && index != s.active {
          ShownIsSameContent(w, Sync(w, s), index, touched);
        }
      case CloseOp(index, id) =>
        if index < |s.tabs| && !s.tabs[index].dirty && |s.tabs| > 1 {
          ClosedIsSameContent(w, s, index, id, touched);
        }
      case DiscardOp(id) => DiscardedIsSameContent(w, s, id, touched);
      case SelectOp(path, request) => SelectedIsSameContent(w, s, path, request, touched);
      case _ =>
    }
  }

  lemma SyncTwice(w: World, s: App)
    ensures Sync(w, Sync(w, s)) == Sync(w, s)
  {
    SyncIsIdempotent(w, s);
  }

  /**
   * Main result: over every sequence of operations and edits, an unsaved tab that the user does not edit keeps
   * its request up to what the editors make of it, and exactly when they leave it as it is.
   */
  lemma RunsKeepContent(w: World, s: App, ops: seq<Op>)
    requires w.Valid() && w.Stable() && InRange(s) && SameDraft(s) && SameContent(w, s, Touched(w, s, ops))
    ensures var touched, last := Touched(w, s, ops), Frames(w, s, ops).tabs;
      && Seen(s.tabs, Content(w, touched)) <= Seen(last, Content(w, touched))
      && Seen(s.tabs, ExactContent(w, touched)) <= Seen(last, ExactContent(w, touched))
  {
    RunsKeepContentOf(w, s, ops, Touched(w, s, ops));
  }

  lemma {:induction false} RunsKeepContentOf(w: World, s: App, ops: seq<Op>, touched: set<nat>)
    requires w.Valid() && w.Stable() && InRange(s) && SameDraft(s) && SameContent(w, s, touched)
    requires Touched(w, s, ops) <= touched
    ensures var last := Frames(w, s, ops).tabs;
      && Seen(s.tabs, Content(w, touched)) <= Seen(last, Content(w, touched))
      && Seen(s.tabs, ExactContent(w, touched)) <= Seen(last, ExactContent(w, touched))
    decreases |ops|
  {
    hide Seen, Apply, Sync, SameContent, SameDraft, SyncIsUnseen, InRange, Content, ExactContent;
    ContentIsUnseen(w, s, touched);
    SyncKeepsSeen(w, s, Content(w, touched));
    SyncKeepsSeen(w, s, ExactContent(w, touched));
    SyncStaysInRange(w, s);
    if ops != [] {
      var synced := Sync(w, s);
      SyncKeepsSameDraft(w, s);
      SyncTwice(w, s);
      OperationsKeepSameDraft(w, synced, ops[0]);
      OperationsKeepSameContent(w, synced, ops[0], touched);
      FrameKeepsSeen(w, s, ops[0], Content(w, touched));
      FrameKeepsSeen(w, s, ops[0], ExactContent(w, touched));
      RunsKeepContentOf(w, Apply(w, synced, ops[0]), ops[1..], touched);
    }
  }

  // ----- Closing without the write-back -----

  /** The unsaved work in sight, the working copy counted instead of the tab behind it. */
  function Work(w: World, s: App): multiset<Request> {
    Seen(Sync(w, s).tabs, Content(w, {}))
  }

  /**
   * Before the frame's write-back, closing a clean tab can drop the working copy's changes: it keeps all work
   * exactly when the working copy has no changes to keep, or its tab is marked and holds them already.
   */
  lemma CloseKeepsWorkExactlyWhenMarked(w: World, s: App, index: nat, id: nat)
    requires w.Valid() && w.Stable() && s.active < |s.tabs| && index < |s.tabs| && !s.tabs[index].dirty
    requires s.edited.id == s.tabs[s.active].request.id && id != s.edited.id
    ensures var tab := s.tabs[s.active];
      Work(w, s) <= Work(w, Close(w, s, index, id))
      <==> (s.dirty && !s.recovered ==> IsUnsaved(tab) && w.normalise(tab.request) == w.normalise(s.edited))
  {
    WrittenIs(w, s);
    hide *;
    var view := Content(w, {});
    var tab, written := s.tabs[s.active], SyncedTab(w, s);
    var others := Others(s.tabs, s.active, view);
    WorkAround(w, s);
    OneSeen(w, written);
    var before, x := IsUnsaved(written), w.normalise(s.edited);
    if |s.tabs| == 1 {
      var request := OneNewTab(w, s, index, id);
      NoOthers(s.tabs, view);
      SameId(w, s.edited);
      Compare(others, before, x, true, request);
      AddsNothing(One(true, request));
    } else {
      ClosedWork(w, s, index, id);
      OthersAndOne(s.tabs, s.active, view);
      OneSeen(w, tab);
      Compare(others, before, x, IsUnsaved(tab), w.normalise(tab.request));
    }
  }

  function Others<T>(tabs: seq<Tab>, i: nat, view: Tab -> Option<T>): multiset<T>
    requires i < |tabs|
  {
    Seen(tabs[..i], view) + Seen(tabs[i + 1..], view)
  }

  lemma OthersAndOne<T>(tabs: seq<Tab>, i: nat, view: Tab -> Option<T>)
    requires i < |tabs|
    ensures Seen(tabs, view) == Others(tabs, i, view) + Seen([tabs[i]], view)
  {
    hide Seen;
    SeenAround(tabs, i, view);
  }

  lemma SameId(w: World, r: Request)
    requires w.Valid()
    ensures w.normalise(r).id == r.id
  {
  }

  function One(there: bool, r: Request): multiset<Request> {
    if there then multiset{r} else multiset{}
  }

  lemma OneSeen(w: World, tab: Tab)
    ensures Seen([tab], Content(w, {})) == One(IsUnsaved(tab), w.normalise(tab.request))
  {
    hide Seen;
    SeenOfOne(tab, Content(w, {}));
  }

  lemma NoOthers<T>(tabs: seq<Tab>, view: Tab -> Option<T>)
    requires |tabs| == 1
    ensures Others(tabs, 0, view) == multiset{}
  {
  }

  lemma Compare(others: multiset<Request>, before: bool, x: Request, after: bool, y: Request)
    ensures others + One(before, x) <= others + One(after, y) <==> (before ==> after && x == y)
  {
    if before && others + One(before, x) <= others + One(after, y) {
      assert (others + One(before, x))[x] <= (others + One(after, y))[x];
    }
  }

  lemma WrittenIs(w: World, s: App)
    requires s.active < |s.tabs|
    ensures InRange(s) && (IsUnsaved(SyncedTab(w, s)) <==> s.dirty && !s.recovered)
      && SyncedTab(w, s).request == s.edited
    ensures !s.tabs[s.active].dirty ==> !IsUnsaved(s.tabs[s.active])
  {
  }

  lemma ContentIs(w: World, tab: Tab)
    ensures Content(w, {})(tab) == Some(w.normalise(tab.request))
  {
  }

  lemma WorkAround(w: World, s: App)
    requires s.active < |s.tabs|
    ensures Work(w, s) == Others(s.tabs, s.active, Content(w, {})) + Seen([SyncedTab(w, s)], Content(w, {}))
  {
    hide Seen, Content;
    var synced := Sync(w, s).tabs;
    OthersAndOne(synced, s.active, Content(w, {}));
    assert synced[..s.active] == s.tabs[..s.active] && synced[s.active + 1..] == s.tabs[s.active + 1..];
  }

  lemma OneNewTab(w: World, s: App, index: nat, id: nat) returns (request: Request)
    requires w.Valid() && |s.tabs| == 1 && index == 0 && !s.tabs[0].dirty
    ensures request.id == id && Work(w, Close(w, s, index, id)) == One(true, request)
  {
    hide Seen, Content;
    var t := Close(w, s, index, id);
    assert t.tabs == [CurrentTab(t)] && t.active == 0;
    var tab := SyncedTab(w, t);
    assert Sync(w, t).tabs == [tab];
    SeenOfOne(tab, Content(w, {}));
    ContentIs(w, tab);
    request := w.normalise(tab.request);
  }

  /** A tab that was just shown adds no work when it is written back. */
  lemma ShownWork(w: World, s: App, index: nat)
    requires w.Valid() && w.Stable() && index < |s.tabs|
    ensures Work(w, Show(w, s, index)) == Seen(s.tabs, Content(w, {}))
  {
    hide Seen, Content, Others;
    var t, view := Show(w, s, index), Content(w, {});
    assert t.tabs == s.tabs && t.active == index;
    WorkAround(w, t);
    OthersAndOne(s.tabs, index, view);
    OneSeen(w, s.tabs[index]);
    OneSeen(w, SyncedTab(w, t));
  }

  lemma ClosedWork(w: World, s: App, index: nat, id: nat)
    requires w.Valid() && w.Stable() && InRange(s) && index < |s.tabs| && !s.tabs[index].dirty && |s.tabs| > 1
    ensures Work(w, Close(w, s, index, id)) == Seen(s.tabs, Content(w, {}))
  {
    hide Seen, Show, Content;
    var rest := s.(tabs := Remove(s.tabs, index));
    var active :=
      if index < s.active then s.active - 1 else if s.active >= |rest.tabs| then |rest.tabs| - 1 else s.active;
    ShownWork(w, rest.(active := active), active);
    RemovedIsUnseen(s.tabs, index, Content(w, {}));
  }

  lemma RemovedIsUnseen<T>(tabs: seq<Tab>, i: nat, view: Tab -> Option<T>)
    requires i < |tabs| && !tabs[i].dirty
    ensures Seen(Remove(tabs, i), view) == Seen(tabs, view)
  {
    hide Seen;
    SeenAround(tabs, i, view);
    SeenOfOne(tabs[i], view);
    SeenConcat(tabs[..i], tabs[i + 1..], view);
  }

  // ----- Discarding the recovery without the write-back -----

  lemma {:induction false} RecoveredIsUnseen<T>(tabs: seq<Tab>, view: Tab -> Option<T>)
    ensures Seen(WithoutRecovered(tabs), view) == Seen(tabs, view)
  {
    hide Seen;
    if tabs != [] {
      RecoveredIsUnseen(tabs[1..], view);
      assert tabs == [tabs[0]] + tabs[1..];
      SeenConcat([tabs[0]], tabs[1..], view);
      if tabs[0].recovered {
        SeenOfOne(tabs[0], view);
        AddsNothing(Seen(tabs[1..], view));
        assert [] + WithoutRecovered(tabs[1..]) == WithoutRecovered(tabs[1..]);
      } else {
        SeenConcat([tabs[0]], WithoutRecovered(tabs[1..]), view);
      }
    }
  }

  lemma AddsNothing<T>(m: multiset<T>)
    ensures multiset{} + m == m
  {
  }

  lemma OneNewTabLeft(w: World, s: App, id: nat) returns (request: Request)
    requires w.Valid() && WithoutRecovered(s.tabs) == []
    ensures request.id == id && Work(w, Discard(w, s, id)) == One(true, request)
  {
    hide Seen, Content, WithoutRecovered;
    var t := Discard(w, s, id);
    assert t.tabs == [CurrentTab(t)] && t.active == 0;
    var tab := SyncedTab(w, t);
    assert Sync(w, t).tabs == [tab];
    SeenOfOne(tab, Content(w, {}));
    ContentIs(w, tab);
    request := w.normalise(tab.request);
  }

  lemma NothingSeenBeside<T>(tabs: seq<Tab>, i: nat, view: Tab -> Option<T>)
    requires i < |tabs| && Seen(tabs, view) == multiset{}
    ensures Others(tabs, i, view) == multiset{}
  {
    hide Seen, Others;
    OthersAndOne(tabs, i, view);
    assert Others(tabs, i, view) <= Others(tabs, i, view) + Seen([tabs[i]], view);
  }

  lemma DiscardedWork(w: World, s: App, id: nat)
    requires w.Valid() && w.Stable() && WithoutRecovered(s.tabs) != []
    ensures Work(w, Discard(w, s, id)) == Seen(s.tabs, Content(w, {}))
  {
    hide Seen, Show, Content, WithoutRecovered, RecoveredCount, Work;
    var kept := s.(tabs := WithoutRecovered(s.tabs), recovered := false);
    var before := RecoveredCount(s.tabs[..Min(s.active, |s.tabs|)]);
    var active := Min(if s.active < before then 0 else s.active - before, |kept.tabs| - 1);
    ShownWork(w, kept.(active := active), active);
    RecoveredIsUnseen(s.tabs, Content(w, {}));
  }

  /**
   * Discarding the recovered drafts installs another tab, or the stored one, without saving the working copy, too:
   * before the write-back it keeps all work exactly under the condition for closing.
   */
  lemma DiscardKeepsWorkExactlyWhenMarked(w: World, s: App, id: nat)
    requires w.Valid() && w.Stable() && s.active < |s.tabs|
    requires s.edited.id == s.tabs[s.active].request.id && id != s.edited.id
    ensures var tab := s.tabs[s.active];
      Work(w, s) <= Work(w, Discard(w, s, id))
      <==> (s.dirty && !s.recovered ==> IsUnsaved(tab) && w.normalise(tab.request) == w.normalise(s.edited))
  {
    WrittenIs(w, s);
    hide *;
    var view := Content(w, {});
    var tab, written := s.tabs[s.active], SyncedTab(w, s);
    var others := Others(s.tabs, s.active, view);
    WorkAround(w, s);
    OneSeen(w, written);
    OneSeen(w, tab);
    OthersAndOne(s.tabs, s.active, view);
    var before, x := IsUnsaved(written), w.normalise(s.edited);
    if WithoutRecovered(s.tabs) == [] {
      var request := OneNewTabLeft(w, s, id);
      NothingUnsavedLeft(s.tabs, s.active, view);
      NothingSeenBeside(s.tabs, s.active, view);
      SameId(w, s.edited);
      Compare(others, before, x, true, request);
      AddsNothing(One(true, request));
    } else {
      DiscardedWork(w, s, id);
      Compare(others, before, x, IsUnsaved(tab), w.normalise(tab.request));
    }
  }

  lemma NothingUnsavedLeft<T>(tabs: seq<Tab>, i: nat, view: Tab -> Option<T>)
    requires i < |tabs| && WithoutRecovered(tabs) == []
    ensures Seen(tabs, view) == multiset{} && !IsUnsaved(tabs[i])
  {
    RecoveredIsUnseen(tabs, view);
    if !tabs[i].recovered {
      hide WithoutRecovered;
      KeptAtRank(tabs, i);
    }
  }

  /** The working copy of a lone marked draft was changed: closing is refused, but discarding loses the change. */
  lemma DiscardDropsAChange(w: World, tab: Tab, edited: Request, id: nat)
    requires w.Valid() && w.Stable() && IsUnsaved(tab) && edited.id == tab.request.id && id != edited.id
    requires w.normalise(edited) != w.normalise(tab.request)
    ensures var s := App([tab], 0, tab.collectionIndex, tab.path, edited, edited, true, false, {});
      InRange(s) && SameDraft(s) && Close(w, s, 0, id) == s && !(Work(w, s) <= Work(w, Discard(w, s, id)))
  {
    hide Work, Discard;
    var s := App([tab], 0, tab.collectionIndex, tab.path, edited, edited, true, false, {});
    DiscardKeepsWorkExactlyWhenMarked(w, s, id);
  }

  /** A clean tab whose working copy was just edited: closing it in the same frame loses the edit. */
  lemma CloseDropsAChange(w: World, tab: Tab, edited: Request, id: nat)
    requires w.Valid() && w.Stable() && !tab.dirty && edited.id == tab.request.id && id != edited.id
    ensures var s := App([tab], 0, tab.collectionIndex, tab.path, edited, edited, true, false, {});
      !(Work(w, s) <= Work(w, Close(w, s, 0, id)))
  {
    hide Work, Close;
    var s := App([tab], 0, tab.collectionIndex, tab.path, edited, edited, true, false, {});
    CloseKeepsWorkExactlyWhenMarked(w, s, 0, id);
  }

  // ----- The recovery round trip -----

  function DirtyTabs(tabs: seq<Tab>): seq<Tab> {
    if tabs == [] then [] else (if tabs[0].dirty then [tabs[0]] else []) + DirtyTabs(tabs[1..])
  }

  /**
   * Where the application that is started later lists a collection of the one that crashed: the restarted one looks
   * it up by its id, and takes its first collection when it has none of that id.
   */
  function NewIndex(before: World, now: World, index: nat): nat {
    if index >= |before.collections| then 0
    else
      var i := IndexOf(now.collections, before.collections[index]);
      if i < |now.collections| then i else 0
  }

  /** A tab as it comes back from the recovery file. */
  function AsRecovered(before: World, now: World, tab: Tab): Tab {
    Tab(NewIndex(before, now, tab.collectionIndex), None, tab.request, true, true)
  }

  function AllAsRecovered(before: World, now: World, tabs: seq<Tab>): (r: seq<Tab>)
    ensures |r| == |tabs| && forall i | 0 <= i < |r| :: r[i] == AsRecovered(before, now, tabs[i])
  {
    seq(|tabs|, i requires 0 <= i < |tabs| => AsRecovered(before, now, tabs[i]))
  }

  lemma {:induction false} IndexOfThere(ids: seq<string>, id: string)
    ensures IndexOf(ids, id) < |ids| <==> id in ids
  {
    if ids != [] && ids[0] != id {
      IndexOfThere(ids[1..], id);
    }
  }

  /**
   * The draft opens in the collection it was in, wherever that is listed now, in any order; only a collection that is
   * gone is replaced by the first one. Nothing changes when the collections are the same and their ids differ.
   */
  lemma CollectionComesBack(before: World, now: World, index: nat)
    requires index < |before.collections|
    ensures var id, back := before.collections[index], NewIndex(before, now, index);
      if id in now.collections then back < |now.collections| && now.collections[back] == id else back == 0
    ensures now == before && now.Valid() ==> NewIndex(before, now, index) == index
  {
    IndexOfThere(now.collections, before.collections[index]);
  }

  lemma FirstComesBack(before: World, now: World, draft: Draft, drafts: seq<Draft>, tab: Tab, tabs: seq<Tab>)
    ensures RecoveredTabs(now, [draft] + drafts) == [RecoveredTab(now, draft)] + RecoveredTabs(now, drafts)
    ensures AllAsRecovered(before, now, [tab] + tabs)
         == [AsRecovered(before, now, tab)] + AllAsRecovered(before, now, tabs)
  {
    hide RecoveredTab, AsRecovered;
  }

  lemma {:induction false} DraftsComeBack(before: World, now: World, tabs: seq<Tab>)
    requires DirtyDrafts(before, tabs).Ok?
    ensures RecoveredTabs(now, DirtyDrafts(before, tabs).value) == AllAsRecovered(before, now, DirtyTabs(tabs))
    decreases |tabs|
  {
    if tabs != [] {
      DraftsComeBack(before, now, tabs[1..]);
      if tabs[0].dirty {
        FirstComesBack(before, now, DraftOf(before, tabs[0]).value, DirtyDrafts(before, tabs[1..]).value, tabs[0],
                       DirtyTabs(tabs[1..]));
      }
    }
  }

  lemma {:induction false} DirtyRank(tabs: seq<Tab>, i: nat)
    requires i < |tabs| && tabs[i].dirty
    ensures var rank := DirtyCount(tabs[..i]); rank < |DirtyTabs(tabs)| && DirtyTabs(tabs)[rank] == tabs[i]
    decreases i
  {
    if i > 0 {
      assert tabs[..i][1..] == tabs[1..][..i - 1];
      DirtyRank(tabs[1..], i - 1);
    }
  }

  lemma PersistedIs(w: World, crashed: App)
    requires crashed.active < |crashed.tabs| && Persist(w, crashed).1.Ok? && Persist(w, crashed).1.value.Some?
    ensures var s, snapshot := Sync(w, crashed), Persist(w, crashed).1.value.value;
      |s.tabs| == |crashed.tabs| && s.active == crashed.active
      && DirtyDrafts(w, s.tabs) == Ok(snapshot.drafts) && snapshot.drafts != []
      && snapshot.activeIndex
         == Min(if s.tabs[s.active].dirty then DirtyCount(s.tabs[..s.active]) else 0, |snapshot.drafts| - 1)
  {
    hide DirtyDrafts, DirtyCount, Min;
  }

  lemma RestoredIs(w: World, started: App, snapshot: Snapshot)
    requires snapshot.drafts != []
    ensures var (r, result) := Restore(w, started, snapshot); var drafts := RecoveredTabs(w, snapshot.drafts);
      && result.Ok? && r.tabs == started.tabs + drafts
      && r.active == |started.tabs| + Min(snapshot.activeIndex, |drafts| - 1) < |r.tabs|
      && r.request == drafts[r.active - |started.tabs|].request && r.dirty && r.recovered
  {
    hide IndexOf;
  }

  /**
   * Main result: restoring a snapshot appends exactly the dirty tabs, in order, as recovered drafts
   * without a file; the draft that was active is shown when it was dirty, and the first one otherwise.
   */
  lemma RecoveryBringsBackDirtyTabs(before: World, now: World, crashed: App, started: App)
    requires crashed.active < |crashed.tabs|
    requires Persist(before, crashed).1.Ok? && Persist(before, crashed).1.value.Some?
    ensures var s := Sync(before, crashed);
      var (r, result) := Restore(now, started, Persist(before, crashed).1.value.value);
      var rank := if s.tabs[s.active].dirty then DirtyCount(s.tabs[..s.active]) else 0;
      && result.Ok? && r.tabs == started.tabs + AllAsRecovered(before, now, DirtyTabs(s.tabs))
      && r.active == |started.tabs| + rank < |r.tabs| && r.request == r.tabs[r.active].request
      && r.dirty && r.recovered
      && (s.tabs[s.active].dirty ==> r.request == s.tabs[s.active].request)
  {
    hide Sync, Persist, Restore, DirtyTabs, DirtyCount, NewIndex, DirtyDrafts, RecoveredTabs, AllAsRecovered;
    var s := Sync(before, crashed);
    PersistedIs(before, crashed);
    RestoredIs(now, started, Persist(before, crashed).1.value.value);
    DraftsComeBack(before, now, s.tabs);
    if s.tabs[s.active].dirty {
      DirtyRank(s.tabs, s.active);
    }
  }

  /** Discarding just restored drafts gives back the tabs there were before, the last one being shown. */
  lemma DiscardUndoesRestore(w: World, started: App, snapshot: Snapshot, id: nat)
    requires started.tabs != [] && snapshot.drafts != []
      && forall i | 0 <= i < |started.tabs| :: !started.tabs[i].recovered
    ensures var t := Discard(w, Restore(w, started, snapshot).0, id);
      t.tabs == started.tabs && t.active == |started.tabs| - 1
  {
    hide *;
    var r := Restore(w, started, snapshot).0;
    var drafts := RestoreShape(w, started, snapshot);
    SurvivorsBefore(started.tabs, drafts, r.active - |started.tabs|);
    SurvivorsBefore(started.tabs, drafts, |drafts|);
    assert (started.tabs + drafts)[..|started.tabs| + |drafts|] == started.tabs + drafts;
    DiscardKeepsActiveSurvivor(w, r, id);
    assert Min(|started.tabs|, |started.tabs| - 1) == |started.tabs| - 1 by { Smaller(|started.tabs|); }
  }

  lemma Smaller(n: nat)
    requires n > 0
    ensures Min(n, n - 1) == n - 1
  {
  }

  lemma RestoreShape(w: World, started: App, snapshot: Snapshot) returns (drafts: seq<Tab>)
    requires snapshot.drafts != []
    ensures var r := Restore(w, started, snapshot).0;
      r.tabs == started.tabs + drafts && |started.tabs| <= r.active < |r.tabs|
    ensures forall i | 0 <= i < |drafts| :: drafts[i].recovered
  {
    drafts := RecoveredTabs(w, snapshot.drafts);
  }

  lemma SurvivorsBefore(kept: seq<Tab>, drafts: seq<Tab>, n: nat)
    requires n <= |drafts|
    requires forall i | 0 <= i < |kept| :: !kept[i].recovered
    requires forall i | 0 <= i < |drafts| :: drafts[i].recovered
    ensures WithoutRecovered((kept + drafts)[..|kept| + n]) == kept
  {
    hide WithoutRecovered;
    assert (kept + drafts)[..|kept| + n] == kept + drafts[..n];
    KeptConcat(kept, drafts[..n]);
    AllKept(kept);
    NoneKept(drafts[..n]);
  }

  lemma {:induction false} AllKept(tabs: seq<Tab>)
    requires forall i | 0 <= i < |tabs| :: !tabs[i].recovered
    ensures WithoutRecovered(tabs) == tabs
  {
    if tabs != [] {
      AllKept(tabs[1..]);
    }
  }

  lemma {:induction false} NoneKept(tabs: seq<Tab>)
    requires forall i | 0 <= i < |tabs| :: tabs[i].recovered
    ensures WithoutRecovered(tabs) == []
  {
    if tabs != [] {
      NoneKept(tabs[1..]);
    }
  }
}
