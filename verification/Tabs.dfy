/** Open request tabs, the working copy beside them, and crash recovery. */
module Tabs {
  import opened Wrappers
  import opened RequestModel

  datatype Tab = Tab(collectionIndex: nat, path: Option<string>, request: Request, dirty: bool, recovered: bool)

  /** A saved draft of the recovery file. */
  datatype Draft = Draft(collectionId: string, request: Request)

  datatype Snapshot = Snapshot(activeIndex: nat, drafts: seq<Draft>)

  datatype RecoveryError = MissingCollection | NoDrafts

  /**
   * The state: the tabs, and the working copy that the editors show. `edited` is the request the
   * editors would give now; `listed` holds the paths of the collection that is shown.
   */
  datatype App = App(
    tabs: seq<Tab>,
    active: nat,
    selectedCollection: nat,
    path: Option<string>,
    request: Request,
    edited: Request,
    dirty: bool,
    recovered: bool,
    listed: set<string>)

  /** What does not change: the collections, what is stored in each, and how the editors show a request. */
  datatype World = World(collections: seq<string>, stored: nat -> set<string>, normalise: Request -> Request) {
    ghost predicate Valid() {
      && (forall i, j | 0 <= i < j < |collections| :: collections[i] != collections[j])
      && (forall r: Request :: normalise(r).id == r.id)
    }

    /** Editing twice is editing once; see `EditorsTheorems.EditingTwiceIsEditingOnce`. */
    ghost predicate Stable() {
      forall r: Request :: normalise(normalise(r)) == normalise(r)
    }
  }

  // ----- The steps the operations are made of -----

  function SyncedTab(w: World, s: App): Tab
    requires s.active < |s.tabs|
  {
    Tab(if s.path.Some? && s.path.value in s.listed then s.selectedCollection else s.tabs[s.active].collectionIndex,
        s.path, s.edited, s.dirty, s.recovered)
  }

  /** `sync_active_tab`: the working copy is written to the active tab. */
  function Sync(w: World, s: App): App {
    if s.active < |s.tabs| then s.(tabs := s.tabs[s.active := SyncedTab(w, s)]) else s
  }

  function CurrentTab(s: App): Tab {
    Tab(s.selectedCollection, s.path, s.request, s.dirty, s.recovered)
  }

  /** `load_requests_for_tab`. */
  function List(w: World, s: App, index: nat): App {
    if index < |s.tabs| && s.tabs[index].collectionIndex < |w.collections|
    then s.(listed := w.stored(s.tabs[index].collectionIndex)) else s
  }

  function Min(a: nat, b: nat): nat {
    if a < b then a else b
  }

  /** `install_tab`: the working copy becomes a copy of the tab. */
  function Install(w: World, s: App, index: nat): App {
    if index >= |s.tabs| then s
    else
      var tab := s.tabs[index];
      var lastCollection := if |w.collections| == 0 then 0 else |w.collections| - 1;
      s.(active := index, selectedCollection := Min(tab.collectionIndex, lastCollection), path := tab.path,
         request := tab.request, edited := w.normalise(tab.request), dirty := tab.dirty, recovered := tab.recovered)
  }

  function Show(w: World, s: App, index: nat): App {
    Install(w, List(w, s, index), index)
  }

  /** `reset_new_request`; the new identifier is a parameter. */
  function ResetNew(w: World, s: App, id: nat): App {
    var fresh_ := NewRequest(id, "New request", "GET", "https://example.com");
    s.(path := None, request := fresh_, edited := w.normalise(fresh_), dirty := true, recovered := false)
  }

  // ----- The operations -----

  function New(w: World, s: App, id: nat): App {
    var reset := ResetNew(w, Sync(w, s), id);
    reset.(tabs := reset.tabs + [CurrentTab(reset)], active := |reset.tabs|)
  }

  function Switch(w: World, s: App, index: nat): App {
    if index >= |s.tabs| || index == s.active then s else Show(w, Sync(w, s), index)
  }

  function Remove(tabs: seq<Tab>, index: nat): seq<Tab>
    requires index < |tabs|
  {
    tabs[..index] + tabs[index + 1..]
  }

  function Close(w: World, s: App, index: nat, id: nat): App {
    if index >= |s.tabs| || s.tabs[index].dirty then s
    else
      var rest := s.(tabs := Remove(s.tabs, index));
      if rest.tabs == [] then
        var reset := ResetNew(w, rest.(active := 0), id);
        reset.(tabs := [CurrentTab(reset)])
      else
        var active :=
          if index < s.active then s.active - 1
          else if s.active >= |rest.tabs| then |rest.tabs| - 1
          else s.active;
        Show(w, rest.(active := active), active)
  }

  function CloseOthers(s: App): App {
    if (exists i | 0 <= i < |s.tabs| :: i != s.active && s.tabs[i].dirty) || |s.tabs| <= 1
       || s.active >= |s.tabs| then s
    else s.(tabs := [s.tabs[s.active]], active := 0)
  }

  function Move(s: App, direction: int): App {
    var target := s.active + direction;
    if target < 0 || target >= |s.tabs| || s.active >= |s.tabs| then s
    else s.(tabs := s.tabs[s.active := s.tabs[target]][target := s.tabs[s.active]], active := target)
  }

  function WithoutRecovered(tabs: seq<Tab>): seq<Tab> {
    if tabs == [] then [] else (if tabs[0].recovered then [] else [tabs[0]]) + WithoutRecovered(tabs[1..])
  }

  function RecoveredCount(tabs: seq<Tab>): nat {
    if tabs == [] then 0 else (if tabs[0].recovered then 1 else 0) + RecoveredCount(tabs[1..])
  }

  /** `discard_recovery`, when the recovery file could be removed. */
  function Discard(w: World, s: App, id: nat): App {
    var kept := s.(tabs := WithoutRecovered(s.tabs), recovered := false);
    if kept.tabs == [] then
      var reset := ResetNew(w, kept.(active := 0), id);
      reset.(tabs := [CurrentTab(reset)])
    else
      var before := RecoveredCount(s.tabs[..Min(s.active, |s.tabs|)]);
      var active := Min(if s.active < before then 0 else s.active - before, |kept.tabs| - 1);
      Show(w, kept.(active := active), active)
  }

  /** `select_request`: the tab of a listed request is shown, opened first when there is none. */
  function Select(w: World, s0: App, path: string, request: Request): App {
    var s := Sync(w, s0);
    var index := PathAt(s.tabs, path);
    if index < |s.tabs| then Show(w, s, index)
    else
      var opened_ := s.(tabs := s.tabs + [Tab(s.selectedCollection, Some(path), request, false, false)]);
      Show(w, opened_, |s.tabs|)
  }

  /** The first tab of a path, or the number of tabs. */
  function PathAt(tabs: seq<Tab>, path: string): (i: nat)
    ensures i <= |tabs|
    ensures i < |tabs| ==> tabs[i].path == Some(path)
  {
    if tabs == [] || tabs[0].path == Some(path) then 0 else 1 + PathAt(tabs[1..], path)
  }

  // ----- Recovery -----

  function DraftOf(w: World, tab: Tab): Option<Draft> {
    if tab.collectionIndex < |w.collections| then Some(Draft(w.collections[tab.collectionIndex], tab.request)) else None
  }

  /** The drafts of the dirty tabs, in order. */
  function DirtyDrafts(w: World, tabs: seq<Tab>): Result<seq<Draft>, RecoveryError> {
    if tabs == [] then Ok([])
    else if !tabs[0].dirty then DirtyDrafts(w, tabs[1..])
    else if DraftOf(w, tabs[0]).None? then Err(MissingCollection)
    else
      match DirtyDrafts(w, tabs[1..])
      case Err(e) => Err(e)
      case Ok(rest) => Ok([DraftOf(w, tabs[0]).value] + rest)
  }

  function DirtyCount(tabs: seq<Tab>): nat {
    if tabs == [] then 0 else (if tabs[0].dirty then 1 else 0) + DirtyCount(tabs[1..])
  }

  /** `persist_recovery`: the synced state, and the snapshot when there is something to save. */
  function Persist(w: World, s0: App): (App, Result<Option<Snapshot>, RecoveryError>) {
    var s := Sync(w, s0);
    match DirtyDrafts(w, s.tabs)
    case Err(e) => (s, Err(e))
    case Ok(fromTabs) =>
      if s.tabs == [] && s.dirty && s.selectedCollection >= |w.collections| then (s, Err(MissingCollection))
      else
        var drafts :=
          if s.tabs == [] && s.dirty then [Draft(w.collections[s.selectedCollection], s.edited)] else fromTabs;
        if drafts == [] then (s, Ok(None))
        else
          var rank := if s.active < |s.tabs| && s.tabs[s.active].dirty then DirtyCount(s.tabs[..s.active]) else 0;
          (s, Ok(Some(Snapshot(Min(rank, |drafts| - 1), drafts))))
  }

  function IndexOf(ids: seq<string>, id: string): (i: nat)
    ensures i <= |ids| && (i < |ids| ==> ids[i] == id)
  {
    if ids == [] || ids[0] == id then 0 else 1 + IndexOf(ids[1..], id)
  }

  /** A draft opens in the collection of that id, or in the first one. */
  function RecoveredTab(w: World, draft: Draft): Tab {
    var index := IndexOf(w.collections, draft.collectionId);
    Tab(if index < |w.collections| then index else 0, None, draft.request, true, true)
  }

  function RecoveredTabs(w: World, drafts: seq<Draft>): (r: seq<Tab>)
    ensures |r| == |drafts| && forall i | 0 <= i < |r| :: r[i] == RecoveredTab(w, drafts[i])
  {
    seq(|drafts|, i requires 0 <= i < |drafts| => RecoveredTab(w, drafts[i]))
  }

  function Restore(w: World, s: App, snapshot: Snapshot): (App, Result<(), RecoveryError>) {
    if snapshot.drafts == [] then (s, Err(NoDrafts))
    else
      var tabs := s.tabs + RecoveredTabs(w, snapshot.drafts);
      var active := |s.tabs| + Min(snapshot.activeIndex, |snapshot.drafts| - 1);
      (Show(w, s.(tabs := tabs, active := active), active).(recovered := true), Ok(()))
  }

  // ----- The application object -----

  class PostlyTabs {
    const w: World
    var openTabs: seq<Tab>
    var activeTab: nat
    var selectedCollection: nat
    var requestPath: Option<string>
    var request: Request
    var edited: Request
    var dirty: bool
    var recoveryRestored: bool
    var listed: set<string>

    constructor (w: World, s: App)
      ensures this.w == w && View() == s
    {
      this.w := w;
      openTabs, activeTab, selectedCollection, requestPath := s.tabs, s.active, s.selectedCollection, s.path;
      request, edited, dirty, recoveryRestored, listed := s.request, s.edited, s.dirty, s.recovered, s.listed;
    }

    function View(): App
      reads this
    {
      App(openTabs, activeTab, selectedCollection, requestPath, request, edited, dirty, recoveryRestored, listed)
    }

    method SyncActiveTab()
      modifies this
      ensures View() == Sync(w, old(View()))
    {
      if activeTab < |openTabs| {
        var tab := openTabs[activeTab];
        if requestPath.Some? && requestPath.value in listed {
          tab := tab.(collectionIndex := selectedCollection);
        }
        tab := tab.(path := requestPath, request := edited, dirty := dirty, recovered := recoveryRestored);
        openTabs := openTabs[activeTab := tab];
      }
    }

    method LoadRequestsForTab(index: nat)
      modifies this
      ensures View() == List(w, old(View()), index)
    {
      if index < |openTabs| && openTabs[index].collectionIndex < |w.collections| {
        listed := w.stored(openTabs[index].collectionIndex);
      }
    }

    method InstallTab(index: nat)
      modifies this
      ensures View() == Install(w, old(View()), index)
    {
      if index >= |openTabs| {
        return;
      }
      var tab := openTabs[index];
      activeTab := index;
      var lastCollection := if |w.collections| == 0 then 0 else |w.collections| - 1;
      selectedCollection := Min(tab.collectionIndex, lastCollection);
      requestPath, request, edited := tab.path, tab.request, w.normalise(tab.request);
      dirty, recoveryRestored := tab.dirty, tab.recovered;
    }

    method ResetNewRequest(id: nat)
      modifies this
      ensures View() == ResetNew(w, old(View()), id)
    {
      requestPath, request := None, NewRequest(id, "New request", "GET", "https://example.com");
      edited, dirty, recoveryRestored := w.normalise(request), true, false;
    }

    method NewTab(id: nat)
      modifies this
      ensures View() == New(w, old(View()), id)
    {
      SyncActiveTab();
      ResetNewRequest(id);
      openTabs := openTabs + [CurrentTab(View())];
      activeTab := |openTabs| - 1;
    }

    method SwitchToTab(index: nat)
      modifies this
      ensures View() == Switch(w, old(View()), index)
    {
      if index >= |openTabs| || index == activeTab {
        return;
      }
      SyncActiveTab();
      LoadRequestsForTab(index);
      InstallTab(index);
    }

    method CloseTab(index: nat, id: nat)
      modifies this
      ensures View() == Close(w, old(View()), index, id)
    {
      if index >= |openTabs| || openTabs[index].dirty {
        return;
      }
      openTabs := Remove(openTabs, index);
      ghost var rest := old(View()).(tabs := Remove(old(openTabs), index));
      if openTabs == [] {
        activeTab := 0;
        assert View() == rest.(active := 0);
        ResetNewRequest(id);
        ghost var reset := View();
        openTabs := [CurrentTab(View())];
        assert View() == reset.(tabs := [CurrentTab(reset)]);
      } else {
        if index < activeTab {
          activeTab := activeTab - 1;
        } else if activeTab >= |openTabs| {
          activeTab := |openTabs| - 1;
        }
        LoadRequestsForTab(activeTab);
        InstallTab(activeTab);
      }
    }

    method CloseOtherTabs()
      modifies this
      ensures View() == CloseOthers(old(View()))
    {
      for i := 0 to |openTabs|
        invariant forall j | 0 <= j < i :: j == activeTab || !openTabs[j].dirty
        invariant View() == old(View())
      {
        if i != activeTab && openTabs[i].dirty {
          return;
        }
      }
      if |openTabs| <= 1 || activeTab >= |openTabs| {
        return;
      }
      openTabs, activeTab := [openTabs[activeTab]], 0;
    }

    method MoveActiveTab(direction: int)
      modifies this
      ensures View() == Move(old(View()), direction)
    {
      var target := activeTab + direction;
      if target < 0 || target >= |openTabs| || activeTab >= |openTabs| {
        return;
      }
      openTabs := openTabs[activeTab := openTabs[target]][target := openTabs[activeTab]];
      activeTab := target;
    }

    method DiscardRecovery(id: nat)
      modifies this
      ensures View() == Discard(w, old(View()), id)
    {
      hide RecoveredCount, WithoutRecovered, ResetNew;
      var activeBefore := activeTab;
      var recoveredBefore := RecoveredCount(openTabs[..Min(activeBefore, |openTabs|)]);
      openTabs := WithoutRecovered(openTabs);
      recoveryRestored := false;
      if openTabs == [] {
        activeTab := 0;
        ResetNewRequest(id);
        openTabs := [CurrentTab(View())];
      } else {
        activeTab := Min(if activeBefore < recoveredBefore then 0 else activeBefore - recoveredBefore, |openTabs| - 1);
        LoadRequestsForTab(activeTab);
        InstallTab(activeTab);
      }
    }

    method SelectRequest(path: string, stored: Request)
      modifies this
      ensures View() == Select(w, old(View()), path, stored)
    {
      SyncActiveTab();
      var index := PathAt(openTabs, path);
      if index == |openTabs| {
        openTabs := openTabs + [Tab(selectedCollection, Some(path), stored, false, false)];
      }
      LoadRequestsForTab(index);
      InstallTab(index);
    }

    method PersistRecovery() returns (r: Result<Option<Snapshot>, RecoveryError>)
      modifies this
      ensures (View(), r) == Persist(w, old(View()))
    {
      if openTabs != [] {
        SyncActiveTab();
      }
      var fromTabs := DirtyDrafts(w, openTabs);
      if fromTabs.Err? {
        return Err(fromTabs.error);
      }
      var drafts := fromTabs.value;
      if openTabs == [] && dirty {
        if selectedCollection >= |w.collections| {
          return Err(MissingCollection);
        }
        drafts := drafts + [Draft(w.collections[selectedCollection], edited)];
        assert drafts == [Draft(w.collections[selectedCollection], edited)];
      }
      if drafts == [] {
        return Ok(None);
      }
      var rank := if activeTab < |openTabs| && openTabs[activeTab].dirty then DirtyCount(openTabs[..activeTab]) else 0;
      return Ok(Some(Snapshot(Min(rank, |drafts| - 1), drafts)));
    }

    method RestoreRecovery(snapshot: Snapshot) returns (r: Result<(), RecoveryError>)
      modifies this
      ensures (View(), r) == Restore(w, old(View()), snapshot)
    {
      var recoveredOffset := |openTabs|;
      var recoveredTabs: seq<Tab> := [];
      for i := 0 to |snapshot.drafts|
        invariant recoveredTabs == RecoveredTabs(w, snapshot.drafts)[..i]
        invariant View() == old(View())
      {
        var index := IndexOf(w.collections, snapshot.drafts[i].collectionId);
        recoveredTabs := recoveredTabs
          + [Tab(if index < |w.collections| then index else 0, None, snapshot.drafts[i].request, true, true)];
      }
      if recoveredTabs == [] {
        return Err(NoDrafts);
      }
      assert recoveredTabs == RecoveredTabs(w, snapshot.drafts);
      openTabs := openTabs + recoveredTabs;
      activeTab := recoveredOffset + Min(snapshot.activeIndex, |openTabs| - recoveredOffset - 1);
      LoadRequestsForTab(activeTab);
      InstallTab(activeTab);
      recoveryRestored := true;
      return Ok(());
    }
  }
}
