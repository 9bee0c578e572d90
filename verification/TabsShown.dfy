/** Which tab an operation shows, and what becomes of the others, tab by tab. */
module TabsShown {
  import opened Wrappers
  import opened RequestModel
  import opened Tabs

  /** The working copy is that of the tab, whose collection is listed when there is one. */
  predicate Shows(w: World, t: App, index: nat, listedBefore: set<string>) {
    && index < |t.tabs| && t.active == index
    && t.path == t.tabs[index].path && t.request == t.tabs[index].request
    && t.edited == w.normalise(t.tabs[index].request)
    && t.dirty == t.tabs[index].dirty && t.recovered == t.tabs[index].recovered
    && if t.tabs[index].collectionIndex < |w.collections| then
         t.selectedCollection == t.tabs[index].collectionIndex && t.listed == w.stored(t.selectedCollection)
       else
         t.selectedCollection == (if w.collections == [] then 0 else |w.collections| - 1) && t.listed == listedBefore
  }

  /** The tabs after the working copy was written to the active one. */
  predicate WrittenBack(s: App, tabs: seq<Tab>) {
    && |tabs| == |s.tabs| && (forall i | 0 <= i < |tabs| && i != s.active :: tabs[i] == s.tabs[i])
    && (s.active < |tabs| ==>
          var tab := tabs[s.active];
          && tab.path == s.path && tab.request == s.edited && tab.dirty == s.dirty && tab.recovered == s.recovered
          && tab.collectionIndex == if s.path.Some? && s.path.value in s.listed then s.selectedCollection
                                    else s.tabs[s.active].collectionIndex)
  }

  /** Saving changes the active tab and nothing else. */
  lemma SavingWritesBack(w: World, s: App)
    ensures WrittenBack(s, Sync(w, s).tabs) && Sync(w, s) == s.(tabs := Sync(w, s).tabs)
  {
  }

  lemma ShownIs(w: World, s: App, index: nat)
    requires index < |s.tabs|
    ensures Shows(w, Show(w, s, index), index, s.listed) && Show(w, s, index).tabs == s.tabs
  {
  }

  /** Switching saves, and shows the tab that was asked for; nothing happens for the active or a missing one. */
  lemma SwitchShowsTheTab(w: World, s: App, index: nat)
    ensures var t := Switch(w, s, index);
      if index < |s.tabs| && index != s.active
      then WrittenBack(s, t.tabs) && Shows(w, t, index, s.listed) && t.tabs[index] == s.tabs[index]
      else t == s
  {
  }

  /** Opening a request shows the first tab of its path; a clean tab is added only when no tab has the path. */
  lemma SelectShowsThePath(w: World, s: App, path: string, request: Request) returns (written: seq<Tab>)
    ensures WrittenBack(s, written)
    ensures var t := Select(w, s, path, request);
      Shows(w, t, t.active, s.listed) && t.tabs[t.active].path == Some(path)
      && if exists tab <- written :: tab.path == Some(path)
         then t.tabs == written && forall i | 0 <= i < t.active :: t.tabs[i].path != Some(path)
         else t.tabs == written + [Tab(s.selectedCollection, Some(path), request, false, false)]
              && t.active == |written|
  {
    var synced := Sync(w, s);
    written := synced.tabs;
    SavingWritesBack(w, s);
    FirstOfPath(written, path);
    hide Sync, PathAt, Show, WrittenBack, Shows;
    var index := PathAt(written, path);
    if index < |written| {
      ShownIs(w, synced, index);
      ShownIndex(w, synced, index);
    } else {
      var more := synced.(tabs := written + [Tab(s.selectedCollection, Some(path), request, false, false)]);
      ShownIs(w, more, |written|);
      ShownIndex(w, more, |written|);
    }
  }

  lemma ShowKeepsTabs(w: World, s: App, index: nat)
    ensures Show(w, s, index).tabs == s.tabs
  {
  }

  lemma ShownIndex(w: World, s: App, index: nat)
    requires index < |s.tabs|
    ensures Show(w, s, index).active == index
  {
  }

  lemma {:induction false} FirstOfPath(tabs: seq<Tab>, path: string)
    ensures PathAt(tabs, path) < |tabs| <==> exists tab <- tabs :: tab.path == Some(path)
    ensures forall i | 0 <= i < PathAt(tabs, path) :: tabs[i].path != Some(path)
  {
    if tabs != [] && tabs[0].path != Some(path) {
      FirstOfPath(tabs[1..], path);
      assert forall tab <- tabs :: tab == tabs[0] || tab in tabs[1..];
    } else if tabs != [] {
      assert tabs[0] in tabs;
    }
  }

  /** A new tab is a dirty draft of the selected collection, after the others; it is shown. */
  lemma NewShowsADraft(w: World, s: App, id: nat) returns (written: seq<Tab>)
    ensures WrittenBack(s, written)
    ensures var t := New(w, s, id); var draft := NewRequest(id, "New request", "GET", "https://example.com");
      && t.tabs == written + [Tab(s.selectedCollection, None, draft, true, false)] && t.active == |written|
      && t.path == None && t.request == draft && t.edited == w.normalise(draft) && t.dirty && !t.recovered
      && t.selectedCollection == s.selectedCollection && t.listed == s.listed
  {
    written := Sync(w, s).tabs;
  }

  /**
   * Closing a clean tab removes it and no other. What is shown is the active tab when another one was closed, and
   * else the tab that takes its place, the last one when there is none behind it, or a fresh draft.
   */
  lemma CloseShowsANeighbour(w: World, s: App, index: nat, id: nat)
    ensures var t := Close(w, s, index, id);
      if index >= |s.tabs| || s.tabs[index].dirty then t == s
      else if |s.tabs| == 1 then
        var draft := NewRequest(id, "New request", "GET", "https://example.com");
        && t.tabs == [Tab(s.selectedCollection, None, draft, true, false)] && t.active == 0
        && t.path == None && t.request == draft && t.edited == w.normalise(draft) && t.dirty && !t.recovered
        && t.selectedCollection == s.selectedCollection && t.listed == s.listed
      else
        && |t.tabs| == |s.tabs| - 1
        && (forall i | 0 <= i < |t.tabs| :: t.tabs[i] == if i < index then s.tabs[i] else s.tabs[i + 1])
        && (s.active < |s.tabs| ==>
              Shows(w, t, t.active, s.listed) &&
              t.active == if s.active > index || s.active == |t.tabs| then s.active - 1 else s.active)
  {
    if index < |s.tabs| && !s.tabs[index].dirty {
      if |s.tabs| == 1 {
        assert Remove(s.tabs, index) == [];
      } else {
        CloseOneOfMore(w, s, index, id);
      }
    }
  }

  lemma CloseOneOfMore(w: World, s: App, index: nat, id: nat)
    requires index < |s.tabs| && !s.tabs[index].dirty && |s.tabs| > 1
    ensures var t := Close(w, s, index, id);
      && |t.tabs| == |s.tabs| - 1
      && (forall i | 0 <= i < |t.tabs| :: t.tabs[i] == if i < index then s.tabs[i] else s.tabs[i + 1])
      && (s.active < |s.tabs| ==>
            Shows(w, t, t.active, s.listed) &&
            t.active == if s.active > index || s.active == |t.tabs| then s.active - 1 else s.active)
  {
    var rest := Remove(s.tabs, index);
    assert |rest| == |s.tabs| - 1 && rest != [];
    assert forall i | 0 <= i < |rest| :: rest[i] == if i < index then s.tabs[i] else s.tabs[i + 1];
    hide Remove, Show, Shows;
    var active := if index < s.active then s.active - 1 else if s.active >= |rest| then |rest| - 1 else s.active;
    var left := s.(tabs := rest, active := active);
    assert Close(w, s, index, id) == Show(w, left, active);
    hide Close;
    ShowKeepsTabs(w, left, active);
    if s.active < |s.tabs| {
      ShownIs(w, left, active);
      ShownIndex(w, left, active);
    }
  }

  /** Closing the others leaves the active tab alone, unless another one is dirty. */
  lemma CloseOthersLeavesOne(s: App)
    ensures var t := CloseOthers(s);
      if s.active < |s.tabs| && forall i | 0 <= i < |s.tabs| && i != s.active :: !s.tabs[i].dirty
      then t.tabs == [s.tabs[s.active]] && t.active == 0 && t == s.(tabs := t.tabs, active := 0)
      else t == s
  {
    if |s.tabs| == 1 && s.active == 0 {
      assert s.tabs == [s.tabs[0]];
    }
  }

  /** Moving exchanges the active tab with the one `direction` places away, and shows nothing else. */
  lemma MoveExchangesTwo(s: App, direction: int)
    ensures var t, target := Move(s, direction), s.active + direction;
      if s.active < |s.tabs| && 0 <= target < |s.tabs| then
        && |t.tabs| == |s.tabs| && t.tabs[target] == s.tabs[s.active] && t.tabs[s.active] == s.tabs[target]
        && (forall i | 0 <= i < |t.tabs| && i != s.active && i != target :: t.tabs[i] == s.tabs[i])
        && t == s.(tabs := t.tabs, active := target)
      else t == s
  {
  }

  /** After discarding, the shown tab is the working copy. */
  lemma DiscardShowsASurvivor(w: World, s: App, id: nat)
    requires exists tab <- s.tabs :: !tab.recovered
    ensures var t := Discard(w, s, id); Shows(w, t, t.active, s.listed) && forall tab <- t.tabs :: !tab.recovered
  {
    SomeSurvive(s.tabs);
    hide WithoutRecovered, RecoveredCount, Show, Shows;
    var kept := s.(tabs := WithoutRecovered(s.tabs), recovered := false);
    var before := RecoveredCount(s.tabs[..Min(s.active, |s.tabs|)]);
    var active := Min(if s.active < before then 0 else s.active - before, |kept.tabs| - 1);
    ShownIs(w, kept.(active := active), active);
    ShownIndex(w, kept.(active := active), active);
  }

  lemma {:induction false} SomeSurvive(tabs: seq<Tab>)
    ensures (exists tab <- tabs :: !tab.recovered) ==> WithoutRecovered(tabs) != []
    ensures forall tab <- WithoutRecovered(tabs) :: !tab.recovered
  {
    if tabs != [] {
      SomeSurvive(tabs[1..]);
      assert forall tab <- tabs :: tab == tabs[0] || tab in tabs[1..];
    }
  }

  /** Restoring shows one of the drafts it appends, as recovered work. */
  lemma RestoreShowsADraft(w: World, s: App, snapshot: Snapshot)
    requires snapshot.drafts != []
    ensures var t := Restore(w, s, snapshot).0;
      && Shows(w, t, t.active, s.listed) && |s.tabs| <= t.active && t.recovered && t.dirty
      && t.active - |s.tabs|
         == (if snapshot.activeIndex < |snapshot.drafts| then snapshot.activeIndex else |snapshot.drafts| - 1)
      && t.tabs[..|s.tabs|] == s.tabs && |t.tabs| == |s.tabs| + |snapshot.drafts|
      && forall i | 0 <= i < |snapshot.drafts| ::
           var tab := t.tabs[|s.tabs| + i];
           tab.request == snapshot.drafts[i].request && tab.dirty && tab.recovered && tab.path == None
  {
    hide *;
    var drafts := RecoveredTabs(w, snapshot.drafts);
    var chosen := DraftsAre(w, snapshot);
    var all := s.(tabs := s.tabs + drafts, active := |s.tabs| + chosen);
    assert Restore(w, s, snapshot).0 == Show(w, all, |s.tabs| + chosen).(recovered := true) by {
      RestoreIs(w, s, snapshot, chosen);
    }
    ShownIs(w, all, |s.tabs| + chosen);
    ShownIndex(w, all, |s.tabs| + chosen);
    RecoveredShows(w, Show(w, all, |s.tabs| + chosen), |s.tabs| + chosen, s.listed);
    assert (s.tabs + drafts)[..|s.tabs|] == s.tabs;
    assert forall i | 0 <= i < |drafts| :: (s.tabs + drafts)[|s.tabs| + i] == drafts[i];
  }

  lemma RecoveredShows(w: World, t: App, index: nat, listedBefore: set<string>)
    requires Shows(w, t, index, listedBefore) && t.tabs[index].recovered && t.tabs[index].dirty
    ensures Shows(w, t.(recovered := true), index, listedBefore) && t.dirty
  {
  }

  lemma RestoreIs(w: World, s: App, snapshot: Snapshot, chosen: nat)
    requires snapshot.drafts != [] && chosen == Min(snapshot.activeIndex, |snapshot.drafts| - 1)
    ensures var all := s.(tabs := s.tabs + RecoveredTabs(w, snapshot.drafts), active := |s.tabs| + chosen);
      Restore(w, s, snapshot).0 == Show(w, all, |s.tabs| + chosen).(recovered := true)
  {
    hide Show, RecoveredTabs;
  }

  lemma DraftsAre(w: World, snapshot: Snapshot) returns (chosen: nat)
    requires snapshot.drafts != []
    ensures chosen == Min(snapshot.activeIndex, |snapshot.drafts| - 1)
         == if snapshot.activeIndex < |snapshot.drafts| then snapshot.activeIndex else |snapshot.drafts| - 1
    ensures var drafts := RecoveredTabs(w, snapshot.drafts);
      |drafts| == |snapshot.drafts| && forall i | 0 <= i < |drafts| ::
        drafts[i].request == snapshot.drafts[i].request && drafts[i].dirty && drafts[i].recovered
        && drafts[i].path == None
  {
    chosen := Min(snapshot.activeIndex, |snapshot.drafts| - 1);
  }
}
