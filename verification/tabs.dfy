/** The tab session store: an ordered list of open tabs and the id of the
    active one. Every operation computes a new state from the old one, assigns
    it to the store and writes it through to storage (`persistState`). The
    transitions are the pure `...Step` functions below; `TabStore` is the
    store itself, whose methods assign their results. */
module Tabs {
  import opened Wrappers
  import opened Seqs
  import Utils

  datatype Tab = Tab(id: string, title: string, path: string, icon: Option<string>, closable: Option<bool>)

  /** The argument of `addTab`: a tab without its id. */
  datatype TabDraft = TabDraft(title: string, path: string, icon: Option<string>, closable: Option<bool>)

  /** The argument of `updateTab` (`Partial<Tab>`): `None` for a key that is
      not present; for the optional keys, `Some(None)` is a key present with
      the value `undefined`. */
  datatype TabPatch = TabPatch(
    id: Option<string>,
    title: Option<string>,
    path: Option<string>,
    icon: Option<Option<string>>,
    closable: Option<Option<bool>>)

  /** `activeTabId` is `None` both for `null` and for the `undefined` that
      `removeTab` can produce. */
  datatype TabsState = TabsState(tabs: seq<Tab>, activeTabId: Option<string>)

  const HomeTab := Tab("home", "首页", "/", None, Some(false))

  /** The state used when storage holds nothing usable, and after `clearTabs`. */
  const DefaultState := TabsState([HomeTab], Some("home"))

  // ------------------------------------------------------------ tests

  function TabId(t: Tab): string { t.id }
  function TabPath(t: Tab): string { t.path }

  /** `t.closable !== false`. */
  function Closable(t: Tab): bool { t.closable != Some(false) }

  /** `t.closable === false`. */
  function Pinned(t: Tab): bool { t.closable == Some(false) }

  function HasId(id: string): Tab -> bool { (t: Tab) => t.id == id }
  function HasPath(path: string): Tab -> bool { (t: Tab) => t.path == path }
  function NotId(id: string): Tab -> bool { (t: Tab) => t.id != id }
  function KeptByCloseOthers(id: string): Tab -> bool { (t: Tab) => t.id == id || t.closable == Some(false) }

  /** `t => !removed.includes(t)` with `includes` comparing by value. */
  function NotIn(removed: seq<Tab>): Tab -> bool { (t: Tab) => t !in removed }

  /** `xs[i]?.id`. */
  function IdAt(xs: seq<Tab>, i: int): (r: Option<string>)
    ensures r.Some? <==> 0 <= i < |xs|
    ensures r.Some? ==> r.value == xs[i].id
  {
    if 0 <= i < |xs| then Some(xs[i].id) else None
  }

  /** JavaScript's `a || b` on an optional string: `a` unless it is absent or empty. */
  function JsOr(a: Option<string>, b: Option<string>): (r: Option<string>)
    ensures a.Some? && a.value != "" ==> r == a
    ensures a.None? || a.value == "" ==> r == b
  {
    if a.Some? && a.value != "" then a else b
  }

  // ------------------------------------------------------ transitions

  /** `loadInitialState`: the stored state, trusted as it is, or the default. */
  function LoadInitialState(stored: Option<string>, parse: string -> Option<TabsState>): (r: TabsState)
    ensures stored.None? ==> r == DefaultState
    ensures stored.Some? && stored.value != "" && parse(stored.value).Some? ==> r == parse(stored.value).value
  {
    Utils.GetLocalStorageItem(stored, parse, DefaultState)
  }

  /** The tab `addTab` creates: closable unless the caller passed `false`. */
  function NewTab(draft: TabDraft, freshId: string): (t: Tab)
    ensures t.id == freshId && t.title == draft.title && t.path == draft.path && t.icon == draft.icon
    ensures t.closable.Some? && (t.closable.value <==> draft.closable != Some(false))
  {
    Tab(freshId, draft.title, draft.path, draft.icon, Some(draft.closable != Some(false)))
  }

  /** `addTab`: activate the tab already open on the path, or append a new one
      and activate it. Returns the new state and the id handed back. */
  function AddStep(s: TabsState, draft: TabDraft, freshId: string): (r: (TabsState, string))
  {
    match Find(s.tabs, HasPath(draft.path))
    case Some(existing) => (s.(activeTabId := Some(existing.id)), existing.id)
    case None =>
      var t := NewTab(draft, freshId);
      (TabsState(s.tabs + [t], Some(t.id)), t.id)
  }

  /** The id `removeTab` activates when it closes the active tab at `closedIndex`:
      the left neighbour if there is one (falling back to the first tab when
      that id is empty), otherwise the new first tab, or none. */
  function NextActive(newTabs: seq<Tab>, closedIndex: nat): Option<string> {
    if closedIndex > 0 then JsOr(IdAt(newTabs, closedIndex - 1), IdAt(newTabs, 0))
    else IdAt(newTabs, 0)
  }

  /** `removeTab`: `None` when it returns early (no such tab, or the tab is
      not closable); otherwise the state it writes. */
  function RemoveStep(s: TabsState, id: string): (r: Option<TabsState>)
    ensures r.None? <==> Find(s.tabs, HasId(id)).None? || Find(s.tabs, HasId(id)).value.closable == Some(false)
  {
    match Find(s.tabs, HasId(id))
    case None => None
    case Some(tabToRemove) =>
      if tabToRemove.closable == Some(false) then None
      else
        var newTabs := Filter(s.tabs, NotId(id));
        var newActiveId :=
          if s.activeTabId == Some(id) then NextActive(newTabs, FindIndex(s.tabs, HasId(id)).value)
          else s.activeTabId;
        Some(TabsState(newTabs, newActiveId))
  }

  /** `setActiveTab`: `None` (nothing written) unless a tab has the id. */
  function SetActiveStep(s: TabsState, id: string): (r: Option<TabsState>)
    ensures r.None? <==> forall i :: 0 <= i < |s.tabs| ==> s.tabs[i].id != id
    ensures r.Some? ==> r.value == s.(activeTabId := Some(id))
  {
    if exists i :: 0 <= i < |s.tabs| && s.tabs[i].id == id then Some(s.(activeTabId := Some(id))) else None
  }

  /** `{ ...t, ...updates }`. */
  function Merge(t: Tab, p: TabPatch): Tab {
    Tab(p.id.GetOr(t.id), p.title.GetOr(t.title), p.path.GetOr(t.path), p.icon.GetOr(t.icon), p.closable.GetOr(t.closable))
  }

  /** `updateTab`: every tab with the id is merged with the patch; nothing is checked. */
  function UpdateStep(s: TabsState, id: string, patch: TabPatch): TabsState {
    TabsState(seq(|s.tabs|, i requires 0 <= i < |s.tabs| => if s.tabs[i].id == id then Merge(s.tabs[i], patch) else s.tabs[i]),
              s.activeTabId)
  }

  /** `closeOtherTabs`: `None` when no tab has the id. */
  function CloseOthersStep(s: TabsState, id: string): (r: Option<TabsState>)
    ensures r.None? <==> forall i :: 0 <= i < |s.tabs| ==> s.tabs[i].id != id
  {
    match Find(s.tabs, HasId(id))
    case None => None
    case Some(_) => Some(TabsState(Filter(s.tabs, KeptByCloseOthers(id)), Some(id)))
  }

  /** `closeRightTabs`: `None` when no tab has the id. The closable tabs to the
      right of the first tab with the id are dropped; the active id is left as
      it was. The source drops every tab object `includes` finds among those
      collected, which compares objects by identity; every entry of the list
      is its own object, so that is exactly the entries at those positions. */
  function CloseRightStep(s: TabsState, id: string): (r: Option<TabsState>)
    ensures r.None? <==> forall i :: 0 <= i < |s.tabs| ==> s.tabs[i].id != id
    ensures r.Some? ==> r.value.activeTabId == s.activeTabId
  {
    match FindIndex(s.tabs, HasId(id))
    case None => None
    case Some(tabIndex) =>
      Some(s.(tabs := s.tabs[..tabIndex + 1] + Filter(s.tabs[tabIndex + 1..], Pinned)))
  }

  // ------------------------------------------------------- invariants

  ghost predicate UniqueIds(s: TabsState) { UniqueBy(s.tabs, TabId) }
  ghost predicate UniquePaths(s: TabsState) { UniqueBy(s.tabs, TabPath) }

  /** The home tab is always open, first and pinned (its title may change). */
  ghost predicate HomeFirst(s: TabsState) {
    |s.tabs| >= 1 && s.tabs[0].id == HomeTab.id && s.tabs[0].path == HomeTab.path && Pinned(s.tabs[0])
  }

  ghost predicate WellFormed(s: TabsState) { UniqueIds(s) && UniquePaths(s) && HomeFirst(s) }

  /** The active id names an open tab. */
  ghost predicate ActiveLive(s: TabsState) {
    s.activeTabId.Some? && exists i :: 0 <= i < |s.tabs| && s.tabs[i].id == s.activeTabId.value
  }

  lemma DefaultStateWellFormed()
    ensures WellFormed(DefaultState) && ActiveLive(DefaultState)
  {
    assert DefaultState.tabs[0].id == "home";
  }

  // ------------------------------------------------------- properties of addTab

  /** With a tab already open on the path, `addTab` adds nothing, activates
      that tab and returns its id. */
  lemma AddTabActivatesExisting(s: TabsState, draft: TabDraft, freshId: string, k: nat)
    requires k < |s.tabs| && s.tabs[k].path == draft.path && UniquePaths(s)
    ensures AddStep(s, draft, freshId).0.tabs == s.tabs
    ensures AddStep(s, draft, freshId).1 == s.tabs[k].id
    ensures AddStep(s, draft, freshId).0.activeTabId == Some(s.tabs[k].id)
  {
    var found := Find(s.tabs, HasPath(draft.path));
    assert found.Some?;
    var j :| 0 <= j < |s.tabs| && s.tabs[j] == found.value;
    UniqueByIndex(s.tabs, TabPath, j, k);
  }

  /** With no tab open on the path, `addTab` appends exactly one tab at the end,
      closable unless the caller said otherwise, activates it and returns its id. */
  lemma AddTabAppends(s: TabsState, draft: TabDraft, freshId: string)
    requires forall i :: 0 <= i < |s.tabs| ==> s.tabs[i].path != draft.path
    ensures AddStep(s, draft, freshId).0.tabs == s.tabs + [NewTab(draft, freshId)]
    ensures AddStep(s, draft, freshId).1 == freshId
    ensures AddStep(s, draft, freshId).0.activeTabId == Some(freshId)
  {
  }

  /** `addTab` never opens a second tab on a path, and with a fresh id it keeps
      every invariant and leaves an open tab active. */
  lemma AddTabPreserves(s: TabsState, draft: TabDraft, freshId: string)
    requires WellFormed(s)
    requires forall i :: 0 <= i < |s.tabs| ==> s.tabs[i].id != freshId
    ensures WellFormed(AddStep(s, draft, freshId).0)
    ensures ActiveLive(AddStep(s, draft, freshId).0)
  {
    var r := AddStep(s, draft, freshId).0;
    match Find(s.tabs, HasPath(draft.path))
    case Some(existing) =>
      var j :| 0 <= j < |s.tabs| && s.tabs[j] == existing;
      assert r.tabs[j].id == r.activeTabId.value;
    case None =>
      var t := NewTab(draft, freshId);
      assert r.tabs == s.tabs + [t];
      forall i, j | 0 <= i < j < |r.tabs|
        ensures TabId(r.tabs[i]) != TabId(r.tabs[j]) && TabPath(r.tabs[i]) != TabPath(r.tabs[j])
      {
        if j == |s.tabs| {
          assert !HasPath(draft.path)(s.tabs[i]);
        } else {
          assert r.tabs[i] == s.tabs[i] && r.tabs[j] == s.tabs[j];
        }
      }
      assert r.tabs[|s.tabs|].id == freshId;
  }

  // ---------------------------------------------------- properties of removeTab

  /** When the ids are unique, the tab `removeTab` drops is exactly the one at
      the index of its id, and the others keep their order. */
  lemma RemoveDropsExactlyOne(tabs: seq<Tab>, id: string, k: nat)
    requires UniqueBy(tabs, TabId) && k < |tabs| && tabs[k].id == id
    ensures Filter(tabs, NotId(id)) == tabs[..k] + tabs[k + 1..]
  {
    forall i | 0 <= i < |tabs| && i != k ensures NotId(id)(tabs[i]) {
      if i < k { assert TabId(tabs[i]) != TabId(tabs[k]); }
      else { assert TabId(tabs[k]) != TabId(tabs[i]); }
    }
    FilterRemovesOne(tabs, NotId(id), k);
  }

  /** `removeTab` of the closable tab at index k: the other tabs stay in order;
      if the tab was active, its left neighbour becomes active (or the first
      tab if that neighbour's id is empty), and the new first tab, or none,
      when it was the first; otherwise the active id does not move. */
  lemma RemoveTabEffect(s: TabsState, k: nat)
    requires UniqueIds(s) && k < |s.tabs| && Closable(s.tabs[k])
    ensures RemoveStep(s, s.tabs[k].id).Some?
    ensures RemoveStep(s, s.tabs[k].id).value.tabs == s.tabs[..k] + s.tabs[k + 1..]
    ensures s.activeTabId != Some(s.tabs[k].id) ==> RemoveStep(s, s.tabs[k].id).value.activeTabId == s.activeTabId
    ensures s.activeTabId == Some(s.tabs[k].id) && k > 0 && s.tabs[k - 1].id != "" ==>
      RemoveStep(s, s.tabs[k].id).value.activeTabId == Some(s.tabs[k - 1].id)
    ensures s.activeTabId == Some(s.tabs[k].id) && k > 0 && s.tabs[k - 1].id == "" ==>
      RemoveStep(s, s.tabs[k].id).value.activeTabId == Some(s.tabs[0].id)
    ensures s.activeTabId == Some(s.tabs[k].id) && k == 0 ==>
      RemoveStep(s, s.tabs[k].id).value.activeTabId == (if |s.tabs| > 1 then Some(s.tabs[1].id) else None)
  {
    var id := s.tabs[k].id;
    var found := Find(s.tabs, HasId(id));
    var j :| 0 <= j < |s.tabs| && s.tabs[j] == found.value;
    UniqueByIndex(s.tabs, TabId, j, k);
    var idx := FindIndex(s.tabs, HasId(id));
    UniqueByIndex(s.tabs, TabId, idx.value, k);
    RemoveDropsExactlyOne(s.tabs, id, k);
    var newTabs := s.tabs[..k] + s.tabs[k + 1..];
    if k > 0 {
      assert newTabs[k - 1] == s.tabs[k - 1] && newTabs[0] == s.tabs[0];
    } else if |s.tabs| > 1 {
      assert newTabs[0] == s.tabs[1];
    }
  }

  /** `removeTab` of an absent id or a pinned tab writes nothing. */
  lemma RemoveTabNoOp(s: TabsState, id: string)
    requires (forall i :: 0 <= i < |s.tabs| ==> s.tabs[i].id != id)
          || (exists k :: 0 <= k < |s.tabs| && s.tabs[k].id == id && Pinned(s.tabs[k]) && UniqueIds(s))
    ensures RemoveStep(s, id).None?
  {
    var found := Find(s.tabs, HasId(id));
    if found.Some? {
      var k :| 0 <= k < |s.tabs| && s.tabs[k].id == id && Pinned(s.tabs[k]) && UniqueIds(s);
      var j :| 0 <= j < |s.tabs| && s.tabs[j] == found.value;
      UniqueByIndex(s.tabs, TabId, j, k);
    }
  }

  /** `removeTab` keeps every invariant, never closes the home tab, and keeps
      an open tab active. */
  lemma RemoveTabPreserves(s: TabsState, id: string)
    requires WellFormed(s) && RemoveStep(s, id).Some?
    ensures WellFormed(RemoveStep(s, id).value)
    ensures ActiveLive(s) ==> ActiveLive(RemoveStep(s, id).value)
  {
    RemoveKeepsWellFormed(s, id);
    if ActiveLive(s) {
      RemoveKeepsLive(s, id);
    }
  }

  lemma RemoveKeepsWellFormed(s: TabsState, id: string)
    requires WellFormed(s) && RemoveStep(s, id).Some?
    ensures WellFormed(RemoveStep(s, id).value)
    ensures Filter(s.tabs, NotId(id))[0] == s.tabs[0]
  {
    var found := Find(s.tabs, HasId(id));
    var k :| 0 <= k < |s.tabs| && s.tabs[k] == found.value;
    assert Closable(s.tabs[k]) && !Closable(s.tabs[0]);
    assert id != HomeTab.id by {
      assert TabId(s.tabs[0]) != TabId(s.tabs[k]);
    }
    var newTabs := Filter(s.tabs, NotId(id));
    FilterUniqueBy(s.tabs, NotId(id), TabId);
    FilterUniqueBy(s.tabs, NotId(id), TabPath);
    FilterKeepsPrefix(s.tabs, NotId(id), 1);
    assert newTabs[0] == s.tabs[0];
  }

  /** The tab chosen to become active after a removal is open. */
  lemma NextActiveLive(newTabs: seq<Tab>, closedIndex: nat)
    requires |newTabs| >= 1
    ensures NextActive(newTabs, closedIndex).Some?
    ensures exists i :: 0 <= i < |newTabs| && newTabs[i].id == NextActive(newTabs, closedIndex).value
  {
    var r := NextActive(newTabs, closedIndex);
    if closedIndex > 0 && IdAt(newTabs, closedIndex - 1) == r {
      assert newTabs[closedIndex - 1].id == r.value;
    } else {
      assert newTabs[0].id == r.value;
    }
  }

  lemma RemoveKeepsLive(s: TabsState, id: string)
    requires WellFormed(s) && RemoveStep(s, id).Some? && ActiveLive(s)
    ensures ActiveLive(RemoveStep(s, id).value)
  {
    RemoveKeepsWellFormed(s, id);
    var newTabs := Filter(s.tabs, NotId(id));
    var r := RemoveStep(s, id).value;
    assert r.tabs == newTabs;
    if s.activeTabId == Some(id) {
      var ci := FindIndex(s.tabs, HasId(id)).value;
      assert r.activeTabId == NextActive(newTabs, ci);
      NextActiveLive(newTabs, ci);
    } else {
      var a :| 0 <= a < |s.tabs| && s.tabs[a].id == s.activeTabId.value;
      assert NotId(id)(s.tabs[a]);
      var b :| 0 <= b < |r.tabs| && r.tabs[b] == s.tabs[a];
      assert r.tabs[b].id == r.activeTabId.value;
    }
  }

  // --------------------------------------------- properties of the other steps

  /** `setActiveTab` keeps every invariant and, from a live state, stays live. */
  lemma SetActivePreserves(s: TabsState, id: string)
    requires WellFormed(s) && SetActiveStep(s, id).Some?
    ensures WellFormed(SetActiveStep(s, id).value) && ActiveLive(SetActiveStep(s, id).value)
  {
  }

  /** `closeOtherTabs` keeps exactly the target and the pinned tabs, in their
      order, and activates the target. */
  lemma CloseOthersEffect(s: TabsState, id: string)
    requires CloseOthersStep(s, id).Some?
    ensures CloseOthersStep(s, id).value.tabs == Filter(s.tabs, KeptByCloseOthers(id))
    ensures CloseOthersStep(s, id).value.activeTabId == Some(id)
    ensures var r := CloseOthersStep(s, id).value.tabs;
      forall i :: 0 <= i < |s.tabs| ==> (s.tabs[i] in r <==> s.tabs[i].id == id || Pinned(s.tabs[i]))
  {
    var r := CloseOthersStep(s, id).value.tabs;
    var keep := KeptByCloseOthers(id);
    forall i | 0 <= i < |s.tabs| ensures s.tabs[i] in r <==> keep(s.tabs[i]) {
      if s.tabs[i] in r {
        var j :| 0 <= j < |r| && r[j] == s.tabs[i];
        assert keep(r[j]);
      }
    }
  }

  /** `closeOtherTabs` keeps every invariant and leaves the target active. */
  lemma CloseOthersPreserves(s: TabsState, id: string)
    requires WellFormed(s) && CloseOthersStep(s, id).Some?
    ensures WellFormed(CloseOthersStep(s, id).value) && ActiveLive(CloseOthersStep(s, id).value)
  {
    var r := CloseOthersStep(s, id).value;
    var keep := KeptByCloseOthers(id);
    CloseOthersEffect(s, id);
    FilterUniqueBy(s.tabs, keep, TabId);
    FilterUniqueBy(s.tabs, keep, TabPath);
    assert keep(s.tabs[0]);
    FilterKeepsPrefix(s.tabs, keep, 1);
    var k :| 0 <= k < |s.tabs| && s.tabs[k].id == id;
    assert s.tabs[k] in r.tabs;
    var m :| 0 <= m < |r.tabs| && r.tabs[m] == s.tabs[k];
    assert r.tabs[m].id == id;
  }

  /** No tab up to index k equals a tab right of it, since the ids are unique. */
  lemma LeftOfRightDiffers(tabs: seq<Tab>, k: nat, right: seq<Tab>)
    requires k < |tabs| && UniqueBy(tabs, TabId)
    requires forall j :: 0 <= j < |right| ==> right[j] in tabs[k + 1..]
    ensures forall i :: 0 <= i <= k ==> NotIn(right)(tabs[i])
  {
    forall i | 0 <= i <= k ensures tabs[i] !in right {
      forall j | 0 <= j < |right| ensures right[j] != tabs[i] {
        var m :| 0 <= m < |tabs[k + 1..]| && tabs[k + 1..][m] == right[j];
        assert TabId(tabs[i]) != TabId(tabs[k + 1 + m]);
      }
    }
  }

  /** Among the tabs `b`, those not among its closable ones are the pinned ones. */
  lemma NotInClosableIsPinned(b: seq<Tab>)
    ensures forall i :: 0 <= i < |b| ==> NotIn(Filter(b, Closable))(b[i]) == Pinned(b[i])
  {
    var right := Filter(b, Closable);
    forall i | 0 <= i < |b| ensures (b[i] !in right) == Pinned(b[i]) {
      if b[i] in right {
        var j :| 0 <= j < |right| && right[j] == b[i];
        assert Closable(right[j]);
      }
    }
  }

  /** When the ids are unique, dropping every tab equal by value to one of
      the closable tabs right of index k removes exactly the tabs at those
      positions: comparing by value and by position agree. */
  lemma CloseRightByPosition(tabs: seq<Tab>, k: nat)
    requires k < |tabs| && UniqueBy(tabs, TabId)
    ensures Filter(tabs, NotIn(Filter(tabs[k + 1..], Closable))) == tabs[..k + 1] + Filter(tabs[k + 1..], Pinned)
  {
    var a, b := tabs[..k + 1], tabs[k + 1..];
    var right := Filter(b, Closable);
    var p := NotIn(right);
    assert tabs == a + b;
    FilterAppend(a, b, p);
    LeftOfRightDiffers(tabs, k, right);
    assert forall i :: 0 <= i < |a| ==> p(a[i]) by {
      forall i | 0 <= i < |a| ensures p(a[i]) {
        assert a[i] == tabs[i];
      }
    }
    FilterKeepsAll(a, p);
    NotInClosableIsPinned(b);
    FilterCongruent(b, p, Pinned);
  }

  /** `closeRightTabs` of the tab at index k keeps the tabs up to k and the
      pinned tabs right of it, leaves the active id alone, and keeps every
      invariant (but not liveness of the active id, see below). */
  lemma CloseRightEffect(s: TabsState, k: nat)
    requires WellFormed(s) && k < |s.tabs|
    ensures CloseRightStep(s, s.tabs[k].id).Some?
    ensures CloseRightStep(s, s.tabs[k].id).value.tabs == s.tabs[..k + 1] + Filter(s.tabs[k + 1..], Pinned)
    ensures CloseRightStep(s, s.tabs[k].id).value.activeTabId == s.activeTabId
    ensures WellFormed(CloseRightStep(s, s.tabs[k].id).value)
  {
    var id := s.tabs[k].id;
    var idx := FindIndex(s.tabs, HasId(id)).value;
    UniqueByIndex(s.tabs, TabId, idx, k);
    CloseRightByPosition(s.tabs, k);
    var removed := NotIn(Filter(s.tabs[k + 1..], Closable));
    FilterUniqueBy(s.tabs, removed, TabId);
    FilterUniqueBy(s.tabs, removed, TabPath);
  }

  /** `closeRightTabs` never moves the active id, so closing the tabs right of
      the home tab while a tab right of it is active leaves the active id
      naming a closed tab. */
  lemma CloseRightCanOrphanActive()
    ensures var s := TabsState([HomeTab, UsersTab], Some("tab-1"));
      && WellFormed(s) && ActiveLive(s)
      && CloseRightStep(s, "home") == Some(TabsState([HomeTab], Some("tab-1")))
      && !ActiveLive(CloseRightStep(s, "home").value)
  {
    var s := TabsState([HomeTab, UsersTab], Some("tab-1"));
    assert s.tabs[1].id == "tab-1";
    assert UniqueBy(s.tabs, TabId) && UniqueBy(s.tabs, TabPath);
    assert WellFormed(s);
    CloseRightEffect(s, 0);
    assert s.tabs[..1] == [HomeTab] && s.tabs[1..] == [UsersTab];
    assert Filter([UsersTab], Pinned) == [];
    assert CloseRightStep(s, "home").value.tabs == [HomeTab];
  }

  /** A closable tab used in the examples below. */
  const UsersTab := Tab("tab-1", "用户管理", "/users", None, Some(true))

  /** `updateTab` of a title (the only update the tab bar makes) keeps every
      invariant and the active tab. */
  lemma RetitlePreserves(s: TabsState, id: string, title: string)
    requires WellFormed(s)
    ensures var r := UpdateStep(s, id, TabPatch(None, Some(title), None, None, None));
      && WellFormed(r) && (ActiveLive(s) ==> ActiveLive(r))
      && forall i :: 0 <= i < |s.tabs| ==> r.tabs[i].id == s.tabs[i].id && r.tabs[i].path == s.tabs[i].path
  {
    var r := UpdateStep(s, id, TabPatch(None, Some(title), None, None, None));
    assert forall i :: 0 <= i < |s.tabs| ==> TabId(r.tabs[i]) == TabId(s.tabs[i]) && TabPath(r.tabs[i]) == TabPath(s.tabs[i]);
    if ActiveLive(s) {
      var a :| 0 <= a < |s.tabs| && s.tabs[a].id == s.activeTabId.value;
      assert r.tabs[a].id == r.activeTabId.value;
    }
  }

  /** `updateTab` checks nothing: a patch can give a tab the path of another
      one, or make the home tab closable. */
  lemma UpdateCanBreakInvariants()
    ensures var s := TabsState([HomeTab, UsersTab], Some("home"));
      && WellFormed(s)
      && !UniquePaths(UpdateStep(s, "tab-1", TabPatch(None, None, Some("/"), None, None)))
      && !HomeFirst(UpdateStep(s, "home", TabPatch(None, None, None, None, Some(Some(true)))))
  {
    var s := TabsState([HomeTab, UsersTab], Some("home"));
    var r1 := UpdateStep(s, "tab-1", TabPatch(None, None, Some("/"), None, None));
    assert TabPath(r1.tabs[0]) == TabPath(r1.tabs[1]);
    var r2 := UpdateStep(s, "home", TabPatch(None, None, None, None, Some(Some(true))));
    assert r2.tabs[0].closable == Some(true);
  }

  /** `clearTabs` leaves exactly the home tab, active. */
  lemma ClearTabsResets()
    ensures DefaultState.tabs == [HomeTab] && DefaultState.activeTabId == Some(HomeTab.id)
    ensures WellFormed(DefaultState) && ActiveLive(DefaultState)
  {
    DefaultStateWellFormed();
  }

  // ---------------------------------------------------- reachable states

  /** The operations of the store that the application performs, with the
      id `addTab` generates given as `freshId`. A title update is the only
      `updateTab` the application makes. */
  datatype TabOp =
    | Add(draft: TabDraft, freshId: string)
    | Remove(id: string)
    | Activate(id: string)
    | Retitle(id: string, title: string)
    | Clear
    | CloseOthers(id: string)
    | CloseRight(id: string)

  function Apply(s: TabsState, op: TabOp): TabsState {
    match op
    case Add(draft, freshId) => AddStep(s, draft, freshId).0
    case Remove(id) => RemoveStep(s, id).GetOr(s)
    case Activate(id) => SetActiveStep(s, id).GetOr(s)
    case Retitle(id, title) => UpdateStep(s, id, TabPatch(None, Some(title), None, None, None))
    case Clear => DefaultState
    case CloseOthers(id) => CloseOthersStep(s, id).GetOr(s)
    case CloseRight(id) => CloseRightStep(s, id).GetOr(s)
  }

  function Run(s: TabsState, ops: seq<TabOp>): TabsState
    decreases |ops|
  {
    if ops == [] then s else Run(Apply(s, ops[0]), ops[1..])
  }

  /** The generated id of an `Add` is not already in use. */
  predicate FreshFor(s: TabsState, op: TabOp) {
    op.Add? ==> forall i :: 0 <= i < |s.tabs| ==> s.tabs[i].id != op.freshId
  }

  predicate FreshRun(s: TabsState, ops: seq<TabOp>)
    decreases |ops|
  {
    ops == [] || (FreshFor(s, ops[0]) && FreshRun(Apply(s, ops[0]), ops[1..]))
  }

  /** One operation keeps the invariants; every operation but `closeRightTabs`
      also keeps the active id on an open tab. */
  lemma ApplyPreserves(s: TabsState, op: TabOp)
    requires WellFormed(s) && FreshFor(s, op)
    ensures WellFormed(Apply(s, op))
    ensures ActiveLive(s) && !op.CloseRight? ==> ActiveLive(Apply(s, op))
  {
    match op
    case Add(draft, freshId) => AddTabPreserves(s, draft, freshId);
    case Remove(id) => if RemoveStep(s, id).Some? { RemoveTabPreserves(s, id); }
    case Activate(id) => if SetActiveStep(s, id).Some? { SetActivePreserves(s, id); }
    case Retitle(id, title) => RetitlePreserves(s, id, title);
    case Clear => DefaultStateWellFormed();
    case CloseOthers(id) => if CloseOthersStep(s, id).Some? { CloseOthersPreserves(s, id); }
    case CloseRight(id) =>
      if CloseRightStep(s, id).Some? {
        var k := FindIndex(s.tabs, HasId(id)).value;
        CloseRightEffect(s, k);
      }
  }

  /** Every state reached from the default state with fresh ids has unique ids
      and paths and the home tab first; without `closeRightTabs` the active id
      also always names an open tab. */
  lemma {:induction false} ReachableStates(s: TabsState, ops: seq<TabOp>)
    requires WellFormed(s) && FreshRun(s, ops)
    ensures WellFormed(Run(s, ops))
    ensures ActiveLive(s) && (forall i :: 0 <= i < |ops| ==> !ops[i].CloseRight?) ==> ActiveLive(Run(s, ops))
    decreases |ops|
  {
    if ops != [] {
      ApplyPreserves(s, ops[0]);
      ReachableStates(Apply(s, ops[0]), ops[1..]);
    }
  }

  // ------------------------------------------------------------ the store

  /** The `tabsState` signal and its write-through to storage. */
  class TabStore {
    var state: TabsState
    /** What storage holds under `'halolight-tabs'` since this store last wrote
        it; `None` before the first write. */
    ghost var persisted: Option<TabsState>

    /** The module's initialisation: `loadInitialState()`. */
    constructor (stored: Option<string>, parse: string -> Option<TabsState>)
      ensures state == LoadInitialState(stored, parse) && persisted == None
    {
      state := LoadInitialState(stored, parse);
      persisted := None;
    }

    /** The `tabs` computed signal. */
    function Tabs(): seq<Tab> reads this { state.tabs }

    /** The `activeTabId` computed signal. */
    function ActiveTabId(): Option<string> reads this { state.activeTabId }

    /** `getTab`: the first tab with the id. */
    function GetTab(id: string): (r: Option<Tab>)
      reads this
      ensures r.Some? ==> r.value in state.tabs && r.value.id == id
      ensures r.Some? ==> exists k :: 0 <= k < |state.tabs| && state.tabs[k] == r.value
                                      && forall j :: 0 <= j < k ==> state.tabs[j].id != id
      ensures r.None? <==> forall i :: 0 <= i < |state.tabs| ==> state.tabs[i].id != id
    {
      Find(state.tabs, HasId(id))
    }

    /** `getTabByPath`: the first tab on the path. */
    function GetTabByPath(path: string): (r: Option<Tab>)
      reads this
      ensures r.Some? ==> r.value in state.tabs && r.value.path == path
      ensures r.Some? ==> exists k :: 0 <= k < |state.tabs| && state.tabs[k] == r.value
                                      && forall j :: 0 <= j < k ==> state.tabs[j].path != path
      ensures r.None? <==> forall i :: 0 <= i < |state.tabs| ==> state.tabs[i].path != path
    {
      Find(state.tabs, HasPath(path))
    }

    method AddTab(draft: TabDraft, freshId: string) returns (id: string)
      modifies this
      ensures (state, id) == AddStep(old(state), draft, freshId)
      ensures persisted == Some(state)
    {
      var next := AddStep(state, draft, freshId);
      state := next.0;
      persisted := Some(state);
      id := next.1;
    }

    method RemoveTab(id: string)
      modifies this
      ensures RemoveStep(old(state), id).None? ==> state == old(state) && persisted == old(persisted)
      ensures RemoveStep(old(state), id).Some? ==> state == RemoveStep(old(state), id).value && persisted == Some(state)
    {
      var next := RemoveStep(state, id);
      if next.None? {
        return;
      }
      state := next.value;
      persisted := Some(state);
    }

    method SetActiveTab(id: string)
      modifies this
      ensures SetActiveStep(old(state), id).None? ==> state == old(state) && persisted == old(persisted)
      ensures SetActiveStep(old(state), id).Some? ==> state == old(state).(activeTabId := Some(id)) && persisted == Some(state)
    {
      var next := SetActiveStep(state, id);
      if next.Some? {
        state := next.value;
        persisted := Some(state);
      }
    }

    method UpdateTab(id: string, updates: TabPatch)
      modifies this
      ensures state == UpdateStep(old(state), id, updates) && persisted == Some(state)
    {
      state := UpdateStep(state, id, updates);
      persisted := Some(state);
    }

    method ClearTabs()
      modifies this
      ensures state == DefaultState && persisted == Some(DefaultState)
    {
      state := DefaultState;
      persisted := Some(state);
    }

    method CloseOtherTabs(id: string)
      modifies this
      ensures CloseOthersStep(old(state), id).None? ==> state == old(state) && persisted == old(persisted)
      ensures CloseOthersStep(old(state), id).Some? ==> state == CloseOthersStep(old(state), id).value && persisted == Some(state)
    {
      var next := CloseOthersStep(state, id);
      if next.None? {
        return;
      }
      state := next.value;
      persisted := Some(state);
    }

    method CloseRightTabs(id: string)
      modifies this
      ensures CloseRightStep(old(state), id).None? ==> state == old(state) && persisted == old(persisted)
      ensures CloseRightStep(old(state), id).Some? ==> state == CloseRightStep(old(state), id).value && persisted == Some(state)
      ensures state.activeTabId == old(state.activeTabId)
    {
      var next := CloseRightStep(state, id);
      if next.None? {
        return;
      }
      state := next.value;
      persisted := Some(state);
    }

    /** `initTabs`: reload from storage; nothing is written. */
    method InitTabs(stored: Option<string>, parse: string -> Option<TabsState>)
      modifies this
      ensures state == LoadInitialState(stored, parse) && persisted == old(persisted)
    {
      state := LoadInitialState(stored, parse);
    }
  }
}
