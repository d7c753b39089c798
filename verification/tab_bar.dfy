/** The tab bar's logic: resolving a path to a title and an icon, keeping the
    tab store in step with the current route, and the close actions of the
    tab buttons and the context menu. A call of the router's `route(p)` is
    returned as `Some(p)`. */
module TabBar {
  import opened Wrappers
  import opened Seqs
  import opened Text
  import opened Tabs

  /** The icons the bar knows, by their component name. */
  datatype Icon = Home | Users | Settings | FileText

  /** The `displayName` of an icon component. */
  function DisplayName(icon: Icon): string {
    match icon
    case Home => "Home"
    case Users => "Users"
    case Settings => "Settings"
    case FileText => "FileText"
  }

  /** `pathTitles`, in declaration order. */
  const PathTitles: seq<(string, string)> := [
    ("/", "首页"),
    ("/users", "用户管理"),
    ("/accounts", "账号与权限"),
    ("/analytics", "数据分析"),
    ("/settings", "系统设置"),
    ("/documents", "文档管理"),
    ("/files", "文件管理"),
    ("/messages", "消息中心"),
    ("/calendar", "日程管理"),
    ("/notifications", "通知中心"),
    ("/profile", "个人资料"),
    ("/docs", "帮助文档")
  ]

  /** `pathIcons`, in declaration order. */
  const PathIcons: seq<(string, Icon)> := [
    ("/", Home),
    ("/users", Users),
    ("/settings", Settings),
    ("/documents", FileText)
  ]

  const NewPageTitle := "新页面"

  /** `path === key || path.startsWith(`${key}/`)`. */
  predicate Matches(path: string, key: string) {
    path == key || StartsWith(path, key + "/")
  }

  function KeyMatches<V>(path: string): ((string, V)) -> bool {
    (e: (string, V)) => Matches(path, e.0)
  }

  /** No entry before index i matches the path. */
  predicate FirstMatching<V>(table: seq<(string, V)>, path: string, i: int) {
    forall j :: 0 <= j < i && j < |table| ==> !Matches(path, table[j].0)
  }

  /** `Object.entries(table).find(([key]) => ...)`: the value of the first
      entry whose key matches the path. */
  function FirstMatch<V>(table: seq<(string, V)>, path: string): (r: Option<V>)
    ensures r.None? <==> forall i :: 0 <= i < |table| ==> !Matches(path, table[i].0)
    ensures forall i :: 0 <= i < |table| && Matches(path, table[i].0) && FirstMatching(table, path, i) ==> r == Some(table[i].1)
  {
    match FindIndex(table, KeyMatches(path))
    case None => None
    case Some(k) => Some(table[k].1)
  }

  /** `resolveTitle`: the title of the first matching entry; otherwise the last
      `/`-segment of the path, or `'新页面'` when that is empty. */
  function ResolveTitle(path: string): string {
    match FirstMatch(PathTitles, path)
    case Some(title) => title
    case None =>
      var last := LastPiece(path, '/');
      if last != "" then last else NewPageTitle
  }

  /** `resolveIcon`: the icon of the first matching entry, `Home` otherwise. */
  function ResolveIcon(path: string): (r: Icon)
    ensures (forall i :: 0 <= i < |PathIcons| ==> !Matches(path, PathIcons[i].0)) ==> r == Home
  {
    FirstMatch(PathIcons, path).GetOr(Home)
  }

  /** A path with a known prefix gets the title of the first entry in
      declaration order that matches it. */
  lemma ResolveTitleFirstMatch(path: string, i: nat)
    requires i < |PathTitles| && Matches(path, PathTitles[i].0)
    requires FirstMatching(PathTitles, path, i)
    ensures ResolveTitle(path) == PathTitles[i].1
  {
  }

  /** A path no entry matches is titled by the text after its last `/`, and
      by `'新页面'` when that text is empty. */
  lemma ResolveTitleFallback(path: string)
    requires forall i :: 0 <= i < |PathTitles| ==> !Matches(path, PathTitles[i].0)
    ensures LastPiece(path, '/') != "" ==> ResolveTitle(path) == LastPiece(path, '/')
    ensures LastPiece(path, '/') == "" ==> ResolveTitle(path) == NewPageTitle
  {
    assert FirstMatch(PathTitles, path).None?;
  }

  /** Sub-paths take the title of their section; other paths their last segment. */
  lemma ResolveTitleExamples()
    ensures ResolveTitle("/users/42") == "用户管理"
    ensures ResolveTitle("/") == "首页"
  {
    assert !Matches("/users/42", "/") by {
      assert "/users/42"[..2][1] == 'u';
    }
    assert Matches("/users/42", "/users") by {
      assert "/users/42"[..7] == "/users/";
    }
    ResolveTitleFirstMatch("/users/42", 1);
    ResolveTitleFirstMatch("/", 0);
  }

  // ------------------------------------------------------------- route sync

  /** The tab a route change adds: the resolved title and icon, closable. */
  function RouteDraft(path: string): TabDraft {
    TabDraft(ResolveTitle(path), path, Some(DisplayName(ResolveIcon(path))), None)
  }

  /** The state the route-sync effect leaves for a path: nothing changes for an
      empty path; the tab open on the path is activated and, if its title
      differs from the resolved one, retitled; otherwise a tab is added. */
  function RouteSync(s: TabsState, path: string, freshId: string): TabsState {
    if path == "" then s
    else
      match Find(s.tabs, HasPath(path))
      case Some(existing) =>
        var activated := SetActiveStep(s, existing.id).GetOr(s);
        if existing.title != ResolveTitle(path) then
          UpdateStep(activated, existing.id, TabPatch(None, Some(ResolveTitle(path)), None, None, None))
        else activated
      case None => AddStep(s, RouteDraft(path), freshId).0
  }

  /** Route sync for a path that has a tab: that tab ends up active and
      carrying the resolved title, the invariants hold, nothing is added and
      every other tab is left as it was. */
  lemma RouteSyncExisting(s: TabsState, path: string, freshId: string, k: nat)
    requires WellFormed(s) && path != "" && k < |s.tabs| && s.tabs[k].path == path
    ensures var r := RouteSync(s, path, freshId);
      && WellFormed(r) && |r.tabs| == |s.tabs|
      && r.tabs[k].path == path && r.activeTabId == Some(r.tabs[k].id) && r.tabs[k].title == ResolveTitle(path)
      && forall i :: 0 <= i < |s.tabs| && i != k ==> r.tabs[i] == s.tabs[i]
  {
    var found := Find(s.tabs, HasPath(path));
    var j :| 0 <= j < |s.tabs| && s.tabs[j] == found.value;
    UniqueByIndex(s.tabs, TabPath, j, k);
    var s1 := SetActiveStep(s, s.tabs[k].id).value;
    SetActivePreserves(s, s.tabs[k].id);
    if s.tabs[k].title != ResolveTitle(path) {
      RetitlePreserves(s1, s.tabs[k].id, ResolveTitle(path));
      RetitleKeepsOthers(s1, k, ResolveTitle(path));
    }
  }

  /** With unique ids, retitling tab k leaves every other tab as it was. */
  lemma RetitleKeepsOthers(s: TabsState, k: nat, title: string)
    requires UniqueBy(s.tabs, TabId) && k < |s.tabs|
    ensures var r := UpdateStep(s, s.tabs[k].id, TabPatch(None, Some(title), None, None, None));
      forall i :: 0 <= i < |s.tabs| && i != k ==> r.tabs[i] == s.tabs[i]
  {
    forall i | 0 <= i < |s.tabs| && i != k ensures s.tabs[i].id != s.tabs[k].id {
      if s.tabs[i].id == s.tabs[k].id {
        UniqueByIndex(s.tabs, TabId, i, k);
      }
    }
  }

  /** Route sync for a path with no tab appends one tab for it, active, with
      the resolved title; with a fresh id the invariants hold. */
  lemma RouteSyncNew(s: TabsState, path: string, freshId: string)
    requires WellFormed(s) && path != ""
    requires forall i :: 0 <= i < |s.tabs| ==> s.tabs[i].path != path
    requires forall i :: 0 <= i < |s.tabs| ==> s.tabs[i].id != freshId
    ensures var r := RouteSync(s, path, freshId);
      && WellFormed(r) && r.tabs == s.tabs + [NewTab(RouteDraft(path), freshId)]
      && r.activeTabId == Some(freshId)
  {
    AddTabAppends(s, RouteDraft(path), freshId);
    AddTabPreserves(s, RouteDraft(path), freshId);
  }

  /** The route-sync effect of the bar, driving the store. */
  method SyncRoute(store: TabStore, currentPath: string, freshId: string)
    modifies store
    ensures store.state == RouteSync(old(store.state), currentPath, freshId)
    ensures currentPath != "" ==> store.persisted == Some(store.state)
    ensures currentPath == "" ==> store.persisted == old(store.persisted)
  {
    if currentPath != "" {
      var existingTab := store.GetTabByPath(currentPath);
      var title := ResolveTitle(currentPath);
      if existingTab.Some? {
        store.SetActiveTab(existingTab.value.id);
        if existingTab.value.title != title {
          store.UpdateTab(existingTab.value.id, TabPatch(None, Some(title), None, None, None));
        }
      } else {
        var _ := store.AddTab(RouteDraft(currentPath), freshId);
      }
    }
  }

  // ---------------------------------------------------------- tab actions

  /** `tabs.value[i]`, absent outside the list. */
  function TabAt(tabs: seq<Tab>, i: int): (r: Option<Tab>)
    ensures r.Some? <==> 0 <= i < |tabs|
  {
    if 0 <= i < |tabs| then Some(tabs[i]) else None
  }

  /** What `handleCloseTab` navigates to, given the state before the click: it
      removes the tab, then reads the store again; only if the (new) active id
      is still the closed tab's id does it route to the tab after the closed
      tab's old index, or failing that the one before. */
  function CloseTabNavigation(s: TabsState, tab: Tab): Option<string> {
    if tab.closable == Some(false) then None
    else
      var currentIndex: int := match FindIndex(s.tabs, HasId(tab.id)) case Some(k) => k case None => -1;
      var after := RemoveStep(s, tab.id).GetOr(s);
      if Some(tab.id) != after.activeTabId then None
      else
        var next := match TabAt(after.tabs, currentIndex + 1) case Some(t) => Some(t) case None => TabAt(after.tabs, currentIndex - 1);
        match next
        case Some(t) => Some(t.path)
        case None => None
  }

  /** `handleCloseTab`. */
  method HandleCloseTab(store: TabStore, tab: Tab) returns (navigate: Option<string>)
    modifies store
    ensures tab.closable == Some(false) ==> store.state == old(store.state)
    ensures tab.closable != Some(false) ==> store.state == RemoveStep(old(store.state), tab.id).GetOr(old(store.state))
    ensures tab.closable == Some(false) || RemoveStep(old(store.state), tab.id).None? ==> store.persisted == old(store.persisted)
    ensures tab.closable != Some(false) && RemoveStep(old(store.state), tab.id).Some? ==> store.persisted == Some(store.state)
    ensures navigate == CloseTabNavigation(old(store.state), tab)
  {
    if tab.closable == Some(false) {
      return None;
    }
    var currentIndex: int := match FindIndex(store.state.tabs, HasId(tab.id)) case Some(k) => k case None => -1;
    store.RemoveTab(tab.id);
    navigate := None;
    if Some(tab.id) == store.ActiveTabId() {
      var next := TabAt(store.Tabs(), currentIndex + 1);
      if next.None? {
        next := TabAt(store.Tabs(), currentIndex - 1);
      }
      if next.Some? {
        navigate := Some(next.value.path);
      }
    }
  }

  /** Once `removeTab` has really closed the tab, no tab with its id remains
      and the active id has moved off it, so `handleCloseTab` never
      navigates after a successful close. */
  lemma NoNavigationAfterEffectiveClose(s: TabsState, tab: Tab)
    requires RemoveStep(s, tab.id).Some?
    ensures CloseTabNavigation(s, tab).None?
  {
    var after := RemoveStep(s, tab.id).value;
    var newTabs := Filter(s.tabs, NotId(tab.id));
    assert after.tabs == newTabs;
    if s.activeTabId == Some(tab.id) {
      var ci := FindIndex(s.tabs, HasId(tab.id)).value;
      var a := NextActive(newTabs, ci);
      assert a.Some? ==> exists j :: 0 <= j < |newTabs| && newTabs[j].id == a.value;
      if a.Some? {
        var j :| 0 <= j < |newTabs| && newTabs[j].id == a.value;
        assert NotId(tab.id)(newTabs[j]);
      }
    }
  }

  /** When the active id names a tab already closed by `closeRightTabs`, the
      close button of a stale tab with that id navigates to the first tab. */
  lemma StaleCloseNavigates()
    ensures CloseTabNavigation(TabsState([HomeTab], Some("tab-1")), UsersTab) == Some("/")
  {
    var s := TabsState([HomeTab], Some("tab-1"));
    assert RemoveStep(s, UsersTab.id).None? by {
      assert forall i :: 0 <= i < |s.tabs| ==> s.tabs[i].id != UsersTab.id;
    }
    assert FindIndex(s.tabs, HasId(UsersTab.id)).None?;
    assert TabAt(s.tabs, 0) == Some(HomeTab);
  }

  /** `handleTabClick`: activate the tab, and route to it unless already there. */
  method HandleTabClick(store: TabStore, tab: Tab, currentPath: string) returns (navigate: Option<string>)
    modifies store
    ensures store.state == SetActiveStep(old(store.state), tab.id).GetOr(old(store.state))
    ensures store.persisted == if SetActiveStep(old(store.state), tab.id).Some? then Some(store.state) else old(store.persisted)
    ensures navigate == if currentPath != tab.path then Some(tab.path) else None
  {
    store.SetActiveTab(tab.id);
    navigate := if currentPath != tab.path then Some(tab.path) else None;
  }

  /** `handleCloseOthers` on the tab of the context menu, if any: close the
      others and route to the kept tab. */
  method HandleCloseOthers(store: TabStore, menuTab: Option<Tab>) returns (navigate: Option<string>)
    modifies store
    ensures menuTab.None? ==> store.state == old(store.state) && navigate.None?
    ensures menuTab.Some? ==> store.state == CloseOthersStep(old(store.state), menuTab.value.id).GetOr(old(store.state))
    ensures menuTab.Some? ==> navigate == Some(menuTab.value.path)
    ensures store.persisted == if menuTab.Some? && CloseOthersStep(old(store.state), menuTab.value.id).Some?
                               then Some(store.state) else old(store.persisted)
  {
    navigate := None;
    if menuTab.Some? {
      store.CloseOtherTabs(menuTab.value.id);
      navigate := Some(menuTab.value.path);
    }
  }

  /** `handleCloseRight` on the tab of the context menu, if any. */
  method HandleCloseRight(store: TabStore, menuTab: Option<Tab>)
    modifies store
    ensures menuTab.None? ==> store.state == old(store.state)
    ensures menuTab.Some? ==> store.state == CloseRightStep(old(store.state), menuTab.value.id).GetOr(old(store.state))
    ensures store.persisted == if menuTab.Some? && CloseRightStep(old(store.state), menuTab.value.id).Some?
                               then Some(store.state) else old(store.persisted)
  {
    if menuTab.Some? {
      store.CloseRightTabs(menuTab.value.id);
    }
  }

  /** `handleCloseAll`: reset to the home tab and route to `/`. */
  method HandleCloseAll(store: TabStore) returns (navigate: string)
    modifies store
    ensures store.state == DefaultState && store.persisted == Some(DefaultState) && navigate == "/"
  {
    store.ClearTabs();
    navigate := "/";
  }

  /** The bar renders only when more than one tab is open. */
  predicate BarVisible(s: TabsState) {
    |s.tabs| > 1
  }

  /** The bar is hidden after closing all tabs and shown as soon as a tab for
      a path other than the home tab's is opened. */
  lemma BarVisibility(s: TabsState, draft: TabDraft, freshId: string)
    requires WellFormed(s) && draft.path != HomeTab.path
    ensures !BarVisible(DefaultState)
    ensures BarVisible(AddStep(s, draft, freshId).0)
  {
    match Find(s.tabs, HasPath(draft.path))
    case Some(existing) =>
      var k :| 0 <= k < |s.tabs| && s.tabs[k] == existing;
      assert k != 0;
    case None =>
  }
}
