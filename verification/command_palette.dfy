/** The command palette: the commands it offers (navigation, theme, one per
    remembered account, actions), the search filter, the grouping by
    category, and the keyboard handling of the open flag, the search and the
    selected index. What a command does is described by the effects it asks
    for; running them belongs to the router, the auth store and the page. */
module CommandPalette {
  import opened Wrappers
  import opened Seqs
  import Text
  import Auth
  import Layout

  datatype CommandAction =
    | Navigate(path: string)
    | UseLightTheme
    | UseDarkTheme
    | SwitchToAccount(accountId: string)
    | GlobalSearch
    | SignOut

  /** A command; `caption` is the source's `label`. */
  datatype Command = Command(id: string, caption: string, action: CommandAction, keywords: Option<seq<string>>, category: string)

  /** The effects a command's action asks for, in order. */
  datatype Effect =
    | RouteTo(path: string)
    | RemoveDarkClass
    | AddDarkClass
    | StoreItem(key: string, value: string)
    | SwitchAccount(accountId: string)
    | ReloadPage
    | Logout

  const NavigationCategory := "导航"
  const ThemeCategory := "主题"
  const AccountCategory := "账号"
  const ActionCategory := "操作"

  function NavCommand(id: string, caption: string, path: string, keywords: seq<string>): Command {
    Command(id, caption, Navigate(path), Some(keywords), NavigationCategory)
  }

  const NavigationCommands: seq<Command> := [
    NavCommand("nav-home", "仪表盘", "/", ["dashboard", "home"]),
    NavCommand("nav-users", "用户管理", "/users", ["users", "user management"]),
    NavCommand("nav-analytics", "数据分析", "/analytics", ["analytics", "data"]),
    NavCommand("nav-documents", "文档管理", "/documents", ["documents", "docs"]),
    NavCommand("nav-files", "文件存储", "/files", ["files", "storage"]),
    NavCommand("nav-messages", "消息中心", "/messages", ["messages", "mail"]),
    NavCommand("nav-calendar", "日程安排", "/calendar", ["calendar", "schedule"]),
    NavCommand("nav-accounts", "账号与权限", "/accounts", ["accounts", "permissions"]),
    NavCommand("nav-settings", "系统设置", "/settings", ["settings"])
  ]

  const ThemeCommands: seq<Command> := [
    Command("theme-light", "浅色模式", UseLightTheme, None, ThemeCategory),
    Command("theme-dark", "深色模式", UseDarkTheme, None, ThemeCategory)
  ]

  const ActionCommands: seq<Command> := [
    Command("action-search", "全局搜索", GlobalSearch, Some(["search", "find"]), ActionCategory),
    Command("action-logout", "退出登录", SignOut, Some(["logout", "signout"]), ActionCategory)
  ]

  /** The command that switches to a remembered account. */
  function AccountCommand(account: Auth.Account): Command {
    Command("account-" + account.user.id, "切换为 " + account.user.name, SwitchToAccount(account.user.id),
            Some([account.user.name, account.user.email]), AccountCategory)
  }

  /** One account command per remembered account, in the list's order. */
  function AccountCommands(accounts: seq<Auth.Account>): (r: seq<Command>)
    ensures |r| == |accounts|
    ensures forall k :: 0 <= k < |r| ==> r[k] == AccountCommand(accounts[k])
  {
    seq(|accounts|, k requires 0 <= k < |accounts| => AccountCommand(accounts[k]))
  }

  /** `allCommands`: navigation, theme, account and action commands, in that
      order. */
  function AllCommands(accounts: seq<Auth.Account>): (r: seq<Command>)
    ensures |r| == 13 + |accounts|
    ensures r[..9] == NavigationCommands && r[9..11] == ThemeCommands
    ensures r[11..11 + |accounts|] == AccountCommands(accounts) && r[11 + |accounts|..] == ActionCommands
  {
    NavigationCommands + ThemeCommands + AccountCommands(accounts) + ActionCommands
  }

  /** The effects of running a command's action. An account command switches
      only when its account is not already the active one. The theme commands
      set the `dark` class and write the storage key `theme` directly. */
  function ActionEffects(action: CommandAction, activeAccountId: Option<string>): (r: seq<Effect>)
    ensures action.SwitchToAccount? ==>
      (r == [] <==> activeAccountId == Some(action.accountId))
    ensures action.SwitchToAccount? && r != [] ==> r == [SwitchAccount(action.accountId), ReloadPage]
  {
    match action
    case Navigate(path) => [RouteTo(path)]
    case UseLightTheme => [RemoveDarkClass, StoreItem("theme", "light")]
    case UseDarkTheme => [AddDarkClass, StoreItem("theme", "dark")]
    case SwitchToAccount(id) => if activeAccountId != Some(id) then [SwitchAccount(id), ReloadPage] else []
    case GlobalSearch => []
    case SignOut => [Logout, RouteTo("/login")]
  }

  /** The theme commands do not go through the layout store: they write a key
      the store never reads, so the stored preference is left as it was. */
  lemma ThemeCommandsBypassLayoutStore(activeAccountId: Option<string>)
    ensures StoreItem("theme", "light") in ActionEffects(UseLightTheme, activeAccountId)
    ensures StoreItem("theme", "dark") in ActionEffects(UseDarkTheme, activeAccountId)
    ensures forall e :: e in ActionEffects(UseLightTheme, activeAccountId) + ActionEffects(UseDarkTheme, activeAccountId) ==>
      !e.StoreItem? || e.key != Layout.ThemeKey
  {
  }

  // ---------------------------------------------------------------- filter

  /** Whether a command matches a search: its label or one of its keywords
      contains the search, ignoring case. */
  predicate CommandMatches(cmd: Command, search: string) {
    Text.IncludesIgnoreCase(cmd.caption, search)
    || (cmd.keywords.Some? && exists k :: 0 <= k < |cmd.keywords.value| && Text.IncludesIgnoreCase(cmd.keywords.value[k], search))
  }

  function Matches(search: string): Command -> bool {
    (cmd: Command) => CommandMatches(cmd, search)
  }

  /** `filteredCommands`: every command for an empty search, otherwise the
      matching ones, in order. */
  function FilterCommands(commands: seq<Command>, search: string): (r: seq<Command>)
    ensures search == "" ==> r == commands
    ensures search != "" ==> r == Filter(commands, Matches(search))
    ensures forall c :: c in r <==> c in commands && CommandMatches(c, search)
  {
    if search == "" then
      forall c | c in commands ensures CommandMatches(c, search) {
        Text.IncludesIgnoreCaseEmpty(c.caption);
      }
      commands
    else Filter(commands, Matches(search))
  }

  /** The empty-search shortcut changes nothing: filtering by the empty
      search keeps every command too. */
  lemma EmptySearchKeepsAll(commands: seq<Command>)
    ensures Filter(commands, Matches("")) == FilterCommands(commands, "")
  {
    forall k | 0 <= k < |commands| ensures Matches("")(commands[k]) {
      Text.IncludesIgnoreCaseEmpty(commands[k].caption);
    }
    FilterKeepsAll(commands, Matches(""));
  }

  /** A search finds an account's command by the account's email. */
  lemma AccountFoundByEmail(accounts: seq<Auth.Account>, k: nat, search: string)
    requires k < |accounts| && Text.IncludesIgnoreCase(accounts[k].user.email, search)
    ensures AccountCommand(accounts[k]) in FilterCommands(AllCommands(accounts), search)
  {
    var c := AccountCommand(accounts[k]);
    assert c.keywords.value[1] == accounts[k].user.email;
    assert AllCommands(accounts)[11 + k] == c;
  }

  // ---------------------------------------------------------------- groups

  /** One entry of `groupedCommands`: a category and its commands. */
  datatype Group = Group(category: string, commands: seq<Command>)

  function InCategory(category: string): Command -> bool {
    (c: Command) => c.category == category
  }

  function GroupFor(category: string): Group -> bool {
    (g: Group) => g.category == category
  }

  /** `groups` is a grouping of `commands`: distinct categories, each group
      exactly its category's commands in their order and never empty, and
      a group for every command's category. */
  ghost predicate GroupsOf(commands: seq<Command>, groups: seq<Group>) {
    DistinctCategories(groups) && ExactGroups(commands, groups) && NonEmptyGroups(groups) && CoveringGroups(commands, groups)
  }

  ghost predicate DistinctCategories(groups: seq<Group>) {
    forall i, j :: 0 <= i < j < |groups| ==> groups[i].category != groups[j].category
  }

  ghost predicate ExactGroups(commands: seq<Command>, groups: seq<Group>) {
    forall i :: 0 <= i < |groups| ==> groups[i].commands == Filter(commands, InCategory(groups[i].category))
  }

  ghost predicate NonEmptyGroups(groups: seq<Group>) {
    forall i :: 0 <= i < |groups| ==> groups[i].commands != []
  }

  ghost predicate CoveringGroups(commands: seq<Command>, groups: seq<Group>) {
    forall c :: c in commands ==> exists i :: 0 <= i < |groups| && groups[i].category == c.category
  }

  /** One step of the `reduce` behind `groupedCommands`: the command joins
      the end of its category's group, or opens a new group at the end when
      its category has none yet. */
  function AddCommand(groups: seq<Group>, cmd: Command): seq<Group> {
    match FindIndex(groups, GroupFor(cmd.category))
    case None => groups + [Group(cmd.category, [cmd])]
    case Some(k) => groups[k := Group(cmd.category, groups[k].commands + [cmd])]
  }

  /** `groupedCommands`: the commands folded left to right into groups. */
  function GroupCommands(commands: seq<Command>): seq<Group>
    decreases |commands|
  {
    if commands == [] then []
    else AddCommand(GroupCommands(commands[..|commands| - 1]), commands[|commands| - 1])
  }

  /** The fold yields a grouping: distinct categories, each group exactly its
      category's commands in their order and never empty, and a group for
      every command's category. */
  lemma {:induction false} GroupCommandsIsGrouping(commands: seq<Command>)
    ensures GroupsOf(commands, GroupCommands(commands))
    decreases |commands|
  {
    if commands != [] {
      var n := |commands| - 1;
      var prefix, cmd := commands[..n], commands[n];
      GroupCommandsIsGrouping(prefix);
      var groups := GroupCommands(prefix);
      assert commands == prefix + [cmd];
      match FindIndex(groups, GroupFor(cmd.category)) {
        case None =>
          GroupNew(prefix, cmd, groups);
        case Some(k) =>
          GroupExisting(prefix, cmd, groups, k);
      }
    }
  }

  /** Filtering a grown prefix by a category adds the new command exactly
      when it is of that category. */
  lemma FilterGrows(prefix: seq<Command>, cmd: Command, category: string)
    ensures Filter(prefix + [cmd], InCategory(category)) == Filter(prefix, InCategory(category)) + (if cmd.category == category then [cmd] else [])
  {
    FilterAppend(prefix, [cmd], InCategory(category));
  }

  /** A command of a category not seen yet opens a new group at the end. */
  lemma GroupNew(prefix: seq<Command>, cmd: Command, groups: seq<Group>)
    requires GroupsOf(prefix, groups)
    requires forall i :: 0 <= i < |groups| ==> groups[i].category != cmd.category
    ensures GroupsOf(prefix + [cmd], groups + [Group(cmd.category, [cmd])])
  {
    ExactAfterNew(prefix, cmd, groups);
    CoverAfterNew(prefix, cmd, groups);
  }

  lemma ExactAfterNew(prefix: seq<Command>, cmd: Command, groups: seq<Group>)
    requires ExactGroups(prefix, groups) && CoveringGroups(prefix, groups)
    requires forall i :: 0 <= i < |groups| ==> groups[i].category != cmd.category
    ensures ExactGroups(prefix + [cmd], groups + [Group(cmd.category, [cmd])])
  {
    var next := groups + [Group(cmd.category, [cmd])];
    forall k | 0 <= k < |prefix| ensures !InCategory(cmd.category)(prefix[k]) {
      assert prefix[k] in prefix;
    }
    FilterDropsAll(prefix, InCategory(cmd.category));
    forall i | 0 <= i < |next| ensures next[i].commands == Filter(prefix + [cmd], InCategory(next[i].category)) {
      FilterGrows(prefix, cmd, next[i].category);
    }
  }

  lemma CoverAfterNew(prefix: seq<Command>, cmd: Command, groups: seq<Group>)
    requires CoveringGroups(prefix, groups)
    ensures CoveringGroups(prefix + [cmd], groups + [Group(cmd.category, [cmd])])
  {
    var next := groups + [Group(cmd.category, [cmd])];
    forall c | c in prefix + [cmd] ensures exists i :: 0 <= i < |next| && next[i].category == c.category {
      if c in prefix {
        var i :| 0 <= i < |groups| && groups[i].category == c.category;
        assert next[i] == groups[i];
      } else {
        assert next[|groups|].category == c.category;
      }
    }
  }

  /** A command of a category already seen joins that group at its end. */
  lemma GroupExisting(prefix: seq<Command>, cmd: Command, groups: seq<Group>, k: nat)
    requires GroupsOf(prefix, groups)
    requires k < |groups| && groups[k].category == cmd.category
    ensures GroupsOf(prefix + [cmd], groups[k := Group(cmd.category, groups[k].commands + [cmd])])
  {
    ExactAfterExisting(prefix, cmd, groups, k);
    CoverAfterExisting(prefix, cmd, groups, k);
  }

  lemma ExactAfterExisting(prefix: seq<Command>, cmd: Command, groups: seq<Group>, k: nat)
    requires ExactGroups(prefix, groups) && DistinctCategories(groups)
    requires k < |groups| && groups[k].category == cmd.category
    ensures ExactGroups(prefix + [cmd], groups[k := Group(cmd.category, groups[k].commands + [cmd])])
  {
    var next := groups[k := Group(cmd.category, groups[k].commands + [cmd])];
    forall i | 0 <= i < |next| ensures next[i].commands == Filter(prefix + [cmd], InCategory(next[i].category)) {
      FilterGrows(prefix, cmd, next[i].category);
    }
  }

  lemma CoverAfterExisting(prefix: seq<Command>, cmd: Command, groups: seq<Group>, k: nat)
    requires CoveringGroups(prefix, groups)
    requires k < |groups| && groups[k].category == cmd.category
    ensures CoveringGroups(prefix + [cmd], groups[k := Group(cmd.category, groups[k].commands + [cmd])])
  {
    var next := groups[k := Group(cmd.category, groups[k].commands + [cmd])];
    forall c | c in prefix + [cmd] ensures exists i :: 0 <= i < |next| && next[i].category == c.category {
      if c in prefix {
        var i :| 0 <= i < |groups| && groups[i].category == c.category;
        assert next[i].category == groups[i].category;
      } else {
        assert next[k].category == c.category;
      }
    }
  }

  /** Every command lands in exactly one group: the group of its category. */
  lemma EachCommandInOneGroup(commands: seq<Command>, groups: seq<Group>, c: Command)
    requires GroupsOf(commands, groups) && c in commands
    ensures exists i :: 0 <= i < |groups| && c in groups[i].commands
    ensures forall i :: 0 <= i < |groups| && c in groups[i].commands ==> groups[i].category == c.category
  {
    var i :| 0 <= i < |groups| && groups[i].category == c.category;
    assert c in Filter(commands, InCategory(groups[i].category));
  }

  // ------------------------------------------------------------- selection

  /** ArrowDown: one further, but no further than the last command (so `-1`
      when there is none). */
  function IndexDown(index: int, count: nat): (r: int)
    ensures r <= index + 1 && r <= count - 1
    ensures r == index + 1 || r == count - 1
  {
    if index + 1 < count - 1 then index + 1 else count - 1
  }

  /** ArrowUp: one back, but not before the first. */
  function IndexUp(index: int): (r: int)
    ensures r >= index - 1 && r >= 0
    ensures r == index - 1 || r == 0
  {
    if index - 1 > 0 then index - 1 else 0
  }

  /** From a valid index both arrows keep the index valid; with no commands
      ArrowDown gives -1, where Enter finds nothing. */
  lemma ArrowsKeepIndexInRange(index: int, count: nat)
    ensures 0 <= index < count ==> 0 <= IndexDown(index, count) < count && 0 <= IndexUp(index) < count
    ensures count == 0 && index >= -2 ==> IndexDown(index, count) == -1
    ensures count > 0 ==> IndexUp(IndexDown(count - 1, count)) == (if count >= 2 then count - 2 else 0)
  {
  }

  datatype KeyPress = KeyPress(key: string, metaOrCtrl: bool)

  /** The test `indexOf` applies to each entry. */
  function SameCommand(cmd: Command): Command -> bool {
    c => c == cmd
  }

  /** The palette's state and the commands it is showing. */
  class Palette {
    var open: bool
    var search: string
    var selectedIndex: int
    /** `allCommands` as rendered (they depend on the remembered accounts). */
    var commands: seq<Command>

    constructor (commands: seq<Command>)
      ensures !open && search == "" && selectedIndex == 0 && this.commands == commands
    {
      open, search, selectedIndex := false, "", 0;
      this.commands := commands;
    }

    function Filtered(): seq<Command>
      reads this
    {
      FilterCommands(commands, search)
    }

    /** Typing in the search box. The effect on `search` resets the selection,
        and runs only when the text actually changed. */
    method SetSearch(text: string)
      modifies this
      ensures search == text && open == old(open) && commands == old(commands)
      ensures selectedIndex == if text == old(search) then old(selectedIndex) else 0
    {
      if text != search {
        search := text;
        selectedIndex := 0;
      }
    }

    /** Hovering a listed entry selects its position in the filtered list
        (`filteredCommands.indexOf(cmd)`): the first entry equal to it. */
    method Hover(cmd: Command)
      requires cmd in Filtered()
      modifies this
      ensures 0 <= selectedIndex < |Filtered()| && Filtered()[selectedIndex] == cmd
      ensures forall j :: 0 <= j < selectedIndex ==> Filtered()[j] != cmd
      ensures open == old(open) && search == old(search) && commands == old(commands)
    {
      selectedIndex := FindIndex(Filtered(), SameCommand(cmd)).value;
    }

    /** `executeCommand`: closes the palette and resets the search and the
        selection, then hands the command's action over. */
    method Execute(cmd: Command) returns (action: CommandAction)
      modifies this
      ensures !open && search == "" && selectedIndex == 0 && commands == old(commands)
      ensures action == cmd.action
    {
      open := false;
      search := "";
      selectedIndex := 0;
      action := cmd.action;
    }

    /** The keydown handler. Ctrl/Cmd+K toggles the palette whatever its
        state; while closed nothing else counts; Escape closes and resets;
        the arrows move the selection; Enter runs the selected command when
        there is one at the index. */
    method HandleKeyDown(e: KeyPress) returns (ran: Option<Command>)
      modifies this
      ensures commands == old(commands)
      ensures e.key == "k" && e.metaOrCtrl ==> open == !old(open) && search == old(search) && selectedIndex == old(selectedIndex) && ran.None?
      ensures !(e.key == "k" && e.metaOrCtrl) && !old(open) ==>
        !open && search == old(search) && selectedIndex == old(selectedIndex) && ran.None?
      ensures !(e.key == "k" && e.metaOrCtrl) && old(open) && e.key == "Escape" ==>
        !open && search == "" && selectedIndex == 0 && ran.None?
      ensures !(e.key == "k" && e.metaOrCtrl) && old(open) && e.key == "ArrowDown" ==>
        open && search == old(search) && selectedIndex == IndexDown(old(selectedIndex), |old(Filtered())|) && ran.None?
      ensures !(e.key == "k" && e.metaOrCtrl) && old(open) && e.key == "ArrowUp" ==>
        open && search == old(search) && selectedIndex == IndexUp(old(selectedIndex)) && ran.None?
      ensures !(e.key == "k" && e.metaOrCtrl) && old(open) && e.key == "Enter" ==>
        if 0 <= old(selectedIndex) < |old(Filtered())|
        then ran == Some(old(Filtered())[old(selectedIndex)]) && !open && search == "" && selectedIndex == 0
        else ran.None? && open && search == old(search) && selectedIndex == old(selectedIndex)
      ensures !(e.key == "k" && e.metaOrCtrl) && old(open) && e.key !in {"Escape", "ArrowDown", "ArrowUp", "Enter"} ==>
        open && search == old(search) && selectedIndex == old(selectedIndex) && ran.None?
      ensures ran.Some? ==> ran.value in old(Filtered())
    {
      ran := None;
      if e.key == "k" && e.metaOrCtrl {
        open := !open;
        return;
      }
      if !open {
        return;
      }
      if e.key == "Escape" {
        open := false;
        search := "";
        selectedIndex := 0;
        return;
      }
      var filtered := Filtered();
      if e.key == "ArrowDown" {
        selectedIndex := IndexDown(selectedIndex, |filtered|);
      } else if e.key == "ArrowUp" {
        selectedIndex := IndexUp(selectedIndex);
      }
      if e.key == "Enter" && 0 <= selectedIndex < |filtered| {
        var cmd := filtered[selectedIndex];
        var _ := Execute(cmd);
        ran := Some(cmd);
      }
    }
  }
}
