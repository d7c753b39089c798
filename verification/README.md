# HaloLight admin UI — a verified model of its state logic

HaloLight (Preact edition) is a single-page admin dashboard. Most of it is
rendering. Under the rendering sits a layer of synchronous, in-memory logic,
and this project models that layer in Dafny and proves what it promises:

- **Tab session store.** An ordered list of open tabs and an active id,
  written through to storage after every change.
- **Tab bar.** The title and icon resolver, the route-sync step that drives
  the tab store, and the close handlers.
- **Keep-alive cache.** Per-page records, and the form and named-state
  caches built on them.
- **Dashboard store.** Widgets and their grid layouts.
- **Authentication store.** The session, the remembered accounts, and login,
  logout, account switching and account removal.
- **Layout preferences.** The sidebars, the footer and the light/dark/system
  theme.
- **Logic inside the pages.** The calendar's 42-cell month grid and event
  lists; the command palette's filter, category grouping and keyboard
  handling; the list filters, counts and list edits of the messages, users,
  files and security pages; the ordered form checks of registration and
  password reset; the route guards.

Each store or page whose source updates state in place is a `class` with
those fields, and its methods state the whole new state. Where a store
writes to `localStorage`, the class keeps a ghost snapshot of what storage
holds and the methods state it too. Pure code (resolvers, filters, tables,
validators, guards) is written as functions, with lemmas for the
properties.

The following become parameters: generated ids, the current time, the
operating-system colour preference, the window width, and whatever storage
returns. Parsing a stored string is an abstract `string -> Option<T>`.
Comparing ISO date-times is an abstract `string -> int` instant.

Modules and their files:

- `Wrappers`, `Seqs`, `Text` and `Values` are shared helpers: option and
  result types; filter, count, find and sort; ASCII case mapping, `includes`,
  `split`, `join`, `trim` and decimal printing; JavaScript records and
  spread.
- `Tabs` (`tabs.dfy`) and `TabBar` (`tab_bar.dfy`).
- `KeepAlive` (`keep_alive.dfy`).
- `Dashboard` (`dashboard.dfy`).
- `Auth` (`auth.dfy`) and `Utils` (`utils.dfy`).
- `Layout` (`layout.dfy`).
- `CalendarView`, `CommandPalette`, `MessagesView`, `UsersView`,
  `FilesView`, `SecurityView`, `RegisterView`, `ResetPasswordView`, `App`:
  one file each.

Behaviour of the code that is kept as it is:

- `closeRightTabs` never moves the active id, so the active id can name a
  tab that is gone (`Tabs.CloseRightCanOrphanActive`).
- `closeRightTabs` drops tabs with `includes`, which compares objects. Every
  entry of the tab list is its own object, so `Tabs.CloseRightStep` drops
  the closable entries by position. This differs from a comparison by value
  only when two entries are equal, which unique ids rule out
  (`Tabs.CloseRightByPosition`).
- `updateTab` checks nothing, so it can break path uniqueness and unpin the
  home tab (`Tabs.UpdateCanBreakInvariants`). The invariants are therefore
  proved for the updates the application performs: retitling
  (`Tabs.ReachableStates`).
- The tab bar's close handler reads the active id after `removeTab` has
  already moved it. Its navigation never fires after an effective close
  (`TabBar.NoNavigationAfterEffectiveClose`), and it fires only for a stale
  active id (`TabBar.StaleCloseNavigates`).
- `addWidget` never consults `isWidgetTypeAvailable`
  (`Dashboard.AddWidgetAllowsDuplicates`).
- The `initials` signal of the auth store gives `""` for a user with an
  empty name, where `getInitials` gives `HL`
  (`Auth.InitialsAgreeWithGetInitials`).
- The theme commands of the command palette write the storage key `theme`,
  which the layout store never reads. They set the `dark` class directly
  (`CommandPalette.ThemeCommandsBypassLayoutStore`).
- The security page's search is case-sensitive, unlike the other pages'
  searches (`SecurityView.SearchIsCaseSensitive`).

## Model

| member | source | states |
|---|---|---|
| Tabs.LoadInitialState | src/stores/tabs.ts:26-32 | nothing stored gives the home tab alone, active; a stored, parsable state is adopted as it is |
| Tabs.NewTab | src/stores/tabs.ts:63-67 | the new tab takes the fresh id and the caller's title, path and icon, and is closable unless the caller passed `false` |
| Tabs.RemoveStep | src/stores/tabs.ts:81-106 | removal returns early exactly when no tab has the id or that tab is pinned |
| Tabs.SetActiveStep | src/stores/tabs.ts:111-120 | activation happens only when a tab has the id, and changes the active id alone |
| Tabs.CloseOthersStep | src/stores/tabs.ts:162-174 | closing the others returns early exactly when no tab has the id |
| Tabs.CloseRightStep | src/stores/tabs.ts:179-192 | closing to the right returns early exactly when no tab has the id, and never changes the active id |
| Tabs.DefaultStateWellFormed | src/stores/tabs.ts:18-30 | the default state has unique ids and paths, the pinned home tab first, and a live active id |
| Tabs.AddTabActivatesExisting | src/stores/tabs.ts:53-61 | with a tab already on the path, adding leaves the tabs unchanged, returns that tab's id and activates it |
| Tabs.AddTabAppends | src/stores/tabs.ts:63-75 | with no tab on the path, adding appends exactly the new tab at the end, returns its id and activates it |
| Tabs.AddTabPreserves | src/stores/tabs.ts:49-76 | adding with a fresh id keeps ids and paths unique and the home tab first and pinned, and leaves a live active id |
| Tabs.RemoveDropsExactlyOne | src/stores/tabs.ts:88 | with unique ids, the removal filter drops exactly the tab at the id's index and keeps the rest in order |
| Tabs.RemoveTabEffect | src/stores/tabs.ts:88-104 | removing a closable tab keeps the others in order; the active id moves only if that tab was active: to the previous tab (or the first, if the previous id is empty), to the new first tab when the first was closed, or to none |
| Tabs.RemoveTabNoOp | src/stores/tabs.ts:85-86 | an absent id or a pinned tab leaves nothing to write |
| Tabs.RemoveTabPreserves | src/stores/tabs.ts:81-106 | removal keeps every invariant and a live active id stays live |
| Tabs.SetActivePreserves | src/stores/tabs.ts:111-120 | activation keeps every invariant and leaves a live active id |
| Tabs.CloseOthersEffect | src/stores/tabs.ts:167-171 | closing the others keeps exactly the target and the pinned tabs, in their original order, and activates the target |
| Tabs.CloseOthersPreserves | src/stores/tabs.ts:162-174 | closing the others keeps every invariant and leaves the target active |
| Tabs.CloseRightByPosition | src/stores/tabs.ts:184-185 | with unique ids, dropping the tabs equal by value to a closable tab right of index k gives the same list as dropping those positions, so comparing tabs by value or by identity agree |
| Tabs.CloseRightEffect | src/stores/tabs.ts:181-190 | closing to the right of tab k keeps the tabs up to k and the pinned tabs after it, leaves the active id as it was and keeps the invariants |
| Tabs.CloseRightCanOrphanActive | src/stores/tabs.ts:187-190 | a concrete state where closing to the right leaves the active id naming a closed tab |
| Tabs.RetitlePreserves | src/stores/tabs.ts:125-132 | changing only a title keeps every invariant and the active id |
| Tabs.UpdateCanBreakInvariants | src/stores/tabs.ts:125-132 | a concrete patch that gives two tabs the same path and unpins the home tab |
| Tabs.ClearTabsResets | src/stores/tabs.ts:137-143 | clearing leaves exactly the home tab, active, a well-formed state |
| Tabs.ApplyPreserves | src/stores/tabs.ts:49-192 | every operation the application performs keeps the invariants, and all but close-right keep the active id live |
| Tabs.ReachableStates | src/stores/tabs.ts:26-200 | every state reached by a run of those operations with fresh ids is well-formed, and live when the run has no close-right |
| Tabs.TabStore.constructor | src/stores/tabs.ts:35 | the store starts from the loaded state with nothing written |
| Tabs.TabStore.GetTab | src/stores/tabs.ts:148-150 | the first tab with the id (no earlier tab has it), or none exactly when no tab has it |
| Tabs.TabStore.GetTabByPath | src/stores/tabs.ts:155-157 | the first tab on the path (no earlier tab is on it), or none exactly when no tab is on it |
| Tabs.TabStore.AddTab | src/stores/tabs.ts:49-76 | the new state and the returned id are the add step's, and the state is persisted |
| Tabs.TabStore.RemoveTab | src/stores/tabs.ts:81-106 | the early return writes nothing; otherwise the state is the removal step's and is persisted |
| Tabs.TabStore.SetActiveTab | src/stores/tabs.ts:111-120 | an unknown id writes nothing; otherwise only the active id changes, and it is persisted |
| Tabs.TabStore.UpdateTab | src/stores/tabs.ts:125-132 | every tab with the id is shallow-merged with the patch, and the state is persisted |
| Tabs.TabStore.ClearTabs | src/stores/tabs.ts:137-143 | the state and storage hold the home tab alone, active |
| Tabs.TabStore.CloseOtherTabs | src/stores/tabs.ts:162-174 | an unknown id writes nothing; otherwise the close-others state is set and persisted |
| Tabs.TabStore.CloseRightTabs | src/stores/tabs.ts:179-192 | an unknown id writes nothing; otherwise the close-right state is set and persisted, with the active id unchanged |
| Tabs.TabStore.InitTabs | src/stores/tabs.ts:197-200 | the state is reloaded from storage and nothing is written |
| TabBar.FirstMatch | src/components/common/TabBar.tsx:58-60 | none exactly when no key matches the path; otherwise the value of the first matching entry in declaration order |
| TabBar.ResolveIcon | src/components/common/TabBar.tsx:65-70 | the `Home` icon when no key of the icon table matches the path |
| TabBar.ResolveTitleFirstMatch | src/components/common/TabBar.tsx:58-61 | a path matched first by entry i (equal to its key, or the key followed by `/`) gets that entry's title |
| TabBar.ResolveTitleFallback | src/components/common/TabBar.tsx:62 | an unmatched path gets its last `/` segment, or `新页面` when that segment is empty |
| TabBar.ResolveTitleExamples | src/components/common/TabBar.tsx:35-62 | `/users/42` is titled 用户管理 by prefix, and `/` is titled 首页 |
| TabBar.RouteSyncExisting | src/components/common/TabBar.tsx:114-124 | for a path with a tab, that tab ends up active with the resolved title, nothing is added, every other tab is unchanged and the invariants hold |
| TabBar.RouteSyncNew | src/components/common/TabBar.tsx:125-126 | for a path without a tab, exactly one tab with the resolved title is appended and activated, and the invariants hold |
| TabBar.SyncRoute | src/components/common/TabBar.tsx:114-127 | the effect's sequence of store calls leaves exactly the route-sync state; for a non-empty path storage then holds that state, for an empty one storage is untouched |
| TabBar.HandleCloseTab | src/components/common/TabBar.tsx:176-190 | a pinned tab changes nothing; otherwise the tab is removed, and storage holds the new state exactly when the removal took place (otherwise it is untouched); the navigation is read after the removal |
| TabBar.NoNavigationAfterEffectiveClose | src/components/common/TabBar.tsx:181-188 | once a removal really happened, the close handler never navigates |
| TabBar.StaleCloseNavigates | src/components/common/TabBar.tsx:181-188 | a concrete stale active id under which the close handler does navigate |
| TabBar.HandleTabClick | src/components/common/TabBar.tsx:169-174 | the tab is activated and, when its id is known, the new state is stored (otherwise storage is untouched); it is routed to only when it is not the current path |
| TabBar.HandleCloseOthers | src/components/common/TabBar.tsx:202-207 | with a menu tab, the others are closed, storage holds the new state when the id is known, and the browser goes to the kept tab's path; without one nothing happens, in state or storage |
| TabBar.HandleCloseRight | src/components/common/TabBar.tsx:209-213 | with a menu tab, the tabs to its right are closed and storage holds the new state when the id is known; without one nothing happens, in state or storage |
| TabBar.HandleCloseAll | src/components/common/TabBar.tsx:215-218 | the tabs reset to the home tab, storage holds that default state, and the browser goes to `/` |
| TabBar.BarVisibility | src/components/common/TabBar.tsx:220 | the bar is hidden with the home tab alone, and shown once a tab for any other path is opened |
| KeepAlive.SetOnAbsentKey | src/lib/keep-alive.ts:27-28 | a new key starts from scroll position 0 and no cached data, takes the patch's fields, and is stamped with the current time |
| KeepAlive.SetMergesShallowly | src/lib/keep-alive.ts:27-28 | fields the patch leaves out keep their old values, given ones replace them, and the timestamp is always the current time |
| KeepAlive.SetTouchesOneKey | src/lib/keep-alive.ts:26-29 | writing a key leaves every other entry unchanged |
| KeepAlive.ScrollRoundTrip | src/lib/keep-alive.ts:25-37 | the scroll position written for a key is the one read back |
| KeepAlive.CacheKey | src/lib/keep-alive.ts:109 | the key is the path, a colon, then the name |
| KeepAlive.FirstColonEndsPath | src/lib/keep-alive.ts:109 | for a path without a colon, the first colon of the key sits right after the path |
| KeepAlive.CacheKeyInjective | src/lib/keep-alive.ts:109 | for paths without a colon, equal keys mean equal paths and names |
| KeepAlive.CachedFormValues | src/lib/keep-alive.ts:112-118 | the cached form data when present, otherwise the initial values |
| KeepAlive.CachedStateValue | src/lib/keep-alive.ts:158-164 | the stored custom value under the name whenever it is present and not `undefined`, otherwise the initial value; so a result other than the initial value is always a stored, defined value |
| KeepAlive.FormRoundTrip | src/lib/keep-alive.ts:112-125 | saved form values are what the form cache reads back |
| KeepAlive.StateRoundTrip | src/lib/keep-alive.ts:158-176 | a named value written is read back unless it is undefined, and the other names are kept |
| KeepAlive.PageCache.constructor | src/lib/keep-alive.ts:19 | the cache starts empty |
| KeepAlive.PageCache.GetPageState | src/lib/keep-alive.ts:35-37 | the entry is present exactly when the key is in the cache, and is its record |
| KeepAlive.PageCache.SetPageState | src/lib/keep-alive.ts:25-30 | the cache becomes the merge of the patch under the key |
| KeepAlive.PageCache.ClearPageState | src/lib/keep-alive.ts:42-46 | the key is gone and every other entry stays |
| KeepAlive.PageCache.ClearAllCache | src/lib/keep-alive.ts:51-53 | the cache is empty |
| KeepAlive.PageCache.SaveFormValues | src/lib/keep-alive.ts:120-126 | the form data is written under `path:formKey`; only the cache changes |
| KeepAlive.PageCache.ClearFormCache | src/lib/keep-alive.ts:138-142 | the form's key is dropped from the cache |
| KeepAlive.PageCache.SetStateValue | src/lib/keep-alive.ts:169-179 | the name's value is merged into the stored custom state under `path:key` |
| Dashboard.TablesConsistent | src/stores/dashboard.ts:146-231 | for every widget type: a non-empty title, minimum width ≤ default width ≤ 12 and minimum height ≤ default height |
| Dashboard.AllTypesListed | src/stores/dashboard.ts:6-16 | every widget type appears in the type list exactly once |
| Dashboard.DefaultsPaired | src/stores/dashboard.ts:19-34 | the five default widgets and layouts pair up by id, position by position |
| Dashboard.MaxBottom | src/stores/dashboard.ts:57 | the lowest bottom edge: at least every layout's y + h, reached by one of them, 0 when there are none |
| Dashboard.NewWidget | src/stores/dashboard.ts:49-55 | the fresh id, the type and config, and the caller's title unless it is absent or empty, then the type's default title |
| Dashboard.NewLayout | src/stores/dashboard.ts:57-67 | column 0, a row at or below every existing bottom edge, and the type's default and minimum sizes |
| Dashboard.NewLayoutBelowAll | src/stores/dashboard.ts:57-60 | the new item overlaps no existing item |
| Dashboard.AddWidgetAllowsDuplicates | src/stores/dashboard.ts:45-72 | adding a type already on the dashboard yields two widgets of that type |
| Dashboard.UsedWidgetTypes | src/stores/dashboard.ts:270-272 | the type of every widget, in order |
| Dashboard.UnusedWidgetTypes | src/stores/dashboard.ts:277-280 | the type list without the used types, in list order; a type is in it exactly when it is available |
| Dashboard.DashboardStore.constructor | src/stores/dashboard.ts:37-40 | both lists read from storage with the defaults as fallback; editing off |
| Dashboard.DashboardStore.AddWidget | src/stores/dashboard.ts:45-72 | one widget and one layout appended, sharing the fresh id; both persisted |
| Dashboard.DashboardStore.RemoveWidget | src/stores/dashboard.ts:77-81 | every widget and layout with the id goes and nothing else; persisted |
| Dashboard.DashboardStore.UpdateWidgetTitle | src/stores/dashboard.ts:86-91 | only the widgets with the id change, and only their title |
| Dashboard.DashboardStore.UpdateWidgetConfig | src/stores/dashboard.ts:96-101 | only the widgets with the id change: their config becomes the old one shallow-merged with the new keys |
| Dashboard.DashboardStore.SetLayouts | src/stores/dashboard.ts:106-109 | the layouts are replaced and persisted with the widgets |
| Dashboard.DashboardStore.GetLayoutForWidget | src/stores/dashboard.ts:114-116 | the first layout with the id (no earlier layout has it), or none exactly when no layout has it |
| Dashboard.DashboardStore.ResetToDefault | src/stores/dashboard.ts:121-126 | the default widgets and layouts, editing off, persisted |
| Dashboard.DashboardStore.ToggleEditing | src/stores/dashboard.ts:131-133 | the flag flips and nothing else changes |
| Dashboard.DashboardStore.InitDashboard | src/stores/dashboard.ts:236-244 | each list, independently, becomes the default when empty and is left alone otherwise |
| Dashboard.DashboardStore.CleanupDashboard | src/stores/dashboard.ts:249-251 | editing ends and nothing else changes |
| Utils.HeadsOfSplit | src/lib/utils.ts:55-58 | the first characters of the space-separated parts are exactly the word starts, so empty parts contribute nothing |
| Utils.Take | src/lib/utils.ts:59 | a prefix of at most n characters, exactly n when the text is that long |
| Utils.Abbreviate | src/lib/utils.ts:55-60 | at most two characters: the upper-cased first two word starts |
| Utils.GetInitials | src/lib/utils.ts:53-61 | `HL` for the empty name; otherwise at most two characters, the upper-cased starts of the first two words |
| Utils.InitialsIgnoreExtraSpaces | src/lib/utils.ts:55-60 | leading and repeated spaces add nothing: ` ab  cd` gives `AC` |
| Utils.InitialsOfFirstTwoWords | src/lib/utils.ts:55-60 | only the first two words count, and a blank name gives `""` |
| Utils.GetLocalStorageItem | src/lib/utils.ts:136-144 | the default when the key is missing, the stored string is empty or parsing fails; otherwise the parsed value |
| Utils.StorageRoundTrip | src/lib/utils.ts:136-155 | a value written is read back unchanged whenever parsing inverts serialisation and the text is non-empty. JSON is abstract, so that inversion is the hypothesis; the lemma only shows the read takes the parsed branch |
| Values.Spread | src/stores/dashboard.ts:98 | every property of either record; the override's value where it has the property, the base's otherwise |
| Auth.CheckAuth | src/stores/auth.ts:206-208 | a session holds exactly when there is a token and a user |
| Auth.Initials | src/stores/auth.ts:21-29 | `HL` without a user, at most two characters otherwise |
| Auth.InitialsAgreeWithGetInitials | src/stores/auth.ts:21-29 | for a non-empty name the session initials are `getInitials`; for an empty name they are `""` where `getInitials` gives `HL` |
| Auth.MockToken | src/stores/auth.ts:65 | the token starts with `mock-token-` and is non-empty, so it authenticates |
| Auth.UpsertAccount | src/stores/auth.ts:74-84 | the account is in the list, and the list either keeps its length or gains exactly that account at the end |
| Auth.UpsertReplacesInPlace | src/stores/auth.ts:74-80 | the first account with the same email is replaced where it stands, later duplicates included in the accounts kept |
| Auth.UpsertAppends | src/stores/auth.ts:81-83 | with no account for the email, the account is appended |
| Auth.UpsertKeepsEmailsUnique | src/stores/auth.ts:74-84 | unique emails stay unique |
| Auth.RepeatLoginKeepsOneAccount | src/stores/auth.ts:74-84 | a second login with the same email does not grow the list |
| Auth.AuthStore.constructor | src/stores/auth.ts:12-17 | every signal read from storage on its own; not loading, no error |
| Auth.AuthStore.Login | src/stores/auth.ts:34-105 | wrong credentials fail with 邮箱或密码错误 and keep the session; the demo pair sets the user, token and active id (so `checkAuth` then holds), upserts the account and persists; never loading afterwards |
| Auth.AuthStore.Logout | src/stores/auth.ts:110-121 | user, token, active id and error cleared (so `checkAuth` then fails), their keys removed, accounts kept |
| Auth.AuthStore.SwitchAccount | src/stores/auth.ts:126-156 | an unknown id fails with 账号不存在 and keeps the session; a known id takes the user and token of the first account with that id and becomes active |
| Auth.AuthStore.LoadAccounts | src/stores/auth.ts:161-180 | the list is re-read from storage and returned; the session is kept |
| Auth.AuthStore.RemoveAccount | src/stores/auth.ts:185-194 | every account with the id goes; the session is logged out exactly when that id was the active one |
| Auth.AuthStore.ClearError | src/stores/auth.ts:199-201 | only the error is cleared |
| Auth.AuthStore.InitAuth | src/stores/auth.ts:227-239 | the stored values are adopted together only when both the user and the token are stored; `checkAuth` holds afterwards exactly when they were, or when it held before |
| Layout.ResolveTheme | src/stores/layout.ts:11-16 | light and dark resolve to themselves; system resolves to dark exactly when the OS prefers dark |
| Layout.ToggleFlipsDarkness | src/stores/layout.ts:40-43 | the toggled theme is never system and flips whether the page is dark |
| Layout.LayoutStore.constructor | src/stores/layout.ts:5-8 | the stored preferences; the mobile sidebar closed |
| Layout.LayoutStore.ToggleSidebar | src/stores/layout.ts:23-26 | the flag flips and the new value is persisted; nothing else changes |
| Layout.LayoutStore.ApplyTheme | src/stores/layout.ts:99-107 | the `dark` class follows the resolved theme |
| Layout.LayoutStore.SetTheme | src/stores/layout.ts:31-35 | exactly the given theme is set, stored and applied |
| Layout.LayoutStore.ToggleTheme | src/stores/layout.ts:40-43 | light when the page is dark, dark otherwise; never system; darkness flips |
| Layout.LayoutStore.SetThemeWithTransition | src/stores/layout.ts:48-86 | with or without the view transition, the end state is that of setting the theme |
| Layout.LayoutStore.ToggleThemeWithTransition | src/stores/layout.ts:91-94 | the toggled theme is set through the transition; darkness flips |
| Layout.LayoutStore.OnSystemPreferenceChange | src/stores/layout.ts:116-121 | under the system theme the `dark` class follows the new preference; otherwise nothing changes |
| Layout.LayoutStore.ToggleMobileSidebar | src/stores/layout.ts:127-129 | the mobile sidebar flag flips |
| Layout.LayoutStore.CloseMobileSidebar | src/stores/layout.ts:134-136 | the mobile sidebar ends closed |
| Layout.LayoutStore.ToggleFooter | src/stores/layout.ts:141-144 | the footer flag flips and is persisted |
| Layout.LayoutStore.HandleResize | src/stores/layout.ts:152-156 | a width of 768 or more closes the mobile sidebar; a narrower one leaves it |
| Layout.LayoutStore.InitLayout | src/stores/layout.ts:149-159 | the theme is applied and the resize rule runs once |
| CalendarView.DaysInMonth | src/routes/CalendarView.tsx:90-92 | 28 to 31 days; February has 29 exactly in a leap year |
| CalendarView.AddMonths | src/routes/CalendarView.tsx:94-100 | the 1st of the month `delta` months away, carrying into the year |
| CalendarView.PrevThenNextMonth | src/routes/CalendarView.tsx:94-100 | going back a month and forward again returns to the 1st of the month |
| CalendarView.NextDay | src/routes/CalendarView.tsx:136-143 | the day after a valid day is valid |
| CalendarView.Weekday | src/routes/CalendarView.tsx:91 | a weekday from 0 (Sunday) to 6 |
| CalendarView.WeekdayAnchors | src/routes/CalendarView.tsx:91 | 1 January 1970 is a Thursday, 1 November 2024 a Friday, 29 February 2000 a Tuesday |
| CalendarView.WeekdayOfNextDay | src/routes/CalendarView.tsx:91 | the weekday advances by one each day, across months and years |
| CalendarView.FormatDate | src/routes/CalendarView.tsx:44-46 | the year, `-`, two month digits, `-`, two day digits |
| CalendarView.FormatDateInjective | src/routes/CalendarView.tsx:44-46 | different days of years from 0 on get different keys |
| CalendarView.DateOfIsoStart | src/routes/CalendarView.tsx:53-55 | the date of a start `date + "T" + time` with no `T` in the date is that date |
| CalendarView.EventsForDate | src/routes/CalendarView.tsx:108-110 | exactly the events whose start before `T` is the date, in order |
| CalendarView.EventsForDistinctDatesDisjoint | src/routes/CalendarView.tsx:108-110 | an event never shows up for two different dates |
| CalendarView.EventTypeColor | src/routes/CalendarView.tsx:57-59 | a known type's colour, otherwise `bg-muted-foreground` |
| CalendarView.EventTypeLabel | src/routes/CalendarView.tsx:61-63 | a known type's label, otherwise `其他` |
| CalendarView.UpcomingEvents | src/routes/CalendarView.tsx:148-154 | the first four of the events starting at or after now (all of them when fewer), sorted by start: as many as that, no event more often than among the upcoming ones, and each an upcoming event |
| CalendarView.UpcomingAreEarliest | src/routes/CalendarView.tsx:148-154 | an upcoming event left out starts no earlier than every listed one |
| CalendarView.GridDaysValid | src/routes/CalendarView.tsx:116-146 | every cell holds a real calendar day |
| CalendarView.GridStartsOnSunday | src/routes/CalendarView.tsx:118-126 | the grid opens on a Sunday, and the month's 1st sits at the column of its weekday |
| CalendarView.GridIsConsecutive | src/routes/CalendarView.tsx:116-146 | the 42 cells are 42 consecutive days |
| CalendarView.GridColumnsAreWeekdays | src/routes/CalendarView.tsx:116-146 | cell k falls on weekday k mod 7 |
| CalendarView.CurrentMonthCells | src/routes/CalendarView.tsx:128-134 | exactly the cells from the 1st's weekday on, as many as the month has days, are current-month, with days 1, 2, … |
| CalendarView.CalendarDays | src/routes/CalendarView.tsx:116-146 | 42 cells: the previous month's last days, the month's days, then the next month's days from 1 |
| CalendarView.Calendar.constructor | src/routes/CalendarView.tsx:68-69 | the month shown and the selection start at today, both real days |
| CalendarView.Calendar.PrevMonth | src/routes/CalendarView.tsx:94-96 | the 1st of the previous month; the selection is kept, and both dates stay real days |
| CalendarView.Calendar.NextMonth | src/routes/CalendarView.tsx:98-100 | the 1st of the next month; the selection is kept, and both dates stay real days |
| CalendarView.Calendar.GoToToday | src/routes/CalendarView.tsx:102-106 | both the month shown and the selection move to today, and stay real days |
| CommandPalette.AccountCommands | src/components/common/CommandPalette.tsx:141-154 | one switching command per remembered account, in the list's order |
| CommandPalette.AllCommands | src/components/common/CommandPalette.tsx:182-187 | the nine navigation, the two theme, the account and the two action commands, in that order |
| CommandPalette.ActionEffects | src/components/common/CommandPalette.tsx:145-150 | an account command switches and reloads exactly when its account is not the active one |
| CommandPalette.ThemeCommandsBypassLayoutStore | src/components/common/CommandPalette.tsx:117-138 | the theme commands write the key `theme` and never the layout store's key |
| CommandPalette.FilterCommands | src/components/common/CommandPalette.tsx:190-197 | an empty search lists every command; otherwise a command stays exactly when its label or a keyword contains the search ignoring case, in order |
| CommandPalette.EmptySearchKeepsAll | src/components/common/CommandPalette.tsx:190-197 | the empty-search shortcut agrees with filtering by the empty search |
| CommandPalette.AccountFoundByEmail | src/components/common/CommandPalette.tsx:149 | searching for part of an account's email finds that account's command |
| CommandPalette.GroupCommandsIsGrouping | src/components/common/CommandPalette.tsx:200-206 | the fold that builds `groupedCommands` yields one group per category, with no category twice; each group holds exactly that category's commands, in their order, and is never empty; every command's category has a group |
| CommandPalette.EachCommandInOneGroup | src/components/common/CommandPalette.tsx:200-206 | every command is in a group, and only in the group of its category |
| CommandPalette.IndexDown | src/components/common/CommandPalette.tsx:239 | the smaller of one further and the last index |
| CommandPalette.IndexUp | src/components/common/CommandPalette.tsx:242 | the larger of one back and 0 |
| CommandPalette.ArrowsKeepIndexInRange | src/components/common/CommandPalette.tsx:237-243 | from a valid index both arrows keep it valid; with no commands ArrowDown gives -1 |
| CommandPalette.Palette.constructor | src/components/common/CommandPalette.tsx:36-38 | closed, empty search, index 0 |
| CommandPalette.Palette.SetSearch | src/components/common/CommandPalette.tsx:257-259 | the search takes the typed text; the selection goes back to 0 exactly when the text changed, and stays otherwise |
| CommandPalette.Palette.Hover | src/components/common/CommandPalette.tsx:302-315 | hovering a listed command selects its index in the filtered list: an index in range holding that command, and no earlier entry equal to it |
| CommandPalette.Palette.Execute | src/components/common/CommandPalette.tsx:209-214 | the palette closes, the search and index reset, and the command's action runs |
| CommandPalette.Palette.HandleKeyDown | src/components/common/CommandPalette.tsx:218-250 | Ctrl/Cmd+K toggles in any state; closed, other keys are ignored; Escape closes and resets; arrows move the index; Enter runs the command at the index only if there is one; any other key while open changes nothing |
| MessagesView.FilterConversations | src/routes/MessagesView.tsx:95-100 | exactly the conversations whose name or last message contains the query ignoring case, in order |
| MessagesView.EmptyQueryListsAll | src/routes/MessagesView.tsx:95-100 | an empty query lists every conversation, in order |
| MessagesView.ThreadFor | src/routes/MessagesView.tsx:105-111 | five messages alternating between the contact and the user; the last carries the conversation's last message and time |
| MessagesView.MarkRead | src/routes/MessagesView.tsx:113-117 | the entries with the id get unread count 0; every other entry is unchanged |
| MessagesView.RecordLast | src/routes/MessagesView.tsx:148-152 | only the entries with the id change, and only their last message and its time |
| MessagesView.ToggleStarred | src/routes/MessagesView.tsx:127-137 | the id is added when absent and removed when present; other ids are untouched |
| MessagesView.ToggleTwiceRestores | src/routes/MessagesView.tsx:127-137 | starring twice restores the set |
| MessagesView.CountFolders | src/routes/MessagesView.tsx:162-168 | the inbox counts every conversation; every other folder counts 0 |
| MessagesView.DeleteDropsOne | src/routes/MessagesView.tsx:120-125 | with unique ids, deleting removes exactly that conversation, so the inbox count drops by one |
| MessagesView.MessagesPage.constructor | src/routes/MessagesView.tsx:70-77 | inbox, nothing open, empty search, draft and stars |
| MessagesView.MessagesPage.SelectConversation | src/routes/MessagesView.tsx:102-118 | the conversation is opened with its thread and marked read when it had unread messages |
| MessagesView.MessagesPage.DeleteConversation | src/routes/MessagesView.tsx:120-125 | nothing without an open conversation; otherwise it is removed and the view cleared |
| MessagesView.MessagesPage.ToggleStar | src/routes/MessagesView.tsx:127-137 | only the starred set changes, by the toggle |
| MessagesView.MessagesPage.SendMessage | src/routes/MessagesView.tsx:139-154 | nothing for a blank draft or no open conversation; otherwise one message from the user is appended, the conversation records it and the draft clears |
| UsersView.FilterUsers | src/routes/UsersView.tsx:80-88 | exactly the users whose name or email contains the search ignoring case, whose status and role match their selectors or the selector is `all`, in order |
| UsersView.NoFilterShowsAll | src/routes/UsersView.tsx:80-88 | no search and both selectors on `all` show every user in order |
| UsersView.StatusFilterNarrows | src/routes/UsersView.tsx:84 | a status selector keeps exactly the users the `all` selector shows that have that status |
| UsersView.Stats | src/routes/UsersView.tsx:90-95 | the total and the number of users of each status |
| UsersView.StatsAddUp | src/routes/UsersView.tsx:90-95 | active + inactive + suspended = total |
| UsersView.DeleteUser | src/routes/UsersView.tsx:97-99 | exactly the users without the id remain |
| UsersView.DeleteRemovesExactlyOne | src/routes/UsersView.tsx:97-99 | with unique ids, deleting a listed user keeps every other user in order |
| FilesView.UnitIndex | src/routes/FilesView.tsx:91 | the largest unit not above the size: 1024^i ≤ bytes < 1024^(i+1) |
| FilesView.UnitFits | src/routes/FilesView.tsx:91 | the unit index is the only i with 1024^i ≤ bytes < 1024^(i+1) |
| FilesView.FormatFileSize | src/routes/FilesView.tsx:86-93 | `-` without a size and `0 B` for zero |
| FilesView.SmallSizesInBytes | src/routes/FilesView.tsx:89-92 | under 1024 bytes the label is the exact byte count and `B` |
| FilesView.SizeExamples | src/routes/FilesView.tsx:89-92 | 1536 bytes read `1.5 KB`, 1048576 bytes read `1 MB` |
| FilesView.FilterFiles | src/routes/FilesView.tsx:143-147 | exactly the files whose name contains the query ignoring case, in order |
| FilesView.FilesPage.constructor | src/routes/FilesView.tsx:106-113 | empty search, nothing selected, detail panel closed |
| FilesView.FilesPage.SelectFile | src/routes/FilesView.tsx:152-157 | the file is always selected; the detail panel opens only below 1024 pixels |
| FilesView.FilesPage.DeleteFile | src/routes/FilesView.tsx:159-166 | exactly the files with the id go; deleting the selected file clears the selection and closes the panel, deleting another keeps both |
| SecurityView.FilterLogs | src/routes/SecurityView.tsx:40-42 | exactly the logs whose action, user or ip contains the search as typed, in order |
| SecurityView.EmptySearchShowsAll | src/routes/SecurityView.tsx:40-42 | an empty search shows every log in order |
| SecurityView.SearchIsCaseSensitive | src/routes/SecurityView.tsx:40-42 | a lower-case search misses an upper-case action |
| SecurityView.Stats | src/routes/SecurityView.tsx:56-61 | the total and the number of logs of each status |
| SecurityView.StatsAddUp | src/routes/SecurityView.tsx:56-61 | success + warning + error = total |
| SecurityView.StatusBadge | src/routes/SecurityView.tsx:50-54 | success, warning and error map to the success, warning and destructive badges labelled 成功, 警告 and 失败, and back |
| RegisterView.ValidateRegistration | src/routes/RegisterView.tsx:27-40 | a mismatch is reported first, then a password under six characters, then unaccepted terms; accepted exactly when all three pass |
| RegisterView.RegistrationExtendsReset | src/routes/RegisterView.tsx:27-40 | registration runs the reset form's two checks, then the terms check |
| RegisterView.RegisterForm.constructor | src/routes/RegisterView.tsx:13-20 | empty fields, terms unaccepted, not loading, no error |
| RegisterView.RegisterForm.Submit | src/routes/RegisterView.tsx:22-42 | the error is cleared, then set to the first failed check's message; loading starts exactly when all checks pass |
| RegisterView.RegisterForm.CompleteSubmit | src/routes/RegisterView.tsx:44-52 | loading ends and the browser goes to `/login` |
| ResetPasswordView.ValidateReset | src/routes/ResetPasswordView.tsx:22-30 | a mismatch is reported before a password under six characters; accepted exactly when both pass |
| ResetPasswordView.MismatchReportedBeforeLength | src/routes/ResetPasswordView.tsx:22-30 | a mismatched short password is reported as a mismatch |
| ResetPasswordView.ResetForm.constructor | src/routes/ResetPasswordView.tsx:11-16 | empty fields, not loading, no success, no error |
| ResetPasswordView.ResetForm.Submit | src/routes/ResetPasswordView.tsx:18-32 | the error is cleared, then set to the first failed check's message; loading starts exactly when both pass |
| ResetPasswordView.ResetForm.CompleteSubmit | src/routes/ResetPasswordView.tsx:34-45 | success is set, which shows the confirmation screen, and loading ends |
| App.Decide | src/app.tsx:50-92 | protected: render when signed in, else nothing and a redirect to `/login`; guest-only: the reverse with `/dashboard`; public: always render |
| App.StripQuery | src/app.tsx:101-125 | the URL up to its first `?` or `#`, with neither character in it |
| App.GuardOf | src/app.tsx:101-125 | a guard exactly when the URL's key (query and fragment cut off, leading and trailing slashes trimmed) is a route's key, and then the guard listed for that route |
| App.KeyOfRoutePath | src/app.tsx:104-125 | a route's path `/name` has `name` as its key |
| App.QueryIgnored | src/app.tsx:101-125 | appending a query or a fragment to a path never changes its key |
| App.TrailingSlashIgnored | src/app.tsx:101-125 | appending a slash to a path never changes its key |
| App.PathFormsMatchAlike | src/app.tsx:101-125 | a route's path, the path with a trailing slash, and the path with a query or fragment are guarded alike |
| App.Visit | src/app.tsx:101-125 | a URL whose key is no route's key shows the not-found page |
| App.RedirectTarget | src/app.tsx:50-82 | a guard redirects a signed-in session only to `/dashboard` and a signed-out one only to `/login` |
| App.RedirectsLandOnRenderedPages | src/app.tsx:50-82 | wherever a guard redirects, the page there renders for the same session, so there is no redirect loop |
| App.SignInAndDashboardExclusive | src/app.tsx:50-82 | exactly one of the sign-in page and the dashboard renders, and the sign-in page renders exactly when there is no token |

## Left out

- Rendering, styling and presentational tables are not modelled: JSX, icons,
  the user status and role colour tables, the file-type icons, the calendar's
  week-day header, and the folder names' display.
- Timers and awaits are dropped. `login` and `switchAccount` are modelled as
  their synchronous effect. The registration and reset forms are split at
  their one delay into `Submit` and `CompleteSubmit`. Their `catch` branches
  are unreachable, since the simulated delay never rejects.
- The fixtures the pages load after a timeout are not modelled: users,
  conversations, files, logs and events.
- `localStorage` and JSON are a ghost snapshot of written values plus an
  abstract parse function. Swallowed storage exceptions are not modelled.
- `useScrollRestore` is not modelled: it depends on `requestAnimationFrame`,
  the scroll throttle and the restore guard window.
- Debounce, throttle, `ResizeObserver`, `matchMedia` listeners and
  `cleanupLayout` are not modelled.
- `setThemeWithTransition`'s clip-path animation is not modelled, since it
  is floating point on window geometry. Only its end state is.
- Network, API client and mock backend are not modelled, since they are I/O
  and random generators.
- `generateId` and `tab-${Date.now()}` become a fresh-id parameter. The
  source does not make them unique, so the invariants assume a fresh id.
- `formatFileSize` in `src/lib/utils.ts` (units `Bytes`, two decimals) is
  not used by the modelled pages and is not part of this model.
- The calendar's `new Date(item.date)` when a cell is clicked parses the key
  as UTC. The selection it produces is not modelled. `formatTime` and the
  locale formatting of dates are not modelled either.
- `Text`: case mapping and `includes` are ASCII-only. `length` counts
  characters, not UTF-16 code units, so the six-character minimum of the
  forms differs for characters outside the basic plane.
- `FilesView.UnitIndex`: computed exactly. The source's floating-point
  `Math.log` ratio may pick the lower unit at exact powers of 1024. Sizes
  are whole bytes below 2^53, where `toFixed(1)` rounding is exact, so the
  tenths are computed as integers.
- `FilesView.FormatFileSize`: its contract states only the two special
  cases. Positive sizes are stated by `SmallSizesInBytes`, `UnitFits` and
  `SizeExamples`. Sizes of a petabyte or more read `undefined` as the unit,
  and negative sizes read `NaN undefined`, as in the source.
- `CalendarView.UpcomingEvents`: date-time comparison is the abstract
  instant parameter. Stability of the sort is not stated.
- `CalendarView.Calendar`: its dates are kept as real days (`Valid`), as a
  `Date` always is. The constructor and `GoToToday` require today to be
  one.
- `CalendarView.AddMonths`: the year is kept as given. `new Date(y, m, 1)`
  reads the years 0 to 99 as 1900 to 1999, and `Date` covers only
  ±8.64e15 ms around 1970. Neither rule is modelled, so the model agrees
  with the page from the year 100 on, within that range.
- `CalendarView.EventTypeColor`, `CalendarView.EventTypeLabel`: the tables
  are maps, so only their own keys are found. A plain JavaScript object also
  answers inherited keys such as `constructor`, whose value is a function and
  so truthy. That lookup through the prototype is not modelled.
- `CommandPalette.Palette.Hover`: `indexOf` compares objects, and the model
  compares commands by value. The two pick different entries only when two
  listed commands are equal in every field.
- `App.GuardOf`: URL matching follows preact-router's segment comparison,
  and the router itself is not part of this model. Route parameters
  (`:id`) are not modelled, since the route table has none. Percent-decoding
  is not modelled either, since it applies only to parameters.
- `Tabs.TabStore.UpdateTab`: the invariants are proved only for retitling,
  the one update the application makes, because arbitrary patches break
  them (`Tabs.UpdateCanBreakInvariants`).
- `Tabs.HomeFirst`: the home tab's title may change, because route sync
  retitles it; only its id, path and pinned flag are fixed.
- Pages not listed above, and LoginView and ForgotPasswordView, are not part
  of this model, since they are forms and layout with no state logic of
  their own.
