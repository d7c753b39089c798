/** The dashboard store: the widgets on the dashboard, their grid layouts
    (kept in a second list that shares the widgets' ids), the editing flag,
    and the per-type tables of default titles and sizes. Writes go through to
    storage (`saveDashboardConfig`), recorded in a ghost snapshot. */
module Dashboard {
  import opened Wrappers
  import opened Seqs
  import opened Values
  import Utils

  datatype WidgetType =
    | Stats | ChartLine | ChartBar | ChartPie | RecentUsers | Notifications | Tasks | Calendar | QuickActions

  /** `WIDGET_TYPES`, in declaration order. */
  const WidgetTypes: seq<WidgetType> :=
    [Stats, ChartLine, ChartBar, ChartPie, RecentUsers, Notifications, Tasks, Calendar, QuickActions]

  datatype Widget = Widget(id: string, widgetType: WidgetType, title: string, config: Option<Record>)

  /** A grid item: `i` is the id of its widget. */
  datatype Layout = Layout(i: string, x: int, y: int, w: int, h: int, minW: Option<int>, minH: Option<int>)

  const GridColumns := 12

  // ------------------------------------------------------------ per-type tables

  function DefaultTitle(t: WidgetType): string {
    match t
    case Stats => "统计数据"
    case ChartLine => "折线图"
    case ChartBar => "柱状图"
    case ChartPie => "饼图"
    case RecentUsers => "最近用户"
    case Notifications => "通知"
    case Tasks => "任务"
    case Calendar => "日历"
    case QuickActions => "快捷操作"
  }

  function DefaultWidth(t: WidgetType): int {
    match t
    case Stats => 12
    case ChartLine => 8
    case ChartBar => 8
    case ChartPie => 4
    case RecentUsers => 6
    case Notifications => 6
    case Tasks => 4
    case Calendar => 6
    case QuickActions => 3
  }

  function DefaultHeight(t: WidgetType): int {
    match t
    case Stats => 2
    case ChartLine => 4
    case ChartBar => 4
    case ChartPie => 4
    case RecentUsers => 3
    case Notifications => 3
    case Tasks => 3
    case Calendar => 4
    case QuickActions => 2
  }

  function MinWidth(t: WidgetType): int {
    match t
    case Stats => 6
    case ChartLine => 4
    case ChartBar => 4
    case ChartPie => 3
    case RecentUsers => 3
    case Notifications => 3
    case Tasks => 3
    case Calendar => 4
    case QuickActions => 2
  }

  function MinHeight(t: WidgetType): int {
    match t
    case Stats => 2
    case ChartLine => 3
    case ChartBar => 3
    case ChartPie => 3
    case RecentUsers => 2
    case Notifications => 2
    case Tasks => 2
    case Calendar => 3
    case QuickActions => 2
  }

  /** Every default size fits the twelve-column grid and respects its minimum. */
  lemma TablesConsistent(t: WidgetType)
    ensures 0 < MinWidth(t) <= DefaultWidth(t) <= GridColumns
    ensures 0 < MinHeight(t) <= DefaultHeight(t)
    ensures DefaultTitle(t) != ""
  {
    match t
    case Stats =>
    case ChartLine =>
    case ChartBar =>
    case ChartPie =>
    case RecentUsers =>
    case Notifications =>
    case Tasks =>
    case Calendar =>
    case QuickActions =>
  }

  /** Every widget type appears in `WIDGET_TYPES`, exactly once. */
  lemma AllTypesListed(t: WidgetType)
    ensures t in WidgetTypes
    ensures forall i, j :: 0 <= i < j < |WidgetTypes| ==> WidgetTypes[i] != WidgetTypes[j]
  {
    match t
    case Stats => assert WidgetTypes[0] == t;
    case ChartLine => assert WidgetTypes[1] == t;
    case ChartBar => assert WidgetTypes[2] == t;
    case ChartPie => assert WidgetTypes[3] == t;
    case RecentUsers => assert WidgetTypes[4] == t;
    case Notifications => assert WidgetTypes[5] == t;
    case Tasks => assert WidgetTypes[6] == t;
    case Calendar => assert WidgetTypes[7] == t;
    case QuickActions => assert WidgetTypes[8] == t;
  }

  // -------------------------------------------------------------- defaults

  const DefaultWidgets: seq<Widget> := [
    Widget("stats", Stats, "统计数据", None),
    Widget("chart-line", ChartLine, "访问趋势", None),
    Widget("chart-pie", ChartPie, "流量来源", None),
    Widget("recent-users", RecentUsers, "最近用户", None),
    Widget("notifications", Notifications, "最新通知", None)
  ]

  const DefaultLayouts: seq<Layout> := [
    Layout("stats", 0, 0, 12, 2, Some(6), Some(2)),
    Layout("chart-line", 0, 2, 8, 4, Some(4), Some(3)),
    Layout("chart-pie", 8, 2, 4, 4, Some(3), Some(3)),
    Layout("recent-users", 0, 6, 6, 3, Some(3), Some(2)),
    Layout("notifications", 6, 6, 6, 3, Some(3), Some(2))
  ]

  /** The default widgets and layouts pair up by id, position by position. */
  lemma DefaultsPaired()
    ensures |DefaultWidgets| == |DefaultLayouts| == 5
    ensures forall k :: 0 <= k < 5 ==> DefaultWidgets[k].id == DefaultLayouts[k].i
  {
  }

  // ----------------------------------------------------------------- addWidget

  /** `Math.max(...layouts.map(l => l.y + l.h), 0)`: the lowest bottom edge,
      0 for an empty dashboard. */
  function MaxBottom(layouts: seq<Layout>): (r: int)
    ensures r >= 0
    ensures forall k :: 0 <= k < |layouts| ==> layouts[k].y + layouts[k].h <= r
    ensures r == 0 || exists k :: 0 <= k < |layouts| && layouts[k].y + layouts[k].h == r
    decreases |layouts|
  {
    if layouts == [] then 0
    else
      var rest := MaxBottom(layouts[1..]);
      var b := layouts[0].y + layouts[0].h;
      if b > rest then b else rest
  }

  /** The widget `addWidget` appends: the caller's title unless it is absent or
      empty, otherwise the type's default title. */
  function NewWidget(t: WidgetType, title: Option<string>, config: Option<Record>, freshId: string): (w: Widget)
    ensures w.id == freshId && w.widgetType == t && w.config == config
    ensures title.Some? && title.value != "" ==> w.title == title.value
    ensures title.None? || title.value == "" ==> w.title == DefaultTitle(t)
  {
    Widget(freshId, t, if title.Some? && title.value != "" then title.value else DefaultTitle(t), config)
  }

  /** The layout `addWidget` appends: first column, on the row below the lowest
      existing item, with the type's default and minimum sizes. */
  function NewLayout(layouts: seq<Layout>, t: WidgetType, freshId: string): (l: Layout)
    ensures l.i == freshId && l.x == 0 && l.y >= 0
    ensures forall k :: 0 <= k < |layouts| ==> layouts[k].y + layouts[k].h <= l.y
    ensures l.w == DefaultWidth(t) && l.h == DefaultHeight(t)
    ensures l.minW == Some(MinWidth(t)) && l.minH == Some(MinHeight(t))
  {
    Layout(freshId, 0, MaxBottom(layouts), DefaultWidth(t), DefaultHeight(t), Some(MinWidth(t)), Some(MinHeight(t)))
  }

  /** A new item never overlaps an existing one: it starts at or below every
      item's bottom edge, and it fits the grid. */
  lemma NewLayoutBelowAll(layouts: seq<Layout>, t: WidgetType, freshId: string)
    ensures var l := NewLayout(layouts, t, freshId);
      && (forall k :: 0 <= k < |layouts| ==> layouts[k].y + layouts[k].h <= l.y)
      && 0 <= l.x && l.x + l.w <= GridColumns
  {
    TablesConsistent(t);
  }

  /** `addWidget` never consults availability: adding a type already on the
      dashboard gives two widgets of that type. */
  lemma AddWidgetAllowsDuplicates(widgets: seq<Widget>, t: WidgetType, title: Option<string>, config: Option<Record>, freshId: string)
    requires !IsWidgetTypeAvailable(widgets, t)
    ensures exists i, j :: 0 <= i < j < |widgets| + 1 && (widgets + [NewWidget(t, title, config, freshId)])[i].widgetType == t
                          && (widgets + [NewWidget(t, title, config, freshId)])[j].widgetType == t
  {
    var k :| 0 <= k < |widgets| && widgets[k].widgetType == t;
    var all := widgets + [NewWidget(t, title, config, freshId)];
    assert all[k].widgetType == t && all[|widgets|].widgetType == t;
  }

  // ------------------------------------------------------------ type availability

  /** `isWidgetTypeAvailable`: no widget has the type. */
  predicate IsWidgetTypeAvailable(widgets: seq<Widget>, t: WidgetType) {
    forall k :: 0 <= k < |widgets| ==> widgets[k].widgetType != t
  }

  /** `getUsedWidgetTypes`. */
  function UsedWidgetTypes(widgets: seq<Widget>): (r: seq<WidgetType>)
    ensures |r| == |widgets| && forall k :: 0 <= k < |widgets| ==> r[k] == widgets[k].widgetType
  {
    seq(|widgets|, k requires 0 <= k < |widgets| => widgets[k].widgetType)
  }

  function NotAmong(used: seq<WidgetType>): WidgetType -> bool {
    (t: WidgetType) => t !in used
  }

  /** `getUnusedWidgetTypes`: `WIDGET_TYPES` without the used ones, in
      `WIDGET_TYPES` order; exactly the available types. */
  function UnusedWidgetTypes(widgets: seq<Widget>): (r: seq<WidgetType>)
    ensures r == Filter(WidgetTypes, NotAmong(UsedWidgetTypes(widgets)))
    ensures forall t :: t in r <==> IsWidgetTypeAvailable(widgets, t)
  {
    var used := UsedWidgetTypes(widgets);
    var r := Filter(WidgetTypes, NotAmong(used));
    forall t ensures t in r <==> IsWidgetTypeAvailable(widgets, t) {
      AllTypesListed(t);
      if IsWidgetTypeAvailable(widgets, t) {
        assert t !in used;
      } else {
        var k :| 0 <= k < |widgets| && widgets[k].widgetType == t;
        assert used[k] == t;
      }
    }
    r
  }

  // ------------------------------------------------------------------ the store

  function WidgetNotId(id: string): Widget -> bool { (w: Widget) => w.id != id }
  function LayoutNotId(id: string): Layout -> bool { (l: Layout) => l.i != id }
  function LayoutHasId(id: string): Layout -> bool { (l: Layout) => l.i == id }

  class DashboardStore {
    var widgets: seq<Widget>
    var layouts: seq<Layout>
    var isEditing: bool
    /** The widgets and layouts last written to storage, if any. */
    ghost var persisted: Option<(seq<Widget>, seq<Layout>)>

    /** Module initialisation: both lists read from storage with the defaults
        as fallback; editing off. */
    constructor (storedWidgets: Option<string>, parseWidgets: string -> Option<seq<Widget>>,
                 storedLayouts: Option<string>, parseLayouts: string -> Option<seq<Layout>>)
      ensures widgets == Utils.GetLocalStorageItem(storedWidgets, parseWidgets, DefaultWidgets)
      ensures layouts == Utils.GetLocalStorageItem(storedLayouts, parseLayouts, DefaultLayouts)
      ensures !isEditing && persisted == None
    {
      widgets := Utils.GetLocalStorageItem(storedWidgets, parseWidgets, DefaultWidgets);
      layouts := Utils.GetLocalStorageItem(storedLayouts, parseLayouts, DefaultLayouts);
      isEditing := false;
      persisted := None;
    }

    /** `addWidget`, with the generated id as a parameter. */
    method AddWidget(t: WidgetType, title: Option<string>, config: Option<Record>, freshId: string)
      modifies this
      ensures widgets == old(widgets) + [NewWidget(t, title, config, freshId)]
      ensures layouts == old(layouts) + [NewLayout(old(layouts), t, freshId)]
      ensures isEditing == old(isEditing) && persisted == Some((widgets, layouts))
    {
      var widget := NewWidget(t, title, config, freshId);
      var layout := NewLayout(layouts, t, freshId);
      widgets := widgets + [widget];
      layouts := layouts + [layout];
      persisted := Some((widgets, layouts));
    }

    /** `removeWidget`: every widget and every layout with the id goes, the
        rest stay in order. */
    method RemoveWidget(id: string)
      modifies this
      ensures widgets == Filter(old(widgets), WidgetNotId(id)) && layouts == Filter(old(layouts), LayoutNotId(id))
      ensures forall k :: 0 <= k < |widgets| ==> widgets[k].id != id
      ensures forall k :: 0 <= k < |layouts| ==> layouts[k].i != id
      ensures isEditing == old(isEditing) && persisted == Some((widgets, layouts))
    {
      widgets := Filter(widgets, WidgetNotId(id));
      layouts := Filter(layouts, LayoutNotId(id));
      persisted := Some((widgets, layouts));
    }

    /** `updateWidgetTitle`: only the widgets with the id change, and only in title. */
    method UpdateWidgetTitle(id: string, title: string)
      modifies this
      ensures |widgets| == |old(widgets)| && layouts == old(layouts) && isEditing == old(isEditing)
      ensures forall k :: 0 <= k < |widgets| ==>
        widgets[k] == if old(widgets)[k].id == id then old(widgets)[k].(title := title) else old(widgets)[k]
      ensures persisted == Some((widgets, layouts))
    {
      widgets := seq(|widgets|, k requires 0 <= k < |widgets| reads this =>
        if widgets[k].id == id then widgets[k].(title := title) else widgets[k]);
      persisted := Some((widgets, layouts));
    }

    /** `updateWidgetConfig`: the matching widgets get the new keys merged over
        their old configuration; nothing else changes. */
    method UpdateWidgetConfig(id: string, config: Record)
      modifies this
      ensures |widgets| == |old(widgets)| && layouts == old(layouts) && isEditing == old(isEditing)
      ensures forall k :: 0 <= k < |widgets| ==>
        widgets[k] == if old(widgets)[k].id == id
          then old(widgets)[k].(config := Some(Spread(old(widgets)[k].config.GetOr(map[]), config)))
          else old(widgets)[k]
      ensures persisted == Some((widgets, layouts))
    {
      widgets := seq(|widgets|, k requires 0 <= k < |widgets| reads this =>
        if widgets[k].id == id then widgets[k].(config := Some(Spread(widgets[k].config.GetOr(map[]), config))) else widgets[k]);
      persisted := Some((widgets, layouts));
    }

    method SetLayouts(newLayouts: seq<Layout>)
      modifies this
      ensures layouts == newLayouts && widgets == old(widgets) && isEditing == old(isEditing)
      ensures persisted == Some((widgets, layouts))
    {
      layouts := newLayouts;
      persisted := Some((widgets, layouts));
    }

    /** `getLayoutForWidget`: the first layout with the id. */
    function GetLayoutForWidget(id: string): (r: Option<Layout>)
      reads this
      ensures r.Some? ==> r.value in layouts && r.value.i == id
      ensures r.Some? ==> exists k :: 0 <= k < |layouts| && layouts[k] == r.value
                                      && forall j :: 0 <= j < k ==> layouts[j].i != id
      ensures r.None? <==> forall k :: 0 <= k < |layouts| ==> layouts[k].i != id
    {
      Find(layouts, LayoutHasId(id))
    }

    /** `resetToDefault`: the five default widgets and layouts, editing off. */
    method ResetToDefault()
      modifies this
      ensures widgets == DefaultWidgets && layouts == DefaultLayouts && !isEditing
      ensures persisted == Some((DefaultWidgets, DefaultLayouts))
    {
      widgets := DefaultWidgets;
      layouts := DefaultLayouts;
      isEditing := false;
      persisted := Some((widgets, layouts));
    }

    /** `toggleEditing`: flips the flag (so two calls restore it); not persisted. */
    method ToggleEditing()
      modifies this
      ensures isEditing == !old(isEditing)
      ensures widgets == old(widgets) && layouts == old(layouts) && persisted == old(persisted)
    {
      isEditing := !isEditing;
    }

    /** `initDashboard`: each empty list, independently, becomes the default. */
    method InitDashboard()
      modifies this
      ensures widgets == if old(widgets) == [] then DefaultWidgets else old(widgets)
      ensures layouts == if old(layouts) == [] then DefaultLayouts else old(layouts)
      ensures isEditing == old(isEditing) && persisted == old(persisted)
    {
      if widgets == [] {
        widgets := DefaultWidgets;
      }
      if layouts == [] {
        layouts := DefaultLayouts;
      }
    }

    /** `cleanupDashboard`. */
    method CleanupDashboard()
      modifies this
      ensures !isEditing && widgets == old(widgets) && layouts == old(layouts) && persisted == old(persisted)
    {
      isEditing := false;
    }
  }
}
