/** The calendar page: the proleptic Gregorian calendar the browser's `Date`
    follows from the year 100 on (month lengths, weekdays, month
    arithmetic; `Date`'s reading of the years 0 to 99 as 19xx and its range
    limit are not modelled), the 42-cell month
    grid, date keys, and the selection of events per day and of upcoming
    events. Dates are values; parsing an event's start into an instant is a
    parameter. Months are numbered from 0, as `Date.getMonth` does. */
module CalendarView {
  import opened Wrappers
  import opened Seqs
  import Text

  /** A calendar day, as `new Date(year, month, day)` would hold it. */
  datatype Day = Day(year: int, month: nat, day: nat)

  datatype CalendarEvent = CalendarEvent(
    id: string,
    title: string,
    start: string,
    end: string,
    eventType: string,
    location: Option<string>,
    attendees: seq<string>)

  /** One cell of the month grid. */
  datatype Cell = Cell(day: nat, isCurrentMonth: bool, date: string)

  const GridSize := 42

  // ---------------------------------------------------------------- calendar

  predicate IsLeapYear(year: int) {
    year % 4 == 0 && (year % 100 != 0 || year % 400 == 0)
  }

  /** `new Date(year, month + 1, 0).getDate()`. */
  function DaysInMonth(year: int, month: nat): (n: nat)
    requires month < 12
    ensures 28 <= n <= 31
    ensures month == 1 ==> (n == 29 <==> IsLeapYear(year))
  {
    if month == 1 then (if IsLeapYear(year) then 29 else 28)
    else if month == 3 || month == 5 || month == 8 || month == 10 then 30
    else 31
  }

  predicate ValidDay(d: Day) {
    d.month < 12 && 1 <= d.day <= DaysInMonth(d.year, d.month)
  }

  /** `new Date(year, month + delta, 1)`: month overflow and underflow carry
      into the year. */
  function AddMonths(year: int, month: nat, delta: int): (r: Day)
    ensures r.month < 12 && r.day == 1 && ValidDay(r)
    ensures r.year * 12 + r.month == year * 12 + month + delta
  {
    var t := month + delta;
    Day(year + t / 12, t % 12, 1)
  }

  /** Going back a month and then forward again returns to the month. */
  lemma PrevThenNextMonth(year: int, month: nat)
    requires month < 12
    ensures var p := AddMonths(year, month, -1); AddMonths(p.year, p.month, 1) == Day(year, month, 1)
  {
    var p := AddMonths(year, month, -1);
    var q := AddMonths(p.year, p.month, 1);
    assert q.year * 12 + q.month == year * 12 + month;
    MonthIndexDetermines(q.year, q.month, year, month);
  }

  lemma MonthIndexDetermines(y1: int, m1: nat, y2: int, m2: nat)
    requires m1 < 12 && m2 < 12 && y1 * 12 + m1 == y2 * 12 + m2
    ensures y1 == y2 && m1 == m2
  {
  }

  /** The day after a valid day. */
  function NextDay(d: Day): (r: Day)
    requires ValidDay(d)
    ensures ValidDay(r)
  {
    if d.day < DaysInMonth(d.year, d.month) then Day(d.year, d.month, d.day + 1)
    else AddMonths(d.year, d.month, 1)
  }

  function MonthOffset(month: nat): int
    requires month < 12
  {
    [0, 3, 2, 5, 0, 3, 5, 1, 4, 6, 2, 4][month]
  }

  /** Days gained by the year count under the Gregorian leap rule, modulo 7. */
  function YearShift(y: int): int {
    y + y / 4 - y / 100 + y / 400
  }

  /** The year whose leap day a date of the month comes after. */
  function ShiftYear(year: int, month: nat): int {
    if month < 2 then year - 1 else year
  }

  /** `getDay()`: 0 for Sunday up to 6 for Saturday (Sakamoto's rule). */
  function Weekday(d: Day): (w: nat)
    requires d.month < 12
    ensures w < 7
  {
    (YearShift(ShiftYear(d.year, d.month)) + MonthOffset(d.month) + d.day) % 7
  }

  /** The calendar's anchors: 1 January 1970 was a Thursday, 1 November
      2024 a Friday, 29 February 2000 a Tuesday. */
  lemma WeekdayAnchors()
    ensures Weekday(Day(1970, 0, 1)) == 4
    ensures Weekday(Day(2024, 10, 1)) == 5
    ensures Weekday(Day(2000, 1, 29)) == 2 && ValidDay(Day(2000, 1, 29))
  {
  }

  /** A leap year adds a day to the year shift. */
  lemma YearShiftStep(y: int)
    ensures YearShift(y) == YearShift(y - 1) + 1 + (if IsLeapYear(y) then 1 else 0)
  {
    DivStep(y, 4);
    DivStep(y, 100);
    DivStep(y, 400);
    MultiplesNest(y);
  }

  /** Stepping back a year crosses a multiple of `d` exactly when the year
      is one. */
  lemma DivStep(y: int, d: int)
    requires d == 4 || d == 100 || d == 400
    ensures y / d - (y - 1) / d == if y % d == 0 then 1 else 0
  {
    var q, r := y / d, y % d;
    assert y == d * q + r && 0 <= r < d;
    if r == 0 {
      assert y - 1 == d * (q - 1) + (d - 1);
    } else {
      assert y - 1 == d * q + (r - 1);
    }
  }

  /** A multiple of 400 is one of 100, and a multiple of 100 one of 4. */
  lemma MultiplesNest(y: int)
    ensures y % 400 == 0 ==> y % 100 == 0
    ensures y % 100 == 0 ==> y % 4 == 0
  {
    if y % 400 == 0 {
      MultipleOf(y, 400, 100);
    }
    if y % 100 == 0 {
      MultipleOf(y, 100, 4);
    }
  }

  /** A multiple of `d * e` is a multiple of `e`. */
  lemma MultipleOf(y: int, de: int, e: int)
    requires (de == 400 && e == 100) || (de == 100 && e == 4)
    requires y % de == 0
    ensures y % e == 0
  {
    var m := (de / e) * (y / de);
    assert y == e * m;
    assert y == e * m + 0 && 0 <= 0 < e;
  }

  lemma ModShift(a: int, b: int)
    ensures (a % 7 + b) % 7 == (a + b) % 7
  {
    var k := a / 7;
    assert a == 7 * k + a % 7;
    assert a + b == (a % 7 + b) + 7 * k;
  }

  lemma ModWeeks(a: int, k: int)
    ensures (a + 7 * k) % 7 == a % 7
  {
  }

  /** Within a month the weekday advances by one a day. */
  lemma WeekdayWithinMonth(d: Day, n: nat)
    requires d.month < 12
    ensures Weekday(Day(d.year, d.month, d.day + n)) == (Weekday(d) + n) % 7
  {
    ModShift(YearShift(ShiftYear(d.year, d.month)) + MonthOffset(d.month) + d.day, n);
  }

  /** The first of the next month falls as many weekdays later as the month
      has days. */
  lemma WeekdayAcrossMonth(year: int, month: nat)
    requires month < 12
    ensures Weekday(AddMonths(year, month, 1)) == (Weekday(Day(year, month, 1)) + DaysInMonth(year, month)) % 7
  {
    if month == 11 {
      assert AddMonths(year, month, 1) == Day(year + 1, 0, 1);
      WeekdayAcrossYear(year);
    } else if month == 1 {
      assert AddMonths(year, month, 1) == Day(year, 2, 1);
      WeekdayAcrossFebruary(year);
    } else {
      assert AddMonths(year, month, 1) == Day(year, month + 1, 1);
      WeekdayAcrossOtherMonth(year, month);
    }
  }

  lemma WeekdayAcrossYear(year: int)
    ensures Weekday(Day(year + 1, 0, 1)) == (Weekday(Day(year, 11, 1)) + 31) % 7
  {
    var base := YearShift(year);
    assert ShiftYear(year + 1, 0) == year && ShiftYear(year, 11) == year;
    ModShift(base + 4 + 1, 31);
    ModWeeks(base + 1, 5);
  }

  lemma WeekdayAcrossFebruary(year: int)
    ensures Weekday(Day(year, 2, 1)) == (Weekday(Day(year, 1, 1)) + DaysInMonth(year, 1)) % 7
  {
    var base := YearShift(year - 1);
    YearShiftStep(year);
    var leap := if IsLeapYear(year) then 1 else 0;
    assert YearShift(year) == base + 1 + leap;
    assert DaysInMonth(year, 1) == 28 + leap;
    assert Weekday(Day(year, 1, 1)) == (base + 4) % 7;
    assert Weekday(Day(year, 2, 1)) == (base + 4 + leap) % 7;
    ModShift(base + 4, 28 + leap);
    ModWeeks(base + 4 + leap, 4);
  }

  lemma WeekdayAcrossOtherMonth(year: int, month: nat)
    requires month < 11 && month != 1
    ensures Weekday(Day(year, month + 1, 1)) == (Weekday(Day(year, month, 1)) + DaysInMonth(year, month)) % 7
  {
    var base := YearShift(ShiftYear(year, month));
    assert ShiftYear(year, month + 1) == ShiftYear(year, month);
    var dim := DaysInMonth(year, month);
    ModShift(base + MonthOffset(month) + 1, dim);
    var weeks := (MonthOffset(month) + dim - MonthOffset(month + 1)) / 7;
    assert MonthOffset(month) + dim - MonthOffset(month + 1) == 7 * weeks;
    ModWeeks(base + MonthOffset(month + 1) + 1, weeks);
  }

  /** The weekday advances by one from each day to the next, across month
      and year ends too. */
  lemma WeekdayOfNextDay(d: Day)
    requires ValidDay(d)
    ensures Weekday(NextDay(d)) == (Weekday(d) + 1) % 7
  {
    if d.day < DaysInMonth(d.year, d.month) {
      WeekdayWithinMonth(d, 1);
    } else {
      WeekdayAcrossMonth(d.year, d.month);
      WeekdayWithinMonth(Day(d.year, d.month, 1), d.day - 1);
      ModShift(Weekday(Day(d.year, d.month, 1)) + d.day - 1, 1);
    }
  }

  // ---------------------------------------------------------------- date keys

  /** `` `${year}` ``: the decimal digits, with a minus sign before a year
      below zero. */
  function YearString(year: int): string {
    if year < 0 then "-" + Text.NatToString(-year) else Text.NatToString(year)
  }

  /** `formatDate`: `YYYY-MM-DD`, month and day padded to two digits. */
  function FormatDate(d: Day): (r: string)
    ensures d.month < 12 && d.day < 100 ==> |r| == |YearString(d.year)| + 6 && r[|r| - 3] == '-' && r[|r| - 6] == '-'
  {
    Text.Pad2Value(d.month + 1);
    Text.Pad2Value(d.day);
    YearString(d.year) + "-" + Text.Pad2(d.month + 1) + "-" + Text.Pad2(d.day)
  }

  /** The three fields of a key sit at fixed distances from its end. */
  lemma KeyFields(s: string, y: string, mm: string, dd: string)
    requires |mm| == 2 && |dd| == 2 && s == y + "-" + mm + "-" + dd
    ensures |s| == |y| + 6
    ensures s[..|s| - 6] == y && s[|s| - 5..|s| - 3] == mm && s[|s| - 2..] == dd
  {
  }

  /** Different days (of years from 0 on) get different keys, so a key names
      exactly one day. */
  lemma FormatDateInjective(a: Day, b: Day)
    requires a.year >= 0 && b.year >= 0 && ValidDay(a) && ValidDay(b)
    requires FormatDate(a) == FormatDate(b)
    ensures a == b
  {
    var s := FormatDate(a);
    Text.Pad2Value(a.month + 1);
    Text.Pad2Value(a.day);
    Text.Pad2Value(b.month + 1);
    Text.Pad2Value(b.day);
    KeyFields(s, Text.NatToString(a.year), Text.Pad2(a.month + 1), Text.Pad2(a.day));
    KeyFields(s, Text.NatToString(b.year), Text.Pad2(b.month + 1), Text.Pad2(b.day));
    Text.NatToStringRoundTrip(a.year);
    Text.NatToStringRoundTrip(b.year);
  }

  /** `getDateFromEvent`: the part of the start before the first `T`. */
  function DateOfEvent(e: CalendarEvent): string {
    Text.FirstPiece(e.start, 'T')
  }

  /** An ISO start `date + "T" + time` belongs to `date`. */
  lemma DateOfIsoStart(e: CalendarEvent, date: string, time: string)
    requires 'T' !in date && e.start == date + "T" + time
    ensures DateOfEvent(e) == date
  {
    Text.FirstPieceOfJoin(date, 'T', time);
  }

  function OnDate(date: string): CalendarEvent -> bool {
    (e: CalendarEvent) => DateOfEvent(e) == date
  }

  /** `getEventsForDate`: the events of the day, in their order. */
  function EventsForDate(events: seq<CalendarEvent>, date: string): (r: seq<CalendarEvent>)
    ensures forall e :: e in r <==> e in events && DateOfEvent(e) == date
  {
    Filter(events, OnDate(date))
  }

  /** Events on other days never show up for the date, and the events of
      two different dates never overlap. */
  lemma EventsForDistinctDatesDisjoint(events: seq<CalendarEvent>, d1: string, d2: string)
    requires d1 != d2
    ensures forall e :: e in EventsForDate(events, d1) ==> e !in EventsForDate(events, d2)
  {
  }

  // ------------------------------------------------------------ event types

  const TypeColors: map<string, string> :=
    map["meeting" := "bg-blue-500", "task" := "bg-green-500", "reminder" := "bg-yellow-500", "holiday" := "bg-purple-500"]

  const TypeLabels: map<string, string> :=
    map["meeting" := "会议", "task" := "任务", "reminder" := "提醒", "holiday" := "假日"]

  /** `getEventTypeColor`: the colour of a known type, otherwise the muted one. */
  function EventTypeColor(eventType: Option<string>): (r: string)
    ensures eventType.Some? && eventType.value in TypeColors ==> r == TypeColors[eventType.value]
    ensures eventType.None? || eventType.value !in TypeColors ==> r == "bg-muted-foreground"
  {
    if eventType.Some? && eventType.value != "" && eventType.value in TypeColors && TypeColors[eventType.value] != ""
    then TypeColors[eventType.value]
    else "bg-muted-foreground"
  }

  /** `getEventTypeLabel`: the label of a known type, otherwise `'其他'`. */
  function EventTypeLabel(eventType: Option<string>): (r: string)
    ensures eventType.Some? && eventType.value in TypeLabels ==> r == TypeLabels[eventType.value]
    ensures eventType.None? || eventType.value !in TypeLabels ==> r == "其他"
  {
    if eventType.Some? && eventType.value != "" && eventType.value in TypeLabels && TypeLabels[eventType.value] != ""
    then TypeLabels[eventType.value]
    else "其他"
  }

  // ---------------------------------------------------------- upcoming events

  function StartsAtOrAfter(instant: string -> int, now: int): CalendarEvent -> bool {
    (e: CalendarEvent) => instant(e.start) >= now
  }

  function StartInstant(instant: string -> int): CalendarEvent -> int {
    (e: CalendarEvent) => instant(e.start)
  }

  /** `upcomingEvents`: the events starting at or after `now`, earliest
      first, at most four. `instant` reads a start as a time. */
  function UpcomingEvents(events: seq<CalendarEvent>, instant: string -> int, now: int): (r: seq<CalendarEvent>)
    ensures |r| == if |Filter(events, StartsAtOrAfter(instant, now))| < 4 then |Filter(events, StartsAtOrAfter(instant, now))| else 4
    ensures multiset(r) <= multiset(Filter(events, StartsAtOrAfter(instant, now)))
    ensures forall e :: e in r ==> e in events && instant(e.start) >= now
    ensures SortedBy(r, StartInstant(instant))
  {
    var upcoming := Filter(events, StartsAtOrAfter(instant, now));
    var sorted := SortBy(upcoming, StartInstant(instant));
    var n := if |sorted| < 4 then |sorted| else 4;
    SortedPrefix(upcoming, sorted, n, StartInstant(instant));
    sorted[..n]
  }

  /** A prefix of a sorted arrangement of `s` is sorted and takes no element
      more often than `s` has it. */
  lemma SortedPrefix<T>(s: seq<T>, sorted: seq<T>, n: nat, key: T -> int)
    requires multiset(sorted) == multiset(s) && SortedBy(sorted, key) && n <= |sorted|
    ensures multiset(sorted[..n]) <= multiset(s)
    ensures forall e :: e in sorted[..n] ==> e in s
    ensures SortedBy(sorted[..n], key)
  {
    PrefixMultiset(sorted, n);
    forall e | e in sorted[..n] ensures e in s {
      assert e in multiset(sorted[..n]);
    }
  }

  /** An upcoming event that is not listed starts no earlier than every
      listed one, and fewer than four listed means none was left out. */
  lemma UpcomingAreEarliest(events: seq<CalendarEvent>, instant: string -> int, now: int, e: CalendarEvent)
    requires e in events && instant(e.start) >= now
    ensures var r := UpcomingEvents(events, instant, now);
      (e !in r ==> |r| == 4 && forall i :: 0 <= i < |r| ==> instant(r[i].start) <= instant(e.start))
  {
    var upcoming := Filter(events, StartsAtOrAfter(instant, now));
    var sorted := SortBy(upcoming, StartInstant(instant));
    var r := UpcomingEvents(events, instant, now);
    assert e in multiset(sorted);
    if e !in r {
      SortedPrefixIsSmallest(sorted, StartInstant(instant), |r|, e);
    }
  }

  // ---------------------------------------------------------------- the grid

  /** The day shown in cell `k` of the month's grid: the tail of the previous
      month, the month itself from the cell of its first weekday, then the
      start of the next month. */
  function GridDay(year: int, month: nat, k: nat): Day
    requires month < 12
  {
    var lead := Weekday(Day(year, month, 1));
    var dim := DaysInMonth(year, month);
    if k < lead then
      var p := AddMonths(year, month, -1);
      Day(p.year, p.month, DaysInMonth(p.year, p.month) - lead + 1 + k)
    else if k < lead + dim then Day(year, month, k - lead + 1)
    else
      var n := AddMonths(year, month, 1);
      Day(n.year, n.month, k - lead - dim + 1)
  }

  /** Every cell holds a real day: the previous month's leading cells and
      the next month's trailing ones never run out of days. */
  lemma GridDaysValid(year: int, month: nat, k: nat)
    requires month < 12 && k < GridSize
    ensures ValidDay(GridDay(year, month, k))
  {
  }

  /** The grid opens on the Sunday of the week of the 1st, and the month's 1st
      sits in the cell of its weekday. */
  lemma GridStartsOnSunday(year: int, month: nat)
    requires month < 12
    ensures GridDay(year, month, Weekday(Day(year, month, 1))) == Day(year, month, 1)
    ensures Weekday(GridDay(year, month, 0)) == 0
  {
    var lead := Weekday(Day(year, month, 1));
    if lead > 0 {
      var p := AddMonths(year, month, -1);
      var first := Day(p.year, p.month, 1);
      var dp := DaysInMonth(p.year, p.month);
      assert GridDay(year, month, 0) == Day(p.year, p.month, 1 + (dp - lead));
      WeekdayWithinMonth(first, dp - lead);
      PrevThenNextMonth(year, month);
      WeekdayAcrossMonth(p.year, p.month);
      var a := Weekday(first) + dp;
      assert lead == a % 7;
      ModWeeks(0, a / 7);
    }
  }

  /** The 42 cells are 42 consecutive days. */
  lemma GridIsConsecutive(year: int, month: nat, k: nat)
    requires month < 12 && k + 1 < GridSize
    ensures ValidDay(GridDay(year, month, k)) && GridDay(year, month, k + 1) == NextDay(GridDay(year, month, k))
  {
    var lead := Weekday(Day(year, month, 1));
    var dim := DaysInMonth(year, month);
    if k + 1 == lead {
      PrevThenNextMonth(year, month);
    }
  }

  /** Each column is one weekday: cell `k` falls on weekday `k % 7`. */
  lemma {:induction false} GridColumnsAreWeekdays(year: int, month: nat, k: nat)
    requires month < 12 && k < GridSize
    ensures Weekday(GridDay(year, month, k)) == k % 7
    decreases k
  {
    if k == 0 {
      GridStartsOnSunday(year, month);
    } else {
      var g := GridDay(year, month, k - 1);
      GridColumnsAreWeekdays(year, month, k - 1);
      GridIsConsecutive(year, month, k - 1);
      WeekdayOfNextDay(g);
      ModShift(k - 1, 1);
    }
  }

  /** What cell `k` shows: the day of the month, whether it belongs to the
      month on display, and the day's key. */
  function GridCell(year: int, month: nat, k: nat): Cell
    requires month < 12
  {
    var d := GridDay(year, month, k);
    Cell(d.day, d.year == year && d.month == month, FormatDate(d))
  }

  /** Exactly the cells from the 1st's weekday on, for as many cells as the
      month has days, are marked as the month's, numbered from 1. */
  lemma CurrentMonthCells(year: int, month: nat, k: nat)
    requires month < 12 && k < GridSize
    ensures var lead := Weekday(Day(year, month, 1));
      && (GridCell(year, month, k).isCurrentMonth <==> lead <= k < lead + DaysInMonth(year, month))
      && (GridCell(year, month, k).isCurrentMonth ==> GridCell(year, month, k).day == k - lead + 1)
  {
    var lead := Weekday(Day(year, month, 1));
    var d := GridDay(year, month, k);
    if k < lead {
      var p := AddMonths(year, month, -1);
      MonthIndexDiffers(p.year, p.month, year, month);
    } else if k >= lead + DaysInMonth(year, month) {
      var n := AddMonths(year, month, 1);
      MonthIndexDiffers(n.year, n.month, year, month);
    }
  }

  /** `calendarDays`: three loops fill the leading days of the previous
      month, the days of the month and the trailing days of the next month,
      up to 42 cells. Exactly the cells of the month itself are marked. */
  method CalendarDays(year: int, month: nat) returns (days: seq<Cell>)
    requires month < 12
    ensures |days| == GridSize
    ensures forall k :: 0 <= k < GridSize ==> days[k] == GridCell(year, month, k)
  {
    var firstDayWeekday := Weekday(Day(year, month, 1));
    var daysInMonth := DaysInMonth(year, month);
    var prev := AddMonths(year, month, -1);
    var next := AddMonths(year, month, 1);
    var prevMonthDays := DaysInMonth(prev.year, prev.month);
    days := [];

    var i: int := firstDayWeekday - 1;
    while i >= 0
      invariant -1 <= i < firstDayWeekday
      invariant |days| == firstDayWeekday - 1 - i
      invariant forall k :: 0 <= k < |days| ==> days[k] == GridCell(year, month, k)
    {
      var cell := Cell(prevMonthDays - i, false, FormatDate(Day(prev.year, prev.month, prevMonthDays - i)));
      LeadingCell(year, month, |days|);
      GridPrefixGrows(days, year, month, cell);
      days := days + [cell];
      i := i - 1;
    }

    var j := 1;
    while j <= daysInMonth
      invariant 1 <= j <= daysInMonth + 1
      invariant |days| == firstDayWeekday + j - 1
      invariant forall k :: 0 <= k < |days| ==> days[k] == GridCell(year, month, k)
    {
      var cell := Cell(j, true, FormatDate(Day(year, month, j)));
      MonthCell(year, month, |days|);
      GridPrefixGrows(days, year, month, cell);
      days := days + [cell];
      j := j + 1;
    }

    var remainingDays := GridSize - |days|;
    var m := 1;
    while m <= remainingDays
      invariant 1 <= m <= remainingDays + 1
      invariant |days| == firstDayWeekday + daysInMonth + m - 1
      invariant forall k :: 0 <= k < |days| ==> days[k] == GridCell(year, month, k)
    {
      var cell := Cell(m, false, FormatDate(Day(next.year, next.month, m)));
      TrailingCell(year, month, |days|);
      GridPrefixGrows(days, year, month, cell);
      days := days + [cell];
      m := m + 1;
    }
  }

  /** Appending the next cell keeps the cells built so far those of the grid. */
  lemma GridPrefixGrows(days: seq<Cell>, year: int, month: nat, cell: Cell)
    requires month < 12
    requires forall k :: 0 <= k < |days| ==> days[k] == GridCell(year, month, k)
    requires cell == GridCell(year, month, |days|)
    ensures forall k :: 0 <= k < |days| + 1 ==> (days + [cell])[k] == GridCell(year, month, k)
  {
  }

  lemma LeadingCell(year: int, month: nat, k: nat)
    requires month < 12 && k < Weekday(Day(year, month, 1))
    ensures var p := AddMonths(year, month, -1);
      var dp := DaysInMonth(p.year, p.month);
      var day := dp - Weekday(Day(year, month, 1)) + 1 + k;
      day >= 0 && GridCell(year, month, k) == Cell(day, false, FormatDate(Day(p.year, p.month, day)))
  {
    var p := AddMonths(year, month, -1);
    MonthIndexDiffers(p.year, p.month, year, month);
  }

  lemma MonthCell(year: int, month: nat, k: nat)
    requires month < 12 && Weekday(Day(year, month, 1)) <= k < Weekday(Day(year, month, 1)) + DaysInMonth(year, month)
    ensures var day := k - Weekday(Day(year, month, 1)) + 1;
      day >= 0 && GridCell(year, month, k) == Cell(day, true, FormatDate(Day(year, month, day)))
  {
  }

  lemma TrailingCell(year: int, month: nat, k: nat)
    requires month < 12 && Weekday(Day(year, month, 1)) + DaysInMonth(year, month) <= k
    ensures var n := AddMonths(year, month, 1);
      var day := k - Weekday(Day(year, month, 1)) - DaysInMonth(year, month) + 1;
      day >= 0 && GridCell(year, month, k) == Cell(day, false, FormatDate(Day(n.year, n.month, day)))
  {
    var n := AddMonths(year, month, 1);
    MonthIndexDiffers(n.year, n.month, year, month);
  }

  lemma MonthIndexDiffers(y1: int, m1: nat, y2: int, m2: nat)
    requires m1 < 12 && m2 < 12 && y1 * 12 + m1 != y2 * 12 + m2
    ensures !(y1 == y2 && m1 == m2)
  {
  }

  // ---------------------------------------------------------------- the page

  /** The month shown and the day selected. */
  class Calendar {
    var currentDate: Day
    var selectedDate: Day

    /** Both dates are real days, as a `Date` always is. */
    predicate Valid()
      reads this
    {
      ValidDay(currentDate) && ValidDay(selectedDate)
    }

    constructor (today: Day)
      requires ValidDay(today)
      ensures Valid()
      ensures currentDate == today && selectedDate == today
    {
      currentDate, selectedDate := today, today;
    }

    /** `prevMonth`: the 1st of the previous month. */
    method PrevMonth()
      modifies this
      requires Valid()
      ensures Valid()
      ensures currentDate == AddMonths(old(currentDate.year), old(currentDate.month), -1)
      ensures currentDate.year * 12 + currentDate.month == old(currentDate.year) * 12 + old(currentDate.month) - 1
      ensures selectedDate == old(selectedDate)
    {
      currentDate := AddMonths(currentDate.year, currentDate.month, -1);
    }

    /** `nextMonth`: the 1st of the next month. */
    method NextMonth()
      modifies this
      requires Valid()
      ensures Valid()
      ensures currentDate == AddMonths(old(currentDate.year), old(currentDate.month), 1)
      ensures currentDate.year * 12 + currentDate.month == old(currentDate.year) * 12 + old(currentDate.month) + 1
      ensures selectedDate == old(selectedDate)
    {
      currentDate := AddMonths(currentDate.year, currentDate.month, 1);
    }

    /** `goToToday`: both the month shown and the selection move to today. */
    method GoToToday(today: Day)
      modifies this
      requires ValidDay(today)
      ensures Valid()
      ensures currentDate == today && selectedDate == today
    {
      currentDate := today;
      selectedDate := today;
    }
  }
}
