/**
 * The event calendar: the month grid it draws, the events it puts on each day, the chips that
 * summarise a day, and the query it sends for the selected month.
 *
 * Time is in milliseconds since the epoch. The browser's time zone is a fixed `offset` (local
 * time minus UTC); a local calendar date is a day number counted from 1970-01-01 in local time,
 * so two instants fall on the same local date (same day, month and year) exactly when their
 * local day numbers agree. A `YYYY-MM-DD` text names a UTC day and is parsed back as that day's
 * UTC midnight.
 */
module EventCalendar {
  import opened Wrappers
  import opened Strings
  import opened Seqs
  import opened Content
  import opened Store
  import opened Paging
  import opened Http
  import opened EventController

  const DayMs: int := 86400000

  /** The length of a calendar month. */
  type MonthLength = n: nat | 28 <= n <= 31 witness 28

  /** A month as the calendar uses it: the local day number of its 1st and its length. */
  datatype Month = Month(firstDay: int, length: MonthLength)

  function LastDay(m: Month): int {
    m.firstDay + m.length - 1
  }

  /** The local day number of an instant (`getDate`, `getMonth` and `getFullYear` together). */
  function LocalDay(t: int, offset: int): int {
    (t + offset) / DayMs
  }

  /** `new Date(year, month, day)`: local midnight of a local day. */
  function LocalMidnight(day: int, offset: int): (t: int)
    ensures LocalDay(t, offset) == day
  {
    day * DayMs - offset
  }

  /** `toISOString().split('T')[0]`: the UTC day an instant falls on. */
  function UtcDay(t: int): int {
    t / DayMs
  }

  /** `getDay()` of a local day: 0 for Sunday; 1970-01-01 was a Thursday. */
  function Weekday(day: int): (w: nat)
    ensures w < 7
  {
    (day + 4) % 7
  }

  // ---------------------------------------------------------------------------------------------
  // The grid

  /** generateCalendarDays: blank cells up to the 1st's weekday, then one cell per day. */
  method CalendarDays(m: Month) returns (days: seq<Option<int>>)
    ensures |days| == Weekday(m.firstDay) + m.length
    ensures forall k :: 0 <= k < Weekday(m.firstDay) ==> days[k].None?
    ensures forall k :: Weekday(m.firstDay) <= k < |days| ==> days[k] == Some(m.firstDay + k - Weekday(m.firstDay))
  {
    var lead := Weekday(m.firstDay);
    days := [];
    var i := 0;
    while i < lead
      invariant 0 <= i <= lead
      invariant |days| == i
      invariant forall k :: 0 <= k < i ==> days[k].None?
    {
      days := days + [None];
      i := i + 1;
    }
    i := 1;
    while i <= m.length
      invariant 1 <= i <= m.length + 1
      invariant |days| == lead + i - 1
      invariant forall k :: 0 <= k < lead ==> days[k].None?
      invariant forall k :: lead <= k < |days| ==> days[k] == Some(m.firstDay + k - lead)
    {
      days := days + [Some(m.firstDay + i - 1)];
      i := i + 1;
    }
  }

  /** Day i of the month (counting from 1) sits in cell firstDayOfWeek + i - 1. */
  lemma DayInItsCell(m: Month, days: seq<Option<int>>, i: int)
    requires |days| == Weekday(m.firstDay) + m.length
    requires forall k :: Weekday(m.firstDay) <= k < |days| ==> days[k] == Some(m.firstDay + k - Weekday(m.firstDay))
    requires 1 <= i <= m.length
    ensures days[Weekday(m.firstDay) + i - 1] == Some(m.firstDay + i - 1)
    ensures m.firstDay <= m.firstDay + i - 1 <= LastDay(m)
  {
  }

  // ---------------------------------------------------------------------------------------------
  // Days and their events

  function OnDay(day: int, offset: int): Event -> bool {
    (e: Event) => LocalDay(e.date, offset) == day
  }

  /** getEventsForDate: nothing for a blank cell, else the events on that local date, in order. */
  function EventsForDate(events: seq<Event>, date: Option<int>, offset: int): (r: seq<Event>)
    ensures date.None? ==> r == []
    ensures date.Some? ==> forall e :: e in r <==> e in events && LocalDay(e.date, offset) == date.value
    ensures IsSubsequence(r, events) || r == []
  {
    if date.None? then [] else Filter(events, OnDay(date.value, offset))
  }

  /** isToday: a blank cell never is; a day is today when it is the local date of `now`. */
  function IsToday(date: Option<int>, now: int, offset: int): (b: bool)
    ensures b <==> date.Some? && date.value == LocalDay(now, offset)
  {
    if date.None? then false else date.value == LocalDay(now, offset)
  }

  /** isSelected: false for a blank cell or when nothing is selected. */
  function IsSelected(date: Option<int>, selected: Option<int>): (b: bool)
    ensures b <==> date.Some? && selected.Some? && date.value == selected.value
  {
    if date.None? || selected.None? then false else date.value == selected.value
  }

  /** The text of a title chip: the first ten characters, with "..." when there were more. */
  function ChipLabel(title: string): (text: string)
    ensures |title| <= 10 ==> text == title
    ensures |title| > 10 ==> |text| == 13 && text[..10] == title[..10] && text[10..] == "..."
  {
    Prefix(title, 10) + (if |title| > 10 then "..." else "")
  }

  /** What a day cell shows under its number. */
  datatype Chips = NoChips | TitleChips(labels: seq<string>) | CountChip(text: string)

  function TitleLabels(events: seq<Event>): (labels: seq<string>)
    ensures |labels| == |events|
    ensures forall i :: 0 <= i < |events| ==> labels[i] == ChipLabel(events[i].title)
  {
    if events == [] then []
    else
      var rest := TitleLabels(events[1..]);
      assert forall i :: 1 <= i < |events| ==> events[i] == events[1..][i - 1];
      [ChipLabel(events[0].title)] + rest
  }

  function DayChips(events: seq<Event>): Chips {
    if events == [] then NoChips
    else if |events| <= 2 then TitleChips(TitleLabels(events))
    else CountChip(NatToString(|events|) + " events")
  }

  /** One chip per event on a day with one or two events, a single count chip on a busier day. */
  lemma DayChipsShape(events: seq<Event>)
    ensures DayChips(events) == NoChips <==> events == []
    ensures 1 <= |events| <= 2 ==> DayChips(events).TitleChips? && |DayChips(events).labels| == |events|
    ensures 1 <= |events| <= 2 ==> forall i :: 0 <= i < |events| ==> |DayChips(events).labels[i]| <= 13
    ensures |events| > 2 ==> DayChips(events).CountChip? && EndsWith(DayChips(events).text, " events")
  {
    if |events| > 2 {
      var l := NatToString(|events|) + " events";
      assert l[|l| - 7..] == " events";
    }
  }

  // ---------------------------------------------------------------------------------------------
  // The month's query

  /** The type parameter: left out (no type filter) when the filter is 'all'. */
  function TypeParam(filter: string): (t: string)
    ensures filter == "all" ==> t == []
    ensures filter != "all" ==> t == filter
  {
    if filter == "all" then [] else filter
  }

  /**
   * The query as written: the 1st and the last day of the month, each taken at local midnight
   * and cut to its UTC date, and no page or limit, so the listing's defaults apply.
   */
  function QueryAsWritten(m: Month, offset: int, filter: string): EventQuery {
    EventQuery(TypeParam(filter),
               Some(UtcDay(LocalMidnight(m.firstDay, offset)) * DayMs),
               Some(UtcDay(LocalMidnight(LastDay(m), offset)) * DayMs),
               None, None)
  }

  /**
   * The corrected query: the month's first and last instants in local time, sent whole, and
   * a limit of 0, which the listing reads as "no limit".
   */
  function FetchQuery(m: Month, offset: int, filter: string): EventQuery {
    EventQuery(TypeParam(filter),
               Some(LocalMidnight(m.firstDay, offset)),
               Some(LocalMidnight(LastDay(m) + 1, offset) - 1),
               None, Some(0))
  }

  /** Local midnight cut to its UTC date: the day before in a zone east of UTC, the same day otherwise. */
  lemma MidnightUtcDay(day: int, offset: int)
    requires -DayMs < offset < DayMs
    ensures UtcDay(LocalMidnight(day, offset)) == if offset > 0 then day - 1 else day
  {
    var t := day * DayMs - offset;
    var q := if offset > 0 then day - 1 else day;
    assert q * DayMs <= t < q * DayMs + DayMs;
  }

  /**
   * Finding: in every time zone the query as written misses the events of the month's last
   * day; only in UTC does an event exactly at midnight still get in.
   */
  lemma LastDayMissedAsWritten(m: Month, offset: int, filter: string, e: Event)
    requires -DayMs < offset < DayMs
    requires LocalDay(e.date, offset) == LastDay(m)
    ensures EventMatches(QueryAsWritten(m, offset, filter), e) ==> offset == 0 && e.date == LastDay(m) * DayMs
  {
    MidnightUtcDay(LastDay(m), offset);
  }

  /** An event at 10:00 on 30 April 2024 in India (UTC+05:30) is left off April's calendar. */
  lemma IstLastDayMissedAsWritten()
    ensures var april := Month(19814, 30);
      var ist := 19800000;
      var e := Event(1, "Tech fest", "Opening", LocalMidnight(19843, ist) + 36000000, "10:00", "12:00",
                     "Main hall", 2, "Computer Science", "cultural", [], 0, 0);
      LocalDay(e.date, ist) == LastDay(april) && !EventMatches(QueryAsWritten(april, ist, "all"), e)
  {
    var april := Month(19814, 30);
    var ist := 19800000;
    var e := Event(1, "Tech fest", "Opening", LocalMidnight(19843, ist) + 36000000, "10:00", "12:00",
                   "Main hall", 2, "Computer Science", "cultural", [], 0, 0);
    assert LocalDay(e.date, ist) == 19843;
    LastDayMissedAsWritten(april, ist, "all", e);
  }

  /** The corrected query takes an event exactly when its local date lies in the month. */
  lemma FetchQueryExact(m: Month, offset: int, filter: string, e: Event)
    ensures EventMatches(FetchQuery(m, offset, filter), e) <==>
      (TypeParam(filter) == [] || e.eventType == filter)
      && m.firstDay <= LocalDay(e.date, offset) <= LastDay(m)
  {
    var d := LocalDay(e.date, offset);
    assert d * DayMs <= e.date + offset < d * DayMs + DayMs;
  }

  /** The sorted matches of a query, which the listing pages through. */
  function Matching(db: Db, q: EventQuery): seq<Event> {
    SortBy(Filter(db.events, MatchesQuery(q)), DateKey)
  }

  /** Finding: as written the month shows at most the first ten of its matching events. */
  lemma AtMostTenAsWritten(db: Db, m: Month, offset: int, filter: string)
    ensures var q := QueryAsWritten(m, offset, filter);
      var s := Matching(db, q);
      ListEvents(db, q).Ok?
      && ListEvents(db, q).body.items == (if |s| <= 10 then s else s[..10])
  {
    PaginateDefaults(Matching(db, QueryAsWritten(m, offset, filter)));
  }

  /** The corrected query receives every matching event, earliest first. */
  lemma FetchShowsAll(db: Db, m: Month, offset: int, filter: string)
    ensures var q := FetchQuery(m, offset, filter);
      ListEvents(db, q).Ok? && ListEvents(db, q).body.items == Matching(db, q)
      && SortedBy(ListEvents(db, q).body.items, DateKey)
  {
    var s := Matching(db, FetchQuery(m, offset, filter));
    assert Window(s, Skip(1, 0), 0) == s[0..|s|];
    assert s[0..|s|] == s;
  }

  // ---------------------------------------------------------------------------------------------
  // The component

  const FetchFailed := "Failed to fetch events. Please try again."

  class Calendar {
    const offset: int
    var events: seq<Event>
    var error: string
    var filter: string
    var selectedDate: Option<int>
    var selectedMonth: Month
    var calendarDays: seq<Option<int>>

    /** The calendar opens on the current month with every type shown; it loads on first render. */
    constructor (now: int, month: Month, offset: int)
      ensures this.offset == offset && events == [] && error == "" && filter == "all"
      ensures selectedDate == Some(LocalDay(now, offset)) && selectedMonth == month && calendarDays == []
    {
      this.offset := offset;
      events, error, filter := [], "", "all";
      selectedDate, selectedMonth, calendarDays := Some(LocalDay(now, offset)), month, [];
    }

    /**
     * The effect run whenever the type or the month changes: fetch the month's events from the
     * listing (`reachable` false when the request itself fails) and rebuild the grid.
     */
    method Load(db: Db, reachable: bool)
      modifies this
      ensures var q := FetchQuery(selectedMonth, offset, filter);
        if reachable && ListEvents(db, q).Ok? then events == ListEvents(db, q).body.items && error == ""
        else events == old(events) && error == FetchFailed
      ensures |calendarDays| == Weekday(selectedMonth.firstDay) + selectedMonth.length
      ensures forall k :: Weekday(selectedMonth.firstDay) <= k < |calendarDays| ==>
        calendarDays[k] == Some(selectedMonth.firstDay + k - Weekday(selectedMonth.firstDay))
      ensures filter == old(filter) && selectedDate == old(selectedDate) && selectedMonth == old(selectedMonth)
    {
      error := "";
      var answer := ListEvents(db, FetchQuery(selectedMonth, offset, filter));
      if reachable && answer.Ok? {
        events := answer.body.items;
      } else {
        error := FetchFailed;
      }
      calendarDays := CalendarDays(selectedMonth);
    }

    method TypeChange(t: string)
      modifies this
      ensures filter == t
      ensures events == old(events) && error == old(error) && selectedDate == old(selectedDate)
      ensures selectedMonth == old(selectedMonth) && calendarDays == old(calendarDays)
    {
      filter := t;
    }

    method MonthChange(m: Month)
      modifies this
      ensures selectedMonth == m
      ensures events == old(events) && error == old(error) && selectedDate == old(selectedDate)
      ensures filter == old(filter) && calendarDays == old(calendarDays)
    {
      selectedMonth := m;
    }

    /** handleDateClick: a blank cell selects nothing. */
    method DateClick(date: Option<int>)
      modifies this
      ensures selectedDate == if date.Some? then date else old(selectedDate)
      ensures events == old(events) && error == old(error) && filter == old(filter)
      ensures selectedMonth == old(selectedMonth) && calendarDays == old(calendarDays)
    {
      if date.Some? {
        selectedDate := date;
      }
    }
  }
}
