/** The month calendar page (frontend/src/pages/CalendarView.jsx): month
    navigation, the grid of day cells and the events of a selected day. */
module CalendarView {
  import opened Common
  import opened Text
  import Seqs

  /** The month after (`year`, `month`), months numbered 1 to 12. */
  function Next(year: int, month: int): (r: (int, int))
    ensures month == 12 ==> r == (year + 1, 1)
    ensures month != 12 ==> r == (year, month + 1)
  {
    if month == 12 then (year + 1, 1) else (year, month + 1)
  }

  /** The month before (`year`, `month`). */
  function Prev(year: int, month: int): (r: (int, int))
    ensures month == 1 ==> r == (year - 1, 12)
    ensures month != 1 ==> r == (year, month - 1)
  {
    if month == 1 then (year - 1, 12) else (year, month - 1)
  }

  /** Going forward and back, or back and forward, returns to the same
      month, and both keep the month within 1 to 12. */
  lemma PrevNextInverse(year: int, month: int)
    requires 1 <= month <= 12
    ensures var n := Next(year, month); Prev(n.0, n.1) == (year, month)
    ensures var p := Prev(year, month); Next(p.0, p.1) == (year, month)
    ensures 1 <= Next(year, month).1 <= 12 && 1 <= Prev(year, month).1 <= 12
  {
  }

  /** Twelve steps forward advance the year by one and keep the month. */
  lemma {:induction false} NextTwelve(year: int, month: int, k: nat)
    requires 1 <= month <= 12 && k <= 12
    ensures Iterate(year, month, k) == if month + k <= 12 then (year, month + k) else (year + 1, month + k - 12)
  {
    if k > 0 {
      NextTwelve(year, month, k - 1);
    }
  }

  /** `k` presses of the next-month button. */
  function Iterate(year: int, month: int, k: nat): (int, int) {
    if k == 0 then (year, month) else var p := Iterate(year, month, k - 1); Next(p.0, p.1)
  }

  /** `calendarDays`: `firstDay` empty cells, then the days 1 to
      `daysInMonth`. */
  function Grid(firstDay: nat, daysInMonth: nat): (r: seq<Option<nat>>)
    ensures |r| == firstDay + daysInMonth
    ensures forall i :: 0 <= i < firstDay ==> r[i].None?
    ensures forall i :: firstDay <= i < |r| ==> r[i] == Some(i - firstDay + 1)
  {
    seq(firstDay, _ => None) + seq(daysInMonth, k => Some(k + 1))
  }

  /** Every day of the month has exactly one cell, `firstDay + day - 1`. */
  lemma GridDayOnce(firstDay: nat, daysInMonth: nat, i: nat, day: nat)
    requires i < |Grid(firstDay, daysInMonth)|
    ensures Grid(firstDay, daysInMonth)[i] == Some(day) <==> 1 <= day <= daysInMonth && i == firstDay + day - 1
  {
  }

  /** The two `push` loops building the grid. */
  method CalendarDays(firstDay: nat, daysInMonth: nat) returns (cells: seq<Option<nat>>)
    ensures cells == Grid(firstDay, daysInMonth)
  {
    cells := [];
    for i := 0 to firstDay
      invariant cells == seq(i, _ => None)
    {
      cells := cells + [None];
    }
    var d := 1;
    while d <= daysInMonth
      invariant 1 <= d <= daysInMonth + 1
      invariant cells == seq(firstDay, _ => None) + seq(d - 1, k => Some(k + 1))
    {
      cells := cells + [Some(d)];
      d := d + 1;
    }
  }

  /** `String(n).padStart(2, '0')`. */
  function Pad2(n: int): string {
    PadStart(IntToString(n), 2, '0')
  }

  /** A day or month from 1 to 99 pads to two digits worth that number. */
  lemma Pad2Digits(n: int)
    requires 1 <= n <= 99
    ensures |Pad2(n)| == 2 && AllDigits(Pad2(n)) && DigitsValue(Pad2(n)) == n
  {
    NatToStringLength(n, 2);
    var s := NatToString(n);
    LeadingZerosValue(2 - |s|, s);
    assert Pad2(n) == seq(2 - |s|, _ => '0') + s;
  }

  /** `dateStr`: `YYYY-MM-DD`. */
  function DateKey(year: int, month: int, day: int): string {
    IntToString(year) + "-" + Pad2(month) + "-" + Pad2(day)
  }

  /** Different days of one month have different keys. */
  lemma DateKeyDistinct(year: int, month: int, d1: int, d2: int)
    requires 1 <= d1 <= 99 && 1 <= d2 <= 99 && d1 != d2
    ensures DateKey(year, month, d1) != DateKey(year, month, d2)
  {
    Pad2Digits(d1);
    Pad2Digits(d2);
    var k1, k2 := DateKey(year, month, d1), DateKey(year, month, d2);
    assert k1[|k1| - 2..] == Pad2(d1);
    assert k2[|k2| - 2..] == Pad2(d2);
  }

  /** An event of the month; `date` is its ISO text, `''` when it has none. */
  datatype DayEvent = DayEvent(date: string, text: string)

  /** The filter `e => e.date && e.date.slice(0, 10) === key`. */
  function OnDate(key: string): DayEvent -> bool {
    (e: DayEvent) => e.date != "" && Slice0(e.date, 10) == key
  }

  class Calendar {
    var year: int
    var month: int
    var selectedDay: int
    var events: seq<DayEvent>

    predicate Valid()
      reads this
    {
      1 <= month <= 12
    }

    /** The page opens on today's month and day. */
    constructor (year: int, month: int, day: int)
      requires 1 <= month <= 12
      ensures Valid() && this.year == year && this.month == month && selectedDay == day && events == []
    {
      this.year, this.month, selectedDay, events := year, month, day, [];
    }

    /** `prevMonth`: the month before, with day 1 selected. */
    method PrevMonth()
      requires Valid()
      modifies this
      ensures Valid() && (year, month) == Prev(old(year), old(month)) && selectedDay == 1
      ensures events == old(events)
    {
      if month == 1 {
        month := 12;
        year := year - 1;
      } else {
        month := month - 1;
      }
      selectedDay := 1;
    }

    /** `nextMonth`: the month after, with day 1 selected. */
    method NextMonth()
      requires Valid()
      modifies this
      ensures Valid() && (year, month) == Next(old(year), old(month)) && selectedDay == 1
      ensures events == old(events)
    {
      if month == 12 {
        month := 1;
        year := year + 1;
      } else {
        month := month + 1;
      }
      selectedDay := 1;
    }

    /** `eventsForDay`: no day (`null` or 0) has no events; otherwise the
        events dated on that day of the shown month, in their order. */
    function EventsForDay(day: Option<int>): (r: seq<DayEvent>)
      reads this
      ensures day.None? || day == Some(0) ==> r == []
      ensures day.Some? && day.value != 0 ==>
                forall e :: e in r <==> e in events && e.date != "" && Slice0(e.date, 10) == DateKey(year, month, day.value)
    {
      if day.None? || day == Some(0) then []
      else Seqs.Filter(events, OnDate(DateKey(year, month, day.value)))
    }

    /** The events of a day keep the order they have in the full list. */
    lemma EventsForDayInOrder(d: int, i: int, j: int)
      requires d != 0
      requires 0 <= i < j < |EventsForDay(Some(d))|
      ensures exists p, q :: 0 <= p < q < |events|
                && events[p] == EventsForDay(Some(d))[i] && events[q] == EventsForDay(Some(d))[j]
    {
      var onDay := OnDate(DateKey(year, month, d));
      Seqs.KeptCountLength(events, onDay);
      Seqs.FilterPosAt(events, onDay, i);
      Seqs.FilterPosAt(events, onDay, j);
      Seqs.FilterPosMonotone(events, onDay, i, j);
      var p, q := Seqs.FilterPos(events, onDay, i), Seqs.FilterPos(events, onDay, j);
      assert 0 <= p < q < |events|;
    }

    /** No event is listed under two different days. */
    lemma DaysDisjoint(d1: int, d2: int, e: DayEvent)
      requires 1 <= d1 <= 31 && 1 <= d2 <= 31 && d1 != d2
      ensures !(e in EventsForDay(Some(d1)) && e in EventsForDay(Some(d2)))
    {
      DateKeyDistinct(year, month, d1, d2);
    }
  }
}
