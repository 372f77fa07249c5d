/**
 The calendar by day numbers: how days, moments and next scans look when days are counted
 one after another, leap years included.
 */
module CalendarDays {
  import opened Catalogue
  import opened ScanCalendar

  /** Days before the first of January of year `y`. */
  function YearStart(y: int): int {
    365 * (y - 1) + (y - 1) / 4 - (y - 1) / 100 + (y - 1) / 400
  }

  const MONTH_STARTS: seq<int> := [0, 31, 59, 90, 120, 151, 181, 212, 243, 273, 304, 334, 365]

  /** Days of year `y` before its month `m`; a long year has its extra day in February. */
  function MonthStart(y: int, m: int): int
    requires 1 <= m <= 13
  {
    MONTH_STARTS[m - 1] + if m > 2 && YearStart(y + 1) - YearStart(y) == 366 then 1 else 0
  }

  /** The number of a day, counted from the first of January of year 1. */
  function DayNumber(m: Moment): int
    requires 1 <= m.month <= 12
  {
    YearStart(m.year) + MonthStart(m.year, m.month) + m.day
  }

  /** At an earlier day, or at an earlier time of the same day. */
  predicate Earlier(a: Moment, b: Moment)
    requires 1 <= a.month <= 12 && 1 <= b.month <= 12
  {
    DayNumber(a) < DayNumber(b) || (DayNumber(a) == DayNumber(b) && a.at < b.at)
  }

  lemma LongYearIs(y: int)
    ensures YearStart(y + 1) - YearStart(y) == if LeapYear(y) then 366 else 365
  {
    var x := y - 1;
    assert y / 4 - x / 4 == if y % 4 == 0 then 1 else 0;
    assert y / 100 - x / 100 == if y % 100 == 0 then 1 else 0;
    assert y / 400 - x / 400 == if y % 400 == 0 then 1 else 0;
    assert y % 400 == 0 ==> y % 100 == 0;
    assert y % 100 == 0 ==> y % 4 == 0;
  }

  /** Which dates there are: month by month, up to where the next month starts. */
  lemma DatesAre(y: int, m: int, d: int)
    ensures RealDate(y, m, d) <==> 1 <= m <= 12 && 1 <= d <= MonthStart(y, m + 1) - MonthStart(y, m)
  {
    LongYearIs(y);
  }

  /** The next day has the next number. */
  lemma NextDayIs(m: Moment)
    requires RealDate(m.year, m.month, m.day)
    ensures var n := NextDay(m);
            RealDate(n.year, n.month, n.day) && DayNumber(n) == DayNumber(m) + 1 && n.at == m.at
  {
    LongYearIs(m.year);
    hide YearStart;
  }

  lemma {:induction false} AddDaysIs(m: Moment, n: nat)
    requires RealDate(m.year, m.month, m.day)
    ensures var r := AddDays(m, n);
            RealDate(r.year, r.month, r.day) && DayNumber(r) == DayNumber(m) + n && r.at == m.at
    decreases n
  {
    if n == 0 {
    } else {
      NextDayIs(m);
      hide DayNumber;
      AddDaysIs(NextDay(m), n - 1);
    }
  }

  lemma {:induction false} YearsRise(y: int, z: int)
    requires y < z
    ensures YearStart(y) + 365 <= YearStart(y + 1) <= YearStart(z)
    decreases z - y
  {
    LongYearIs(y);
    if y + 1 < z {
      YearsRise(y + 1, z);
    }
  }

  /** Moments are ordered as their day numbers and times of day are. */
  lemma EarlierIs(a: Moment, b: Moment)
    requires RealDate(a.year, a.month, a.day) && RealDate(b.year, b.month, b.day)
    ensures Less(a, b) <==> Earlier(a, b)
    ensures AtMost(a, b) <==> !Earlier(b, a)
  {
    if a.year < b.year {
      WithinYear(a);
      WithinYear(b);
      YearsRise(a.year, b.year);
    } else if b.year < a.year {
      WithinYear(a);
      WithinYear(b);
      YearsRise(b.year, a.year);
    } else {
      LongYearIs(a.year);
      hide YearStart;
    }
  }

  lemma WithinYear(a: Moment)
    requires RealDate(a.year, a.month, a.day)
    ensures YearStart(a.year) < DayNumber(a) <= YearStart(a.year + 1)
  {
    LongYearIs(a.year);
    hide YearStart;
  }

  // ------------------------------------------------------------ slots, scans

  /** The days of the month that a policy names; if none of them exists, the usual six. */
  ghost predicate NamesDay(p: Policy, d: int) {
    if exists v :: NamesItself(p.days, v) && 1 <= v <= 31 then NamesItself(p.days, d) && 1 <= d <= 31
    else d in {1, 3, 5, 7, 10, 15}
  }

  /** A policy entry names a value by itself or in a list. */
  ghost predicate NamesItself<T(!new)>(e: Entries<T>, v: T) {
    match e
    case Single(w) => w == Some(v)
    case Many(ws) => exists i :: 0 <= i < |ws| && ws[i] == Some(v)
    case _ => false
  }

  predicate OnClock(hour: int, minute: int) {
    0 <= hour < 24 && 0 <= minute < 60
  }

  /** The times of day that a policy names; if none of them exists, eight and two o'clock. */
  ghost predicate NamesTime(p: Policy, hour: int, minute: int) {
    if exists h, m :: NamesItself(p.times, ClockTime(h, m)) && OnClock(h, m) then
      NamesItself(p.times, ClockTime(hour, minute)) && OnClock(hour, minute)
    else minute == 0 && (hour == 8 || hour == 14)
  }

  /** A moment at which a monthly source is to be scanned. */
  ghost predicate IsDueSlot(p: Policy, m: Moment) {
    && RealDate(m.year, m.month, m.day) && NamesDay(p, m.day)
    && exists hour, minute :: NamesTime(p, hour, minute) && m.at == (3600 * hour + 60 * minute) * 1_000_000
  }

  lemma SlotIs(p: Policy, m: Moment)
    ensures Slot(p, m) <==> IsDueSlot(p, m)
  {
    ScanDaysExact(p.days);
    ScanTimesExact(p.times);
    forall v
      ensures Some(v) in Listed(p.days) <==> NamesItself(p.days, v)
    {
      ListedIs(p.days, v);
    }
    forall v
      ensures Some(v) in Listed(p.times) <==> NamesItself(p.times, v)
    {
      ListedIs(p.times, v);
    }
    DaysAre(p, m.day);
    TimesAre(p, m);
    hide ScanDays, ScanTimes, NamesDay, NamesTime, Micros;
  }

  lemma ListedIs<T(!new)>(e: Entries<T>, v: T)
    ensures Some(v) in Listed(e) <==> NamesItself(e, v)
  {
    if e.Many? && Some(v) in e.values {
      var i :| 0 <= i < |e.values| && e.values[i] == Some(v);
    }
  }

  lemma DaysAre(p: Policy, d: int)
    ensures d in ScanDays(p.days) <==> NamesDay(p, d)
  {
    ScanDaysExact(p.days);
    forall v
      ensures IsListedDay(p.days, v) <==> NamesItself(p.days, v) && 1 <= v <= 31
    {
      ListedIs(p.days, v);
    }
    hide ScanDays, NamesItself, IsListedDay;
  }

  lemma TimeIs(p: Policy, hour: int, minute: int)
    ensures ClockTime(hour, minute) in ScanTimes(p.times) <==> NamesTime(p, hour, minute)
  {
    ScanTimesExact(p.times);
    forall h, m
      ensures IsListedTime(p.times, ClockTime(h, m)) <==> NamesItself(p.times, ClockTime(h, m)) && OnClock(h, m)
    {
      ListedIs(p.times, ClockTime(h, m));
    }
    hide ScanTimes, NamesItself, IsListedTime;
    assert forall t: ClockTime :: t == ClockTime(t.hour, t.minute);
  }

  lemma TimesAre(p: Policy, m: Moment)
    ensures (exists t :: t in ScanTimes(p.times) && m.at == Micros(t)) <==>
            (exists hour, minute :: NamesTime(p, hour, minute) && m.at == (3600 * hour + 60 * minute) * 1_000_000)
  {
    hide ScanTimes, NamesTime;
    if t :| t in ScanTimes(p.times) && m.at == Micros(t) {
      TimeIs(p, t.hour, t.minute);
      assert NamesTime(p, t.hour, t.minute) && m.at == (3600 * t.hour + 60 * t.minute) * 1_000_000;
    }
    if hour, minute :| NamesTime(p, hour, minute) && m.at == (3600 * hour + 60 * minute) * 1_000_000 {
      TimeIs(p, hour, minute);
      assert ClockTime(hour, minute) in ScanTimes(p.times) && m.at == Micros(ClockTime(hour, minute));
    }
  }

  /** When the next scan is: a week later, at the start of the next day, or at the first slot after. */
  lemma NextScanIs(p: Policy, after: Moment, r: Moment)
    requires RealMoment(after) && IsNextScan(p, after, r)
    ensures RealDate(r.year, r.month, r.day)
    ensures p.frequency == Weekly ==> DayNumber(r) == DayNumber(after) + 7 && r.at == after.at
    ensures p.frequency == Daily ==> DayNumber(r) == DayNumber(after) + 1 && r.at == 0
    ensures p.frequency == Monthly ==>
              && IsDueSlot(p, r) && Earlier(after, r)
              && forall s :: IsDueSlot(p, s) && Earlier(after, s) ==> !Earlier(s, r)
  {
    hide DayNumber, IsDueSlot, Less, AtMost, AddDays;
    match p.frequency {
      case Weekly => AddDaysIs(after, 7);
      case Daily =>
        NextDayIs(after);
        MidnightIs(NextDay(after));
      case Monthly =>
        SlotIs(p, r);
        SlotIsReal(p, r);
        EarlierIs(after, r);
        forall s | IsDueSlot(p, s)
          ensures 1 <= s.month <= 12 && (Earlier(after, s) ==> !Earlier(s, r))
        {
          SlotIs(p, s);
          SlotIsReal(p, s);
          EarlierIs(after, s);
          EarlierIs(r, s);
        }
    }
  }

  lemma SlotIsReal(p: Policy, s: Moment)
    requires IsDueSlot(p, s)
    ensures RealDate(s.year, s.month, s.day)
  {
  }

  lemma MidnightIs(m: Moment)
    requires 1 <= m.month <= 12
    ensures Midnight(m).at == 0 && DayNumber(Midnight(m)) == DayNumber(m) && Midnight(m).month == m.month
    ensures RealDate(m.year, m.month, m.day) ==> RealDate(Midnight(m).year, Midnight(m).month, Midnight(m).day)
  {
  }
}
