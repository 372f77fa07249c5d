/**
 When a source is next due. Moments are local calendar times in one fixed-offset zone,
 ordered by year, month, day and time of day in microseconds.
 */
module ScanCalendar {
  import opened Catalogue

  datatype Moment = Moment(year: int, month: int, day: int, at: int)

  datatype ClockTime = ClockTime(hour: int, minute: int)

  predicate Less(a: Moment, b: Moment) {
    || a.year < b.year
    || (a.year == b.year
       && (a.month < b.month || (a.month == b.month && (a.day < b.day || (a.day == b.day && a.at < b.at)))))
  }

  predicate AtMost(a: Moment, b: Moment) {
    a == b || Less(a, b)
  }

  predicate LeapYear(y: int) {
    y % 4 == 0 && (y % 100 != 0 || y % 400 == 0)
  }

  function DaysIn(y: int, m: int): int {
    if m == 2 then (if LeapYear(y) then 29 else 28)
    else if m == 4 || m == 6 || m == 9 || m == 11 then 30
    else 31
  }

  predicate RealDate(y: int, m: int, d: int) {
    1 <= m <= 12 && 1 <= d <= DaysIn(y, m)
  }

  predicate RealMoment(t: Moment) {
    RealDate(t.year, t.month, t.day) && 0 <= t.at < 86_400_000_000
  }

  function Micros(t: ClockTime): int {
    (t.hour * 60 + t.minute) * 60_000_000
  }

  predicate ValidTime(t: ClockTime) {
    0 <= t.hour < 24 && 0 <= t.minute < 60
  }

  // ----------------------------------------------------------- the policy

  // A policy entry as written: missing, a single value, a list, or something else.
  datatype Entries<T> = Absent | Single(value: Option<T>) | Many(values: seq<Option<T>>) | Other

  function Listed<T>(e: Entries<T>): seq<Option<T>> {
    match e
    case Single(v) => [v]
    case Many(vs) => vs
    case _ => []
  }

  const DEFAULT_DAYS: set<int> := {1, 3, 5, 7, 10, 15}
  const DEFAULT_TIMES: set<ClockTime> := {ClockTime(8, 0), ClockTime(14, 0)}

  /** `scan_days`: the usable entries, or the default when there are none. */
  function ScanDays(e: Entries<int>): (days: set<int>)
    ensures days != {} && forall d :: d in days ==> 1 <= d <= 31
  {
    if e.Absent? then DEFAULT_DAYS
    else
      var days := set v | v in Listed(e) && v.Some? && 1 <= v.value <= 31 :: v.value;
      if days == {} then
        assert 1 in DEFAULT_DAYS;
        DEFAULT_DAYS
      else days
  }

  predicate IsListedDay(e: Entries<int>, d: int) {
    Some(d) in Listed(e) && 1 <= d <= 31
  }

  /** If any listed entry is a day of the month, exactly those are scan days; if none is, the default ones are. */
  lemma ScanDaysExact(e: Entries<int>)
    ensures if exists d :: IsListedDay(e, d) then forall d :: d in ScanDays(e) <==> IsListedDay(e, d)
            else ScanDays(e) == DEFAULT_DAYS
  {
    if e.Absent? {
      assert Listed(e) == [];
    } else {
      var days := set v | v in Listed(e) && v.Some? && 1 <= v.value <= 31 :: v.value;
      assert forall d :: d in days <==> IsListedDay(e, d);
    }
  }

  /** `scan_times`: likewise, for times that parse and exist. */
  function ScanTimes(e: Entries<ClockTime>): (times: set<ClockTime>)
    ensures times != {} && forall t :: t in times ==> ValidTime(t)
  {
    if e.Absent? then
      assert ClockTime(8, 0) in DEFAULT_TIMES;
      DEFAULT_TIMES
    else
      var times := set v | v in Listed(e) && v.Some? && ValidTime(v.value) :: v.value;
      if times == {} then
        assert ClockTime(8, 0) in DEFAULT_TIMES;
        DEFAULT_TIMES
      else times
  }

  predicate IsListedTime(e: Entries<ClockTime>, t: ClockTime) {
    Some(t) in Listed(e) && ValidTime(t)
  }

  /** Likewise for the times that parse. */
  lemma ScanTimesExact(e: Entries<ClockTime>)
    ensures if exists t :: IsListedTime(e, t) then forall t :: t in ScanTimes(e) <==> IsListedTime(e, t)
            else ScanTimes(e) == DEFAULT_TIMES
  {
    if e.Absent? {
      assert Listed(e) == [];
    } else {
      var times := set v | v in Listed(e) && v.Some? && ValidTime(v.value) :: v.value;
      assert forall t :: t in times <==> IsListedTime(e, t);
    }
  }

  datatype Frequency = Daily | Weekly | Monthly

  datatype Policy = Policy(frequency: Frequency, days: Entries<int>, times: Entries<ClockTime>)

  /** A configured slot: an existing date on a scan day, at a scan time. */
  predicate Slot(p: Policy, m: Moment) {
    && RealDate(m.year, m.month, m.day) && m.day in ScanDays(p.days)
    && exists t :: t in ScanTimes(p.times) && m.at == Micros(t)
  }

  // ---------------------------------------------------------- day arithmetic

  function NextDay(m: Moment): Moment {
    if m.day < DaysIn(m.year, m.month) then m.(day := m.day + 1)
    else if m.month < 12 then m.(month := m.month + 1, day := 1)
    else m.(year := m.year + 1, month := 1, day := 1)
  }

  function AddDays(m: Moment, n: nat): Moment
    decreases n
  {
    if n == 0 then m else AddDays(NextDay(m), n - 1)
  }

  function Midnight(m: Moment): Moment {
    m.(at := 0)
  }

  // ----------------------------------------------------------------- months

  /** The month `k` months after that of `m`. */
  function MonthAfter(m: Moment, k: nat): (ym: (int, int))
    requires 1 <= m.month <= 12
    ensures 1 <= ym.1 <= 12
    decreases k
  {
    if k == 0 then (m.year, m.month)
    else
      var (y, mo) := MonthAfter(m, k - 1);
      if mo + 1 > 12 then (y + 1, 1) else (y, mo + 1)
  }

  predicate MonthLess(a: (int, int), b: (int, int)) {
    a.0 < b.0 || (a.0 == b.0 && a.1 < b.1)
  }

  lemma {:induction false} MonthsRise(m: Moment, j: nat, k: nat)
    requires 1 <= m.month <= 12 && j < k
    ensures MonthLess(MonthAfter(m, j), MonthAfter(m, k))
    decreases k
  {
    if j < k - 1 {
      MonthsRise(m, j, k - 1);
    }
  }

  /** A month that is not before the first is one of the following ones, or after them all. */
  lemma {:induction false} MonthsInOrder(m: Moment, s: Moment, k: nat) returns (j: nat)
    requires 1 <= m.month <= 12 && 1 <= s.month <= 12 && Less(m, s)
    ensures j <= k
            && (MonthAfter(m, j) == (s.year, s.month) || (j == k && MonthLess(MonthAfter(m, k), (s.year, s.month))))
    decreases k
  {
    if k == 0 {
      j := 0;
    } else {
      j := MonthsInOrder(m, s, k - 1);
      if MonthAfter(m, j) != (s.year, s.month) {
        j := k;
      }
    }
  }

  /** Of two months in a row, one has 31 days. */
  lemma LongMonthSoon(m: Moment, k: nat)
    requires 1 <= m.month <= 12
    ensures DaysIn(MonthAfter(m, k).0, MonthAfter(m, k).1) == 31
            || DaysIn(MonthAfter(m, k + 1).0, MonthAfter(m, k + 1).1) == 31
  {
  }

  // ------------------------------------------------------------ the search

  /** `r` is the first configured slot strictly after `after`. */
  ghost predicate IsNextSlot(p: Policy, after: Moment, r: Moment) {
    Slot(p, r) && Less(after, r) && forall s :: Slot(p, s) && Less(after, s) ==> AtMost(r, s)
  }

  /** `best` is the least slot of month (y, m), on the days and times seen, that lies after `after`. */
  ghost predicate BestOf(p: Policy, after: Moment, y: int, m: int, days: set<int>, times: set<ClockTime>,
                         best: Option<Moment>) {
    && (best.Some? ==> Slot(p, best.value) && Less(after, best.value) && best.value.year == y && best.value.month == m)
    && forall d, t :: d in days && t in times && RealDate(y, m, d) && Less(after, Moment(y, m, d, Micros(t))) ==>
         best.Some? && AtMost(best.value, Moment(y, m, d, Micros(t)))
  }

  /** One scan day of a month: every scan time is tried. */
  method TryDay(p: Policy, after: Moment, y: int, m: int, d: int, best0: Option<Moment>, ghost days: set<int>)
    returns (best: Option<Moment>)
    requires d in ScanDays(p.days) && BestOf(p, after, y, m, days, ScanTimes(p.times), best0)
    ensures BestOf(p, after, y, m, days + {d}, ScanTimes(p.times), best)
  {
    best := best0;
    var todo := ScanTimes(p.times);
    ghost var times := ScanTimes(p.times);
    assert times - todo == {};
    BestOfNoTimes(p, after, y, m, d, days, times, best);
    hide BestOf;
    while todo != {}
      invariant todo <= times
      invariant BestOf(p, after, y, m, days, times, best) && BestOf(p, after, y, m, {d}, times - todo, best)
      decreases todo
    {
      var t :| t in todo;
      BestWith(p, after, y, m, d, t, days, times, best);
      BestWith(p, after, y, m, d, t, {d}, times - todo, best);
      todo := todo - {t};
      assert times - todo == times - (todo + {t}) + {t};
      ghost var was := best;
      var candidate := Moment(y, m, d, Micros(t));
      if RealDate(y, m, d) && Less(after, candidate) && (best.None? || Less(candidate, best.value)) {
        best := Some(candidate);
      }
      assert best == Better(after, y, m, d, t, was);
    }
    assert times - todo == times;
    BestOfBoth(p, after, y, m, d, days, times, best);
  }

  /** The candidate, if it is a date, lies after `after` and before the best so far. */
  ghost function Better(after: Moment, y: int, m: int, d: int, t: ClockTime, best: Option<Moment>): Option<Moment> {
    var candidate := Moment(y, m, d, Micros(t));
    if RealDate(y, m, d) && Less(after, candidate) && (best.None? || Less(candidate, best.value)) then Some(candidate)
    else best
  }

  lemma BestOfNoTimes(p: Policy, after: Moment, y: int, m: int, d: int, days: set<int>, times: set<ClockTime>,
                      best: Option<Moment>)
    requires BestOf(p, after, y, m, days, times, best)
    ensures BestOf(p, after, y, m, {d}, {}, best)
  {
  }

  lemma BestWith(p: Policy, after: Moment, y: int, m: int, d: int, t: ClockTime, days: set<int>, times: set<ClockTime>,
                 best: Option<Moment>)
    requires d in ScanDays(p.days) && t in ScanTimes(p.times) && BestOf(p, after, y, m, days, times, best)
    ensures BestOf(p, after, y, m, days, times, Better(after, y, m, d, t, best))
    ensures days == {d} ==> BestOf(p, after, y, m, days, times + {t}, Better(after, y, m, d, t, best))
  {
  }

  lemma BestOfBoth(p: Policy, after: Moment, y: int, m: int, d: int, days: set<int>, times: set<ClockTime>,
                   best: Option<Moment>)
    requires BestOf(p, after, y, m, days, times, best) && BestOf(p, after, y, m, {d}, times, best)
    ensures BestOf(p, after, y, m, days + {d}, times, best)
  {
  }

  /** One month: the least slot in it after `after`, if there is one. */
  method TryMonth(p: Policy, after: Moment, y: int, m: int) returns (best: Option<Moment>)
    ensures best.Some? ==>
              Slot(p, best.value) && Less(after, best.value) && best.value.year == y && best.value.month == m
    ensures forall s :: Slot(p, s) && Less(after, s) && s.year == y && s.month == m ==>
              best.Some? && AtMost(best.value, s)
  {
    best := None;
    var todo := ScanDays(p.days);
    while todo != {}
      invariant todo <= ScanDays(p.days)
      invariant BestOf(p, after, y, m, ScanDays(p.days) - todo, ScanTimes(p.times), best)
      decreases todo
    {
      var d :| d in todo;
      best := TryDay(p, after, y, m, d, best, ScanDays(p.days) - todo);
      assert ScanDays(p.days) - todo + {d} == ScanDays(p.days) - (todo - {d});
      todo := todo - {d};
    }
    assert ScanDays(p.days) - todo == ScanDays(p.days);
    forall s | Slot(p, s) && Less(after, s) && s.year == y && s.month == m
      ensures best.Some? && AtMost(best.value, s)
    {
      var t :| t in ScanTimes(p.times) && s.at == Micros(t);
      assert s == Moment(y, m, s.day, Micros(t));
    }
  }

  /** A month with 31 days that comes later has a slot on every scan day. */
  lemma LongMonthHasSlot(p: Policy, after: Moment, k: nat) returns (s: Moment)
    requires 1 <= after.month <= 12 && k > 0
    requires DaysIn(MonthAfter(after, k).0, MonthAfter(after, k).1) == 31
    ensures Slot(p, s) && Less(after, s) && (s.year, s.month) == MonthAfter(after, k)
  {
    var d :| d in ScanDays(p.days);
    var times := ScanTimes(p.times);
    assert times != {};
    var t :| t in times;
    var (y, m) := MonthAfter(after, k);
    MonthsRise(after, 0, k);
    s := Moment(y, m, d, Micros(t));
  }

  /**
   The monthly search: it always finds a slot, within three months, and the slot is the
   first one strictly after `after`. The final error of the original is never reached.
   */
  method NextMonthly(p: Policy, after: Moment) returns (r: Moment, months: nat)
    requires 1 <= after.month <= 12
    ensures IsNextSlot(p, after, r)
    ensures 1 <= months <= 3
  {
    var year, month := after.year, after.month;
    r := after;
    months := 0;
    while months < 14
      invariant 0 <= months <= 2
      invariant (year, month) == MonthAfter(after, months)
      invariant forall j: nat, s :: j < months && Slot(p, s) && Less(after, s) ==>
                  (s.year, s.month) != MonthAfter(after, j)
    {
      var best := TryMonth(p, after, year, month);
      months := months + 1;
      if best.Some? {
        r := best.value;
        return;
      }
      if months == 3 {
        LongMonthSoon(after, 1);
        if DaysIn(MonthAfter(after, 1).0, MonthAfter(after, 1).1) == 31 {
          var s := LongMonthHasSlot(p, after, 1);
        } else {
          var s := LongMonthHasSlot(p, after, 2);
        }
        assert false;
      }
      month := month + 1;
      if month > 12 {
        year, month := year + 1, 1;
      }
    }
    assert false;
  }

  /** What `next_scan_at` returns, frequency by frequency. */
  ghost predicate IsNextScan(p: Policy, after: Moment, r: Moment) {
    match p.frequency
    case Monthly => IsNextSlot(p, after, r)
    case Weekly => r == AddDays(after, 7)
    case Daily => r == Midnight(NextDay(after))
  }

  /** `next_scan_at`. */
  method NextScanAt(p: Policy, after: Moment) returns (r: Moment)
    requires RealMoment(after)
    ensures IsNextScan(p, after, r) && Less(after, r) && RealDate(r.year, r.month, r.day)
  {
    match p.frequency {
      case Monthly =>
        var months;
        r, months := NextMonthly(p, after);
      case Weekly =>
        r := AddDays(after, 7);
        DaysAdvance(after, 7);
      case Daily =>
        r := Midnight(NextDay(after));
    }
  }

  lemma {:induction false} DaysAdvance(m: Moment, n: nat)
    requires RealDate(m.year, m.month, m.day)
    ensures RealDate(AddDays(m, n).year, AddDays(m, n).month, AddDays(m, n).day)
    ensures n > 0 ==> Less(m, AddDays(m, n))
    decreases n
  {
    if n == 0 {
    } else {
      DaysAdvance(NextDay(m), n - 1);
    }
  }

  /** The first slot after a moment is unique. */
  lemma NextSlotUnique(p: Policy, after: Moment, r: Moment, s: Moment)
    requires IsNextSlot(p, after, r) && IsNextSlot(p, after, s)
    ensures r == s
  {
    assert AtMost(r, s) && AtMost(s, r);
  }
}
