/**
 Which sources a round of the scheduler gives a task to, said of the sources, their stored next
 scans and their tasks alone.
 */
module DueSources {
  import opened Catalogue
  import opened ScanCalendar
  import opened Scheduler
  import opened CalendarDays

  /** `sel` names the tasks of source `x`, all of them in order, and `mine` lists them. */
  ghost predicate Picks(jobs: seq<Job>, x: Id, sel: seq<nat>, mine: seq<Job>) {
    && |sel| == |mine| && (forall k :: 0 <= k < |sel| ==> sel[k] < |jobs| && mine[k] == jobs[sel[k]])
    && (forall k, l :: 0 <= k < l < |sel| ==> sel[k] < sel[l])
    && (forall k :: 0 <= k < |sel| ==> mine[k].source == x)
    && (forall n :: 0 <= n < |jobs| && jobs[n].source == x ==> exists k :: 0 <= k < |sel| && sel[k] == n)
  }

  /** The tasks of a source, in the order they were created. */
  lemma {:induction false} TasksAre(jobs: seq<Job>, x: Id) returns (sel: seq<nat>)
    ensures Picks(jobs, x, sel, JobsOf(jobs, x))
  {
    if jobs == [] {
      sel := [];
    } else {
      hide Picks;
      var n := |jobs| - 1;
      var front := TasksAre(jobs[..n], x);
      sel := if jobs[n].source == x then front + [n] else front;
      PickNext(jobs, x, front, JobsOf(jobs[..n], x));
    }
  }

  lemma PickNext(jobs: seq<Job>, x: Id, front: seq<nat>, mine: seq<Job>)
    requires jobs != [] && Picks(jobs[..|jobs| - 1], x, front, mine)
    ensures var n := |jobs| - 1;
            if jobs[n].source == x then Picks(jobs, x, front + [n], mine + [jobs[n]]) else Picks(jobs, x, front, mine)
  {
    var n := |jobs| - 1;
    var sel := if jobs[n].source == x then front + [n] else front;
    forall m | 0 <= m < |jobs| && jobs[m].source == x
      ensures exists k :: 0 <= k < |sel| && sel[k] == m
    {
      if m == n {
        assert sel[|front|] == n;
      } else {
        assert jobs[..n][m] == jobs[m];
        var k :| 0 <= k < |front| && front[k] == m;
        assert sel[k] == m;
      }
    }
  }

  /** On an earlier day, seven days back or more, or in an earlier month. */
  predicate LongAgo(f: Frequency, t: Moment, now: Moment)
    requires 1 <= t.month <= 12 && 1 <= now.month <= 12
  {
    match f
    case Daily => DayNumber(t) < DayNumber(now)
    case Weekly => DayNumber(t) + 7 < DayNumber(now) || (DayNumber(t) + 7 == DayNumber(now) && t.at <= now.at)
    case Monthly => t.year < now.year || (t.year == now.year && t.month < now.month)
  }

  ghost predicate AllReal(jobs: seq<Job>) {
    forall k :: 0 <= k < |jobs| ==> RealMoment(jobs[k].scheduledAt)
  }

  /** Task `k` is among the newest twenty, and none of these is scheduled later. */
  ghost predicate IsLatest(mine: seq<Job>, k: int)
    requires AllReal(mine)
  {
    && 0 <= k < |mine| && |mine| - 20 <= k
    && forall l :: 0 <= l < |mine| && |mine| - 20 <= l ==> !Earlier(mine[k].scheduledAt, mine[l].scheduledAt)
  }

  predicate IsDate(m: Moment) {
    RealDate(m.year, m.month, m.day)
  }

  /** It is time for a source: its next scan has come, or it has none and no task, or no recent one. */
  ghost predicate ItIsTime(p: Policy, next: Option<Moment>, mine: seq<Job>, now: Moment)
    requires AllReal(mine) && 1 <= now.month <= 12 && (next.Some? ==> IsDate(next.value))
  {
    match next
    case Some(scan) => !Earlier(now, scan)
    case None => mine == [] || exists k :: IsLatest(mine, k) && LongAgo(p.frequency, mine[k].scheduledAt, now)
  }

  lemma {:induction false} LatestIs(mine: seq<Job>, n: nat)
    requires AllReal(mine)
    ensures Latest(mine, n) == None <==> mine == [] || n == 0
    ensures Latest(mine, n).Some? ==>
              && (exists k :: 0 <= k < |mine| && |mine| - n <= k && mine[k].scheduledAt == Latest(mine, n).value)
              && forall l :: 0 <= l < |mine| && |mine| - n <= l ==> AtMost(mine[l].scheduledAt, Latest(mine, n).value)
  {
    if mine == [] || n == 0 {
    } else {
      var front := mine[..|mine| - 1];
      LatestIs(front, n - 1);
      if Latest(front, n - 1).Some? && Less(mine[|mine| - 1].scheduledAt, Latest(front, n - 1).value) {
        var k :| 0 <= k < |front| && |front| - (n - 1) <= k && front[k].scheduledAt == Latest(front, n - 1).value;
        assert mine[k].scheduledAt == Latest(mine, n).value;
      }
      forall l | 0 <= l < |mine| && |mine| - n <= l
        ensures AtMost(mine[l].scheduledAt, Latest(mine, n).value)
      {
        if l < |front| {
          assert front[l] == mine[l];
        }
      }
    }
  }

  lemma LongAgoIs(p: Policy, t: Moment, now: Moment)
    requires RealMoment(t) && RealMoment(now)
    ensures LongAgo(p.frequency, t, now) <==>
            match p.frequency
            case Daily => Less(Midnight(t), Midnight(now))
            case Weekly => AtMost(AddDays(t, 7), now)
            case Monthly => MonthLess((t.year, t.month), (now.year, now.month))
  {
    match p.frequency {
      case Daily =>
        MidnightIs(t);
        MidnightIs(now);
        EarlierIs(Midnight(t), Midnight(now));
      case Weekly =>
        AddDaysIs(t, 7);
        EarlierIs(AddDays(t, 7), now);
      case Monthly =>
    }
  }

  lemma TimeIsIt(p: Policy, next: Option<Moment>, mine: seq<Job>, now: Moment)
    requires AllReal(mine) && RealMoment(now) && (next.Some? ==> IsDate(next.value))
    ensures IsDue(p, next, mine, now) <==> ItIsTime(p, next, mine, now)
  {
    hide LongAgo, Less, AtMost, Earlier, AddDays, Latest;
    if next.Some? {
      EarlierIs(next.value, now);
      EarlierIs(now, next.value);
    } else {
      LatestIs(mine, 20);
      if mine != [] {
        var last := Latest(mine, 20).value;
        var k :| 0 <= k < |mine| && |mine| - 20 <= k && mine[k].scheduledAt == last;
        LongAgoIs(p, last, now);
        forall l | 0 <= l < |mine| && |mine| - 20 <= l
          ensures !Earlier(last, mine[l].scheduledAt)
        {
          EarlierIs(mine[l].scheduledAt, last);
        }
        assert IsLatest(mine, k);
        if j :| IsLatest(mine, j) && LongAgo(p.frequency, mine[j].scheduledAt, now) {
          EarlierIs(mine[j].scheduledAt, last);
          EarlierIs(last, mine[j].scheduledAt);
          SameMoment(mine[j].scheduledAt, last);
        }
      }
    }
  }

  lemma SameMoment(a: Moment, b: Moment)
    requires AtMost(a, b) && AtMost(b, a)
    ensures a == b
  {
  }

  /**
   A round, for one listed source: it gets a task exactly when it is active, enabled and has an
   adapter, has no task pending or running, and it is time or the round is forced; in a dry
   round never. Its next scan changes only then.
   */
  lemma RoundGives(sources: seq<Source>, now: Moment, mode: Mode, next: map<Id, Moment>, jobs: seq<Job>,
                   next': map<Id, Moment>, jobs': seq<Job>, i: nat)
    requires IsRound(sources, now, mode, next, jobs, next', jobs') && i < |sources|
    requires RealMoment(now) && AllReal(jobs) && forall x :: x in next ==> IsDate(next[x])
    ensures AllReal(JobsOf(jobs, sources[i].id))
    ensures var s := sources[i];
            var mine, scan := JobsOf(jobs, s.id), if s.id in next then Some(next[s.id]) else None;
            if !mode.dry && s.active && s.enabled && s.hasAdapter
               && (forall k :: 0 <= k < |mine| ==> !mine[k].live)
               && (mode.force || ItIsTime(s.policy, scan, mine, now))
            then JobsOf(jobs', s.id) == mine + [Job(s.id, now, true)]
                 && s.id in next' && IsNextScan(s.policy, now, next'[s.id])
            else JobsOf(jobs', s.id) == mine && NextOf(next', s.id) == scan
  {
    var s := sources[i];
    var mine := JobsOf(jobs, s.id);
    var sel := TasksAre(jobs, s.id);
    assert s.id in next ==> IsDate(next[s.id]);
    TimeIsIt(s.policy, NextOf(next, s.id), mine, now);
    assert Visited(s, now, mode, next, jobs, next', jobs');
    assert HasLive(jobs, s.id) <==> exists k :: 0 <= k < |mine| && mine[k].live;
    hide IsDue, ItIsTime, JobsOf, IsNextScan;
  }

  /** Sources that are not listed are left alone. */
  lemma RoundLeaves(sources: seq<Source>, now: Moment, mode: Mode, next: map<Id, Moment>, jobs: seq<Job>,
                    next': map<Id, Moment>, jobs': seq<Job>, x: Id)
    requires IsRound(sources, now, mode, next, jobs, next', jobs')
    requires forall i :: 0 <= i < |sources| ==> sources[i].id != x
    ensures JobsOf(jobs', x) == JobsOf(jobs, x) && NextOf(next', x) == NextOf(next, x)
  {
    assert NotAmong(sources, |sources|, x);
  }

  // ------------------------------------------------------------ the counts

  /** A count of the round's report is the number of listed sources it stands for. */
  lemma {:induction false} CountIs(sources: seq<Source>, f: Source -> bool) returns (those: set<int>)
    ensures Count(sources, f) == |those| && forall i :: i in those <==> 0 <= i < |sources| && f(sources[i])
  {
    if sources == [] {
      those := {};
    } else {
      var n := |sources| - 1;
      those := CountIs(sources[..n], f);
      assert n !in those;
      those := if f(sources[n]) then those + {n} else those;
    }
  }

  /** The active sources, the others, and those that are enabled but have no adapter. */
  lemma CountsAre(sources: seq<Source>) returns (active: set<int>, disabled: set<int>, adapterless: set<int>)
    ensures Count(sources, Enlisted) == |active|
    ensures forall i :: i in active <==> 0 <= i < |sources| && sources[i].active
    ensures Count(sources, Disabled) == |disabled|
    ensures forall i :: i in disabled <==> 0 <= i < |sources| && !sources[i].active
    ensures Count(sources, Adapterless) == |adapterless|
    ensures forall i :: i in adapterless <==>
              0 <= i < |sources| && sources[i].active && sources[i].enabled && !sources[i].hasAdapter
  {
    hide Count;
    active := CountIs(sources, Enlisted);
    disabled := CountIs(sources, Disabled);
    adapterless := CountIs(sources, Adapterless);
  }

  /** The due sources are those that are active, enabled, with an adapter, and whose time it is. */
  lemma {:induction false} DueAre(sources: seq<Source>, next: map<Id, Moment>, jobs: seq<Job>, now: Moment, mode: Mode)
    returns (due: set<int>)
    requires RealMoment(now) && AllReal(jobs) && forall x :: x in next ==> IsDate(next[x])
    ensures CountDue(sources, next, jobs, now, mode) == |due|
    ensures forall i :: i in due <==> 0 <= i < |sources| && IsDueNow(sources[i], next, jobs, now, mode)
  {
    hide IsDueNow, CountsAsDue;
    if sources == [] {
      due := {};
    } else {
      var n := |sources| - 1;
      due := DueAre(sources[..n], next, jobs, now, mode);
      DueIs(sources[n], next, jobs, now, mode);
      assert n !in due;
      due := if IsDueNow(sources[n], next, jobs, now, mode) then due + {n} else due;
    }
  }

  ghost predicate IsDueNow(s: Source, next: map<Id, Moment>, jobs: seq<Job>, now: Moment, mode: Mode) {
    && s.active && s.enabled && s.hasAdapter
    && (mode.force
        || (&& 1 <= now.month <= 12 && AllReal(JobsOf(jobs, s.id)) && (s.id in next ==> IsDate(next[s.id]))
            && ItIsTime(s.policy, if s.id in next then Some(next[s.id]) else None, JobsOf(jobs, s.id), now)))
  }

  lemma DueIs(s: Source, next: map<Id, Moment>, jobs: seq<Job>, now: Moment, mode: Mode)
    requires RealMoment(now) && AllReal(jobs) && forall x :: x in next ==> IsDate(next[x])
    ensures CountsAsDue(s, next, jobs, now, mode) <==> IsDueNow(s, next, jobs, now, mode)
  {
    var sel := TasksAre(jobs, s.id);
    assert s.id in next ==> IsDate(next[s.id]);
    TimeIsIt(s.policy, NextOf(next, s.id), JobsOf(jobs, s.id), now);
    hide IsDue, ItIsTime, JobsOf;
  }
}
