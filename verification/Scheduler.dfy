/**
 The scheduler round: every due source gets a task unless one is still pending or running,
 and its next scan is set. From that follows how often a source can be scheduled at all.
 All times are read in one fixed-offset zone.
 */
module Scheduler {
  import opened Catalogue
  import opened ScanCalendar

  datatype Source = Source(id: Id, active: bool, enabled: bool, hasAdapter: bool, policy: Policy)

  // An incremental task of a source; `live` means pending or running.
  datatype Job = Job(source: Id, scheduledAt: Moment, live: bool)

  datatype Report = Report(seen: nat, due: nat, created: nat, skippedPending: nat, skippedDisabled: nat,
                           skippedNoAdapter: nat)

  // ------------------------------------------------------------ specification

  function JobsOf(jobs: seq<Job>, source: Id): seq<Job> {
    if jobs == [] then []
    else JobsOf(jobs[..|jobs| - 1], source) + if jobs[|jobs| - 1].source == source then [jobs[|jobs| - 1]] else []
  }

  predicate HasLive(jobs: seq<Job>, source: Id) {
    exists j :: j in JobsOf(jobs, source) && j.live
  }

  function Later(a: Moment, b: Moment): Moment {
    if Less(a, b) then b else a
  }

  /** The latest time among the newest `n` tasks. */
  function Latest(jobs: seq<Job>, n: nat): Option<Moment> {
    if jobs == [] || n == 0 then None
    else
      var last := jobs[|jobs| - 1].scheduledAt;
      match Latest(jobs[..|jobs| - 1], n - 1)
      case None => Some(last)
      case Some(m) => Some(Later(last, m))
  }

  const TASKS_READ := 20

  /** `is_due` without force. */
  predicate IsDue(p: Policy, next: Option<Moment>, jobs: seq<Job>, now: Moment) {
    if next.Some? then AtMost(next.value, now)
    else
      match Latest(jobs, TASKS_READ)
      case None => true
      case Some(last) =>
        match p.frequency
        case Daily => Less(Midnight(last), Midnight(now))
        case Weekly => AtMost(AddDays(last, 7), now)
        case Monthly => MonthLess((last.year, last.month), (now.year, now.month))
  }

  function NextOf(next: map<Id, Moment>, s: Id): Option<Moment> {
    if s in next then Some(next[s]) else None
  }

  predicate Considered(s: Source) {
    s.active && s.enabled && s.hasAdapter
  }

  // How a round is run: all sources at once, due or not; and for show only.
  datatype Mode = Mode(force: bool, dry: bool)

  /** A source that counts as due in this round. */
  predicate CountsAsDue(s: Source, next: map<Id, Moment>, jobs: seq<Job>, now: Moment, mode: Mode) {
    Considered(s) && (mode.force || IsDue(s.policy, NextOf(next, s.id), JobsOf(jobs, s.id), now))
  }

  /** A source that gets a task in this round. */
  predicate GetsTask(s: Source, next: map<Id, Moment>, jobs: seq<Job>, now: Moment, mode: Mode) {
    CountsAsDue(s, next, jobs, now, mode) && !mode.dry && !HasLive(jobs, s.id)
  }

  /** What a round leaves behind for one source. */
  ghost predicate Visited(s: Source, now: Moment, mode: Mode, next: map<Id, Moment>, jobs: seq<Job>,
                          next': map<Id, Moment>, jobs': seq<Job>) {
    if GetsTask(s, next, jobs, now, mode) then
      && JobsOf(jobs', s.id) == JobsOf(jobs, s.id) + [Job(s.id, now, true)]
      && s.id in next' && IsNextScan(s.policy, now, next'[s.id])
    else Untouched(s.id, next, jobs, next', jobs')
  }

  ghost predicate Untouched(s: Id, next: map<Id, Moment>, jobs: seq<Job>, next': map<Id, Moment>, jobs': seq<Job>) {
    JobsOf(jobs', s) == JobsOf(jobs, s) && NextOf(next', s) == NextOf(next, s)
  }

  function Count(sources: seq<Source>, f: Source -> bool): nat {
    if sources == [] then 0 else Count(sources[..|sources| - 1], f) + if f(sources[|sources| - 1]) then 1 else 0
  }

  predicate Enlisted(s: Source) { s.active }

  predicate Disabled(s: Source) { !s.active }

  predicate Adapterless(s: Source) { s.active && s.enabled && !s.hasAdapter }

  /** How many of the sources are due. */
  function CountDue(sources: seq<Source>, next: map<Id, Moment>, jobs: seq<Job>, now: Moment, mode: Mode): nat {
    if sources == [] then 0
    else
      CountDue(sources[..|sources| - 1], next, jobs, now, mode)
          + if CountsAsDue(sources[|sources| - 1], next, jobs, now, mode) then 1 else 0
  }

  /** How many of the sources get a task. */
  function CountTasks(sources: seq<Source>, next: map<Id, Moment>, jobs: seq<Job>, now: Moment, mode: Mode): nat {
    if sources == [] then 0
    else
      CountTasks(sources[..|sources| - 1], next, jobs, now, mode)
          + if GetsTask(sources[|sources| - 1], next, jobs, now, mode) then 1 else 0
  }

  ghost predicate NotAmong(sources: seq<Source>, n: nat, x: Id)
    requires n <= |sources|
  {
    forall i :: 0 <= i < n ==> sources[i].id != x
  }

  /** What a round leaves behind: every listed source is visited, no other one is touched. */
  ghost predicate IsRound(sources: seq<Source>, now: Moment, mode: Mode, next: map<Id, Moment>, jobs: seq<Job>,
                          next': map<Id, Moment>, jobs': seq<Job>) {
    && (forall i :: 0 <= i < |sources| ==> Visited(sources[i], now, mode, next, jobs, next', jobs'))
    && (forall x :: NotAmong(sources, |sources|, x) ==> Untouched(x, next, jobs, next', jobs'))
  }

  lemma JobsOfMore(jobs: seq<Job>, j: Job, s: Id)
    ensures JobsOf(jobs + [j], s) == if j.source == s then JobsOf(jobs, s) + [j] else JobsOf(jobs, s)
  {
    assert (jobs + [j])[..|jobs|] == jobs;
  }

  lemma SameJobsSameVisit(s: Source, now: Moment, mode: Mode, next: map<Id, Moment>, jobs: seq<Job>,
                          next': map<Id, Moment>, jobs': seq<Job>)
    requires Untouched(s.id, next, jobs, next', jobs')
    ensures CountsAsDue(s, next, jobs, now, mode) == CountsAsDue(s, next', jobs', now, mode)
    ensures GetsTask(s, next, jobs, now, mode) == GetsTask(s, next', jobs', now, mode)
  {
  }

  lemma CountsOfNone(next: map<Id, Moment>, jobs: seq<Job>, now: Moment, mode: Mode)
    ensures CountDue([], next, jobs, now, mode) == 0 && CountTasks([], next, jobs, now, mode) == 0
    ensures Count([], Enlisted) == 0 && Count([], Disabled) == 0 && Count([], Adapterless) == 0
  {
  }

  lemma CountsNext(sources: seq<Source>, i: nat, next: map<Id, Moment>, jobs: seq<Job>, now: Moment, mode: Mode)
    requires i < |sources|
    ensures var a, b, s := sources[..i + 1], sources[..i], sources[i];
            && CountDue(a, next, jobs, now, mode)
               == CountDue(b, next, jobs, now, mode) + (if CountsAsDue(s, next, jobs, now, mode) then 1 else 0)
            && CountTasks(a, next, jobs, now, mode)
               == CountTasks(b, next, jobs, now, mode) + (if GetsTask(s, next, jobs, now, mode) then 1 else 0)
            && Count(a, Enlisted) == Count(b, Enlisted) + (if Enlisted(s) then 1 else 0)
            && Count(a, Disabled) == Count(b, Disabled) + (if Disabled(s) then 1 else 0)
            && Count(a, Adapterless) == Count(b, Adapterless) + (if Adapterless(s) then 1 else 0)
  {
    hide CountsAsDue, GetsTask;
    assert sources[..i + 1][..i] == sources[..i];
  }

  lemma NotConsidered(s: Source, next: map<Id, Moment>, jobs: seq<Job>, now: Moment, mode: Mode)
    ensures !s.active || !s.enabled || !s.hasAdapter ==> !CountsAsDue(s, next, jobs, now, mode)
  {
  }

  lemma DueIfConsidered(s: Source, next: map<Id, Moment>, jobs: seq<Job>, now: Moment, mode: Mode)
    requires s.active && s.enabled && s.hasAdapter
    ensures CountsAsDue(s, next, jobs, now, mode)
       <==> mode.force || IsDue(s.policy, NextOf(next, s.id), JobsOf(jobs, s.id), now)
  {
  }

  // -------------------------------------------------------------- the round

  class Table {
    var jobs: seq<Job>
    var next: map<Id, Moment>

    constructor ()
      ensures jobs == [] && next == map[]
    {
      jobs, next := [], map[];
    }

    /** `create_task_if_not_exists`. */
    method CreateIfAbsent(s: Source, now: Moment) returns (created: bool)
      requires RealMoment(now)
      modifies this
      ensures created <==> !HasLive(old(jobs), s.id)
      ensures !created ==> jobs == old(jobs) && next == old(next)
      ensures created ==> jobs == old(jobs) + [Job(s.id, now, true)]
      ensures created ==> s.id in next && IsNextScan(s.policy, now, next[s.id]) && next == old(next)[s.id := next[s.id]]
    {
      if HasLive(jobs, s.id) {
        return false;
      }
      jobs := jobs + [Job(s.id, now, true)];
      var n := NextScanAt(s.policy, now);
      next := next[s.id := n];
      return true;
    }

    /**
     `run_scheduler`. Exactly the sources that are considered, due and without a live task get
     one, and then their next scan; every other source is left alone, and in a dry round all.
     */
    method RunScheduler(sources: seq<Source>, now: Moment, mode: Mode) returns (r: Report)
      requires RealMoment(now)
      requires forall i, j :: 0 <= i < j < |sources| ==> sources[i].id != sources[j].id
      modifies this
      ensures IsRound(sources, now, mode, old(next), old(jobs), next, jobs)
      ensures r.due == CountDue(sources, old(next), old(jobs), now, mode) && |jobs| == |old(jobs)| + r.created
      ensures r.created + r.skippedPending == if mode.dry then 0 else r.due
      ensures r.seen == Count(sources, Enlisted) && r.skippedDisabled == Count(sources, Disabled)
      ensures r.skippedNoAdapter == Count(sources, Adapterless)
      ensures r.created == CountTasks(sources, old(next), old(jobs), now, mode)
    {
      hide CountsAsDue, Considered, IsDue, IsNextScan, JobsOf, HasLive, Count, CountDue, CountTasks;
      r := Report(0, 0, 0, 0, 0, 0);
      CountsOfNone(old(next), old(jobs), now, mode);
      var i := 0;
      while i < |sources|
        invariant 0 <= i <= |sources|
        invariant forall j :: 0 <= j < i ==> Visited(sources[j], now, mode, old(next), old(jobs), next, jobs)
        invariant forall x :: NotAmong(sources, i, x) ==> Untouched(x, old(next), old(jobs), next, jobs)
        invariant r.due == CountDue(sources[..i], old(next), old(jobs), now, mode)
        invariant r.created + r.skippedPending == (if mode.dry then 0 else r.due) && |jobs| == |old(jobs)| + r.created
        invariant r.seen == Count(sources[..i], Enlisted) && r.skippedDisabled == Count(sources[..i], Disabled)
        invariant r.skippedNoAdapter == Count(sources[..i], Adapterless)
        invariant r.created == CountTasks(sources[..i], old(next), old(jobs), now, mode)
      {
        var s := sources[i];
        CountsNext(sources, i, old(next), old(jobs), now, mode);
        ghost var next0, jobs0 := next, jobs;
        assert NotAmong(sources, i, s.id);
        NotConsidered(s, next, jobs, now, mode);
        SameJobsSameVisit(s, now, mode, old(next), old(jobs), next, jobs);
        assert forall x :: NotAmong(sources, i + 1, x) ==> NotAmong(sources, i, x);
        i := i + 1;
        if !s.active {
          r := r.(skippedDisabled := r.skippedDisabled + 1);
          continue;
        }
        r := r.(seen := r.seen + 1);
        if !s.enabled {
          continue;
        }
        if !s.hasAdapter {
          r := r.(skippedNoAdapter := r.skippedNoAdapter + 1);
          continue;
        }
        DueIfConsidered(s, next, jobs, now, mode);
        if !mode.force && !IsDue(s.policy, NextOf(next, s.id), JobsOf(jobs, s.id), now) {
          continue;
        }
        r := r.(due := r.due + 1);
        if mode.dry {
          continue;
        }
        var created := CreateIfAbsent(s, now);
        if created {
          r := r.(created := r.created + 1);
          forall x
            ensures JobsOf(jobs, x) == if s.id == x then JobsOf(jobs0, x) + [Job(s.id, now, true)] else JobsOf(jobs0, x)
          {
            JobsOfMore(jobs0, Job(s.id, now, true), x);
          }
          forall x | NotAmong(sources, i, x)
            ensures Untouched(x, old(next), old(jobs), next, jobs)
          {
            assert NotAmong(sources, i - 1, x) && sources[i - 1].id != x;
            assert Untouched(x, old(next), old(jobs), next0, jobs0);
          }
        } else {
          r := r.(skippedPending := r.skippedPending + 1);
        }
      }
      assert sources[..i] == sources;
    }
  }

  // ------------------------------------------------------------ rate bounds

  // One source over many rounds: its stored next scan, and when it got tasks.
  datatype Watch = Watch(next: Option<Moment>, created: seq<Moment>)

  /** One round that is not forced, or anything else that happens, seen from one source. */
  ghost predicate RoundStep(p: Policy, w: Watch, now: Moment, w': Watch) {
    || w' == w
    || (&& w'.created == w.created + [now] && w'.next.Some? && IsNextScan(p, now, w'.next.value)
        && (w.next.Some? ==> AtMost(w.next.value, now)))
  }

  /** `run[i]` to `run[i + 1]` is a step at time `times[i]`. */
  ghost predicate IsWatch(p: Policy, run: seq<Watch>, times: seq<Moment>) {
    && |run| == |times| + 1 && run[0].created == []
    && forall i :: 0 <= i < |times| ==> RoundStep(p, run[i], times[i], run[i + 1])
  }

  /** Between two creations lies the next scan computed at the first. */
  ghost predicate Spaced(p: Policy, created: seq<Moment>) {
    forall k :: 0 <= k < |created| - 1 ==> SpacedAt(p, created[k], created[k + 1])
  }

  ghost predicate SpacedAt(p: Policy, c: Moment, d: Moment) {
    exists n :: IsNextScan(p, c, n) && AtMost(n, d)
  }

  /** The tasks are spaced, and the stored next scan belongs to the last of them. */
  ghost predicate SpacedSoFar(p: Policy, w: Watch) {
    && Spaced(p, w.created)
    && (w.created != [] ==> w.next.Some? && IsNextScan(p, w.created[|w.created| - 1], w.next.value))
  }

  lemma StepKeepsSpaced(p: Policy, w: Watch, now: Moment, w': Watch)
    requires SpacedSoFar(p, w) && RoundStep(p, w, now, w')
    ensures SpacedSoFar(p, w')
  {
    hide IsNextScan, AtMost;
    if w' != w && w.created != [] {
      assert SpacedAt(p, w.created[|w.created| - 1], now);
    }
  }

  lemma {:induction false} CreationsAreSpaced(p: Policy, run: seq<Watch>, times: seq<Moment>)
    requires IsWatch(p, run, times)
    ensures SpacedSoFar(p, run[|run| - 1])
    decreases |times|
  {
    if times == [] {
    } else {
      hide RoundStep, SpacedSoFar;
      var n := |times| - 1;
      assert run[..n + 1][|run[..n + 1]| - 1] == run[n];
      CreationsAreSpaced(p, run[..n + 1], times[..n]);
      assert RoundStep(p, run[n], times[n], run[n + 1]);
      StepKeepsSpaced(p, run[n], times[n], run[n + 1]);
    }
  }

  /** A monthly source: between any two tasks in a row there is a configured slot. */
  lemma SlotBetweenTasks(p: Policy, run: seq<Watch>, times: seq<Moment>, k: nat) returns (s: Moment)
    requires IsWatch(p, run, times) && p.frequency == Monthly && k + 1 < |run[|run| - 1].created|
    ensures var created := run[|run| - 1].created;
            Slot(p, s) && Less(created[k], s) && AtMost(s, created[k + 1])
  {
    CreationsAreSpaced(p, run, times);
    var created := run[|run| - 1].created;
    assert SpacedAt(p, created[k], created[k + 1]);
    s :| IsNextScan(p, created[k], s) && AtMost(s, created[k + 1]);
  }

  /** The slots in a window, all of them, as a finite set. */
  ghost predicate HoldsAllSlots(p: Policy, from: Moment, to: Moment, slots: set<Moment>) {
    forall s :: Slot(p, s) && Less(from, s) && AtMost(s, to) ==> s in slots
  }

  /** The tasks created in a window, by their number in the run. */
  ghost function Within(created: seq<Moment>, from: Moment, to: Moment): set<nat> {
    set k: nat | k < |created| && AtMost(from, created[k]) && AtMost(created[k], to)
  }

  /**
   A monthly source gets, in any window of any run, at most one task more than there are
   configured slots in it.
   */
  lemma TasksBoundedBySlots(p: Policy, run: seq<Watch>, times: seq<Moment>, from: Moment, to: Moment,
                            slots: set<Moment>)
    requires IsWatch(p, run, times) && p.frequency == Monthly && HoldsAllSlots(p, from, to, slots)
    ensures |Within(run[|run| - 1].created, from, to)| <= |slots| + 1
  {
    hide HoldsAllSlots, Within, Spaced;
    CreationsAreSpaced(p, run, times);
    SpacedInWindow(p, run[|run| - 1].created, from, to, slots);
  }

  lemma {:induction false} SpacedInWindow(p: Policy, created: seq<Moment>, from: Moment, to: Moment, slots: set<Moment>)
    requires p.frequency == Monthly && Spaced(p, created) && HoldsAllSlots(p, from, to, slots)
    ensures |Within(created, from, to)| <= |slots| + 1
    decreases |created|
  {
    if created == [] {
      assert Within(created, from, to) == {};
    } else {
      FrontIsSpaced(p, created);
      hide Spaced, SpacedAt, Within, Slot, HoldsAllSlots, Less, AtMost;
      var n := |created| - 1;
      var front := created[..n];
      WithinFront(created, from, to);
      if n in Within(created, from, to) && Within(front, from, to) != {} {
        var k :| k in Within(front, from, to);
        LastBeforeWindow(p, created, from, to, k);
        var s := SlotSince(p, created[n - 1], created[n]);
        AtMostTransitive(s, created[n], to);
        var earlier := SlotsBefore(p, slots, from, created[n - 1], to, s);
        SpacedInWindow(p, front, from, created[n - 1], earlier);
      } else if n !in Within(created, from, to) {
        SpacedInWindow(p, front, from, to, slots);
      }
    }
  }

  lemma FrontIsSpaced(p: Policy, created: seq<Moment>)
    requires Spaced(p, created) && created != []
    ensures Spaced(p, created[..|created| - 1])
    ensures |created| > 1 ==> SpacedAt(p, created[|created| - 2], created[|created| - 1])
  {
    hide SpacedAt;
  }

  lemma AtMostTransitive(a: Moment, b: Moment, c: Moment)
    requires AtMost(a, b) && AtMost(b, c)
    ensures AtMost(a, c)
  {
  }

  lemma WithinFront(created: seq<Moment>, from: Moment, to: Moment)
    requires created != []
    ensures var n := |created| - 1;
            && Within(created, from, to)
               == Within(created[..n], from, to) + (if n in Within(created, from, to) then {n} else {})
            && |Within(created, from, to)| <= |Within(created[..n], from, to)|
               + (if n in Within(created, from, to) then 1 else 0)
  {
    hide Less, AtMost;
    var n := |created| - 1;
    assert Within(created, from, to)
        == Within(created[..n], from, to) + (if n in Within(created, from, to) then {n} else {});
  }

  /** If the last task and an earlier one are in the window, so is the last but one, and the window can end there. */
  lemma LastBeforeWindow(p: Policy, created: seq<Moment>, from: Moment, to: Moment, k: nat)
    requires p.frequency == Monthly && Spaced(p, created) && created != []
    requires k in Within(created[..|created| - 1], from, to) && |created| - 1 in Within(created, from, to)
    ensures |created| > 1 && SpacedAt(p, created[|created| - 2], created[|created| - 1])
    ensures var n := |created| - 1;
            && AtMost(from, created[n - 1]) && Less(created[n - 1], created[n]) && AtMost(created[n], to)
            && Within(created[..n], from, to) == Within(created[..n], from, created[n - 1])
  {
    hide IsNextScan;
    var n := |created| - 1;
    CreationsRise(p, created, k, n - 1);
    CreationsRise(p, created, n - 1, n);
    forall i: nat | i < n
      ensures AtMost(created[i], created[n - 1])
    {
      CreationsRise(p, created, i, n - 1);
    }
  }

  lemma SlotsBefore(p: Policy, slots: set<Moment>, from: Moment, mid: Moment, to: Moment, s: Moment)
    returns (earlier: set<Moment>)
    requires HoldsAllSlots(p, from, to, slots) && AtMost(from, mid)
    requires Slot(p, s) && Less(mid, s) && AtMost(s, to)
    ensures HoldsAllSlots(p, from, mid, earlier) && |earlier| < |slots|
  {
    hide Slot;
    earlier := set t | t in slots && AtMost(t, mid);
    assert s in slots && s !in earlier;
    SubsetSize(earlier + {s}, slots);
  }

  lemma SlotSince(p: Policy, c: Moment, d: Moment) returns (s: Moment)
    requires p.frequency == Monthly && SpacedAt(p, c, d)
    ensures Slot(p, s) && Less(c, s) && AtMost(s, d)
  {
    s :| IsNextScan(p, c, s) && AtMost(s, d);
  }

  lemma {:induction false} CreationsRise(p: Policy, created: seq<Moment>, i: nat, j: nat)
    requires p.frequency != Weekly && Spaced(p, created) && i <= j < |created|
    ensures AtMost(created[i], created[j]) && (i < j ==> Less(created[i], created[j]))
    decreases j
  {
    if i < j {
      hide IsNextScan;
      CreationsRise(p, created, i, j - 1);
      assert SpacedAt(p, created[j - 1], created[j]);
      var n :| IsNextScan(p, created[j - 1], n) && AtMost(n, created[j]);
    }
  }

  /** A daily source gets, in any run, at most one task per local calendar day. */
  lemma OneTaskPerDay(p: Policy, run: seq<Watch>, times: seq<Moment>, i: nat, j: nat)
    requires IsWatch(p, run, times) && p.frequency == Daily && forall t :: t in times ==> RealMoment(t)
    requires i < j < |run[|run| - 1].created|
    ensures var created := run[|run| - 1].created; Less(Midnight(created[i]), Midnight(created[j]))
  {
    CreationsAreSpaced(p, run, times);
    CreatedAtTimes(p, run, times);
    SpacedDays(p, run[|run| - 1].created, i, j);
  }

  lemma {:induction false} CreatedAtTimes(p: Policy, run: seq<Watch>, times: seq<Moment>)
    requires IsWatch(p, run, times)
    ensures forall c :: c in run[|run| - 1].created ==> c in times
    decreases |times|
  {
    if times == [] {
    } else {
      hide IsNextScan;
      var n := |times| - 1;
      CreatedAtTimes(p, run[..n + 1], times[..n]);
      assert RoundStep(p, run[n], times[n], run[n + 1]);
      assert forall t :: t in times[..n] ==> t in times;
    }
  }

  lemma {:induction false} SpacedDays(p: Policy, created: seq<Moment>, i: nat, j: nat)
    requires p.frequency == Daily && Spaced(p, created) && i < j < |created|
    requires forall c :: c in created ==> RealMoment(c)
    ensures Less(Midnight(created[i]), Midnight(created[j]))
    decreases j
  {
    assert SpacedAt(p, created[j - 1], created[j]);
    if i < j - 1 {
      SpacedDays(p, created, i, j - 1);
    }
  }

  /** A weekly source gets, in any run, no two tasks within seven days. */
  lemma WeekBetweenTasks(p: Policy, run: seq<Watch>, times: seq<Moment>, k: nat)
    requires IsWatch(p, run, times) && p.frequency == Weekly && k + 1 < |run[|run| - 1].created|
    ensures var created := run[|run| - 1].created; AtMost(AddDays(created[k], 7), created[k + 1])
  {
    CreationsAreSpaced(p, run, times);
    assert SpacedAt(p, run[|run| - 1].created[k], run[|run| - 1].created[k + 1]);
  }

  // --------------------------------------------------- the rounds themselves

  // The tasks and next scans at one moment, and what happens next: a round over the sources as
  // they are then, for show or not, or workers ending some tasks.
  datatype Shot = Shot(next: map<Id, Moment>, jobs: seq<Job>)

  datatype Step = Step(now: Moment, dry: bool, sources: Option<seq<Source>>)

  ghost predicate Stepped(a: Shot, step: Step, b: Shot) {
    match step.sources
    case Some(sources) => IsRound(sources, step.now, Mode(false, step.dry), a.next, a.jobs, b.next, b.jobs)
    case None => b.next == a.next && SameTasks(a.jobs, b.jobs)
  }

  /** The same tasks, of which some have ended. */
  ghost predicate SameTasks(a: seq<Job>, b: seq<Job>) {
    |a| == |b| && forall i :: 0 <= i < |a| ==> a[i].source == b[i].source && a[i].scheduledAt == b[i].scheduledAt
  }

  ghost predicate IsHistory(shots: seq<Shot>, steps: seq<Step>) {
    |shots| == |steps| + 1 && forall k :: 0 <= k < |steps| ==> Stepped(shots[k], steps[k], shots[k + 1])
  }

  /** Source `x` may be switched on and off between rounds, but has one schedule. */
  ghost predicate HasPolicy(steps: seq<Step>, x: Id, p: Policy) {
    forall k :: 0 <= k < |steps| ==> StepHasPolicy(steps[k], x, p)
  }

  ghost predicate StepHasPolicy(step: Step, x: Id, p: Policy) {
    step.sources.Some? ==> forall s :: s in step.sources.value && s.id == x ==> s.policy == p
  }

  function Moments(jobs: seq<Job>): (m: seq<Moment>)
    ensures |m| == |jobs| && forall i :: 0 <= i < |m| ==> m[i] == jobs[i].scheduledAt
  {
    seq(|jobs|, i requires 0 <= i < |jobs| => jobs[i].scheduledAt)
  }

  /** When source `x` got tasks, from its `n`-th task on. */
  function CreatedFor(shot: Shot, x: Id, n: nat): seq<Moment> {
    var all := Moments(JobsOf(shot.jobs, x));
    if n <= |all| then all[n..] else []
  }

  /** When source `x` got tasks in the course of a history. */
  ghost function Created(shots: seq<Shot>, x: Id): seq<Moment>
    requires shots != []
  {
    CreatedFor(shots[|shots| - 1], x, |JobsOf(shots[0].jobs, x)|)
  }

  lemma {:induction false} SameMoments(a: seq<Job>, b: seq<Job>, x: Id)
    requires SameTasks(a, b)
    ensures Moments(JobsOf(a, x)) == Moments(JobsOf(b, x))
  {
    if a == [] {
    } else {
      SameMoments(a[..|a| - 1], b[..|b| - 1], x);
    }
  }

  /** Whatever happens, seen from one source, is a step of its watch. */
  lemma StepIsRoundStep(a: Shot, step: Step, b: Shot, x: Id, p: Policy, n: nat)
    requires Stepped(a, step, b) && StepHasPolicy(step, x, p) && n <= |JobsOf(a.jobs, x)|
    ensures n <= |JobsOf(b.jobs, x)|
    ensures RoundStep(p, Watch(NextOf(a.next, x), CreatedFor(a, x, n)), step.now,
                      Watch(NextOf(b.next, x), CreatedFor(b, x, n)))
  {
    hide IsNextScan, JobsOf, HasLive;
    if step.sources == None {
      SameMoments(a.jobs, b.jobs, x);
    } else if i :| 0 <= i < |step.sources.value| && step.sources.value[i].id == x {
      var s := step.sources.value[i];
      assert s in step.sources.value;
      assert Visited(s, step.now, Mode(false, step.dry), a.next, a.jobs, b.next, b.jobs);
      if GetsTask(s, a.next, a.jobs, step.now, Mode(false, step.dry)) {
        assert CreatedFor(b, x, n) == CreatedFor(a, x, n) + [step.now];
      }
    } else {
      assert NotAmong(step.sources.value, |step.sources.value|, x);
    }
  }

  /** Any number of rounds, with tasks ending in between, is a run of every source's watch. */
  lemma HistoryIsWatch(shots: seq<Shot>, steps: seq<Step>, x: Id, p: Policy)
    returns (run: seq<Watch>, times: seq<Moment>)
    requires IsHistory(shots, steps) && HasPolicy(steps, x, p)
    ensures IsWatch(p, run, times) && run[|run| - 1].created == Created(shots, x)
    ensures |times| == |steps| && forall k :: 0 <= k < |times| ==> times[k] == steps[k].now
  {
    hide Stepped, StepHasPolicy, RoundStep, CreatedFor, JobsOf;
    var n := |JobsOf(shots[0].jobs, x)|;
    run, times := [Watch(NextOf(shots[0].next, x), CreatedFor(shots[0], x, n))], [];
    NoneYet(shots[0], x);
    var k := 0;
    while k < |steps|
      invariant 0 <= k <= |steps| && n <= |JobsOf(shots[k].jobs, x)|
      invariant |times| == k && forall j :: 0 <= j < k ==> times[j] == steps[j].now
      invariant IsWatch(p, run, times)
      invariant run[k] == Watch(NextOf(shots[k].next, x), CreatedFor(shots[k], x, n))
    {
      assert Stepped(shots[k], steps[k], shots[k + 1]) && StepHasPolicy(steps[k], x, p);
      StepIsRoundStep(shots[k], steps[k], shots[k + 1], x, p, n);
      var next := Watch(NextOf(shots[k + 1].next, x), CreatedFor(shots[k + 1], x, n));
      WatchLonger(p, run, times, steps[k].now, next);
      run, times := run + [next], times + [steps[k].now];
      k := k + 1;
    }
  }

  lemma NoneYet(shot: Shot, x: Id)
    ensures CreatedFor(shot, x, |JobsOf(shot.jobs, x)|) == []
  {
  }

  lemma WatchLonger(p: Policy, run: seq<Watch>, times: seq<Moment>, now: Moment, w: Watch)
    requires IsWatch(p, run, times) && RoundStep(p, run[|times|], now, w)
    ensures IsWatch(p, run + [w], times + [now])
  {
    hide RoundStep;
  }

  /**
   Over any rounds that are not forced, a monthly source gets in any window at most one task more
   than there are configured slots in it.
   */
  lemma MonthlyRate(shots: seq<Shot>, steps: seq<Step>, x: Id, p: Policy, from: Moment, to: Moment, slots: set<Moment>)
    requires IsHistory(shots, steps) && HasPolicy(steps, x, p) && p.frequency == Monthly
    requires HoldsAllSlots(p, from, to, slots)
    ensures |Within(Created(shots, x), from, to)| <= |slots| + 1
  {
    hide *;
    var run, times := HistoryIsWatch(shots, steps, x, p);
    TasksBoundedBySlots(p, run, times, from, to, slots);
  }

  /** Over any rounds, a daily source gets at most one task per local calendar day. */
  lemma DailyRate(shots: seq<Shot>, steps: seq<Step>, x: Id, p: Policy, i: nat, j: nat)
    requires IsHistory(shots, steps) && HasPolicy(steps, x, p) && p.frequency == Daily
    requires forall k :: 0 <= k < |steps| ==> RealMoment(steps[k].now)
    requires i < j < |Created(shots, x)|
    ensures Less(Midnight(Created(shots, x)[i]), Midnight(Created(shots, x)[j]))
  {
    hide *;
    var run, times := HistoryIsWatch(shots, steps, x, p);
    OneTaskPerDay(p, run, times, i, j);
  }

  /** Over any rounds, a weekly source gets no two tasks within seven days. */
  lemma WeeklyRate(shots: seq<Shot>, steps: seq<Step>, x: Id, p: Policy, k: nat)
    requires IsHistory(shots, steps) && HasPolicy(steps, x, p) && p.frequency == Weekly
    requires k + 1 < |Created(shots, x)|
    ensures AtMost(AddDays(Created(shots, x)[k], 7), Created(shots, x)[k + 1])
  {
    hide *;
    var run, times := HistoryIsWatch(shots, steps, x, p);
    WeekBetweenTasks(p, run, times, k);
  }
}
