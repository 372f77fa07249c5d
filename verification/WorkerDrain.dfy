/**
 One worker pass - lease, run, complete or fail - and the loop round that repeats passes at
 a fixed time until one finds nothing to lease.
 */
module WorkerDrain {
  import opened Catalogue
  import opened TaskRules

  // How running one task ends; `NoAdapter` is noticed before the task is run.
  datatype Outcome = NoAdapter | Covered(cursor: string) | Raised | Finished(found: Found)

  datatype Report = Report(leased: nat, done: nat, retry: nat, dead: nat)

  /** `wanted` are the tasks that pass the filters by source, site, adapter and batch. */
  predicate Ready(tasks: map<Id, Task>, active: set<Id>, wanted: set<Id>, now: int, i: Id) {
    i in tasks && i in wanted && Leasable(tasks[i], now) && Due(tasks[i], now) && tasks[i].source in active
  }

  function ReadySet(tasks: map<Id, Task>, active: set<Id>, wanted: set<Id>, now: int): set<Id> {
    set i | i in tasks && Ready(tasks, active, wanted, now, i)
  }

  function SetOf(ids: seq<Id>): set<Id> {
    set i | i in ids
  }

  lemma {:induction false} SizeOfSet(ids: seq<Id>)
    requires NoRepeats(ids)
    ensures |SetOf(ids)| == |ids|
  {
    if ids == [] {
    } else {
      var front, last := ids[..|ids| - 1], ids[|ids| - 1];
      SizeOfSet(front);
      assert ids == front + [last];
      assert last !in front;
      assert SetOf(ids) == SetOf(front) + {last};
    }
  }

  /** A task that a pass at `now` has dealt with cannot be leased again at the same time. */
  predicate Settled(t: Task, now: int) {
    t.status == Done || t.status == Failed
        || (t.status == Pending && t.scheduledAt.Some? && t.scheduledAt.value >= now + 120)
  }

  lemma FailedOnceSettles(t: Task, read: nat, now: int)
    ensures Settled(FailedOnce(t, read, now), now)
    ensures FailedOnce(t, read, now).status == Pending || FailedOnce(t, read, now).status == Failed
  {
    DelaysRise(1, read + 1);
  }

  /** What the rows of `ids` look like once a pass has dealt with them, and the others as before. */
  ghost predicate Passed(before: map<Id, Task>, after: map<Id, Task>, ids: set<Id>, now: int) {
    && after.Keys == before.Keys
    && (forall i :: i in before && i !in ids ==> after[i] == before[i])
    && (forall i :: i in before && i in ids ==> Settled(after[i], now))
  }

  lemma PassShrinksReady(before: map<Id, Task>, after: map<Id, Task>, active: set<Id>, active': set<Id>,
                         wanted: set<Id>, ids: set<Id>, now: int)
    requires Passed(before, after, ids, now) && active' <= active
    ensures ReadySet(after, active', wanted, now) <= ReadySet(before, active, wanted, now) - ids
  {
  }

  /** Which tasks a pass may take. */
  lemma ReadyIs(tasks: map<Id, Task>, active: set<Id>, wanted: set<Id>, now: int, i: Id)
    ensures i in ReadySet(tasks, active, wanted, now) <==>
            && i in tasks && i in wanted && tasks[i].source in active
            && (tasks[i].status == Pending
                || (tasks[i].status == Running && exists until :: tasks[i].lease == Some(until) && until <= now))
            && forall at :: tasks[i].scheduledAt == Some(at) ==> at <= now
  {
    if i in tasks {
      LeasableIs(tasks[i], now);
    }
  }

  /** How a leased task ends. */
  ghost predicate Ended(leased: Task, after: Task, outcome: Outcome, now: int) {
    match outcome
    case Covered(cursor) => IsCompleted(leased, after, now, Found(0, 0, 1, 0, cursor))
    case Finished(found) => IsCompleted(leased, after, now, found)
    case _ => IsFailed(leased, after, leased.attempt, now)
  }

  /** A task that a pass has leased and dealt with. */
  ghost predicate Handled(before: Task, after: Task, outcome: Outcome, worker: Id, now: int, seconds: int) {
    exists t :: IsLeasedTo(before, t, worker, now, seconds) && Ended(t, after, outcome, now)
  }

  /** How many of some tasks are in a status. */
  ghost function InStatus(tasks: map<Id, Task>, ids: seq<Id>, status: TaskStatus): nat {
    if ids == [] then 0
    else
      var i := ids[|ids| - 1];
      InStatus(tasks, ids[..|ids| - 1], status) + if i in tasks && tasks[i].status == status then 1 else 0
  }

  /** Sources of dead tasks that are suspended for it. */
  ghost function Suspended(tasks: map<Id, Task>, ids: seq<Id>, suspend: Id -> bool): set<Id> {
    set i | i in ids && i in tasks && tasks[i].status == Failed && suspend(i) :: tasks[i].source
  }

  /** The report counts the ways in which the tasks ended. */
  ghost predicate Counts(r: Report, tasks: map<Id, Task>, ids: seq<Id>) {
    && r.leased == |ids| && r.done == InStatus(tasks, ids, Done)
    && r.retry == InStatus(tasks, ids, Pending) && r.dead == InStatus(tasks, ids, Failed)
  }

  lemma {:induction false} InStatusSame(t: map<Id, Task>, t': map<Id, Task>, ids: seq<Id>, status: TaskStatus)
    requires forall i :: i in ids ==> i in t && i in t' && t[i].status == t'[i].status
    ensures InStatus(t, ids, status) == InStatus(t', ids, status)
  {
    if ids == [] {
    } else {
      assert ids[|ids| - 1] in ids;
      InStatusSame(t, t', ids[..|ids| - 1], status);
    }
  }

  lemma {:induction false} InStatusConcat(t: map<Id, Task>, a: seq<Id>, b: seq<Id>, status: TaskStatus)
    ensures InStatus(t, a + b, status) == InStatus(t, a, status) + InStatus(t, b, status)
  {
    if b == [] {
      assert a + b == a;
    } else {
      InStatusConcat(t, a, b[..|b| - 1], status);
      assert (a + b)[..|a + b| - 1] == a + b[..|b| - 1];
    }
  }

  /** Where a pass stands after some of its tasks. */
  ghost predicate PassSoFar(mid: map<Id, Task>, tasks: map<Id, Task>, ids: seq<Id>, outcome: Id -> Outcome, now: int) {
    && tasks.Keys == mid.Keys
    && (forall i :: i in tasks && i !in ids ==> tasks[i] == mid[i])
    && (forall i :: i in ids ==> i in tasks && Settled(tasks[i], now) && Ended(mid[i], tasks[i], outcome(i), now))
  }

  lemma PassIsHandled(before: map<Id, Task>, mid: map<Id, Task>, after: map<Id, Task>, ids: seq<Id>,
                      outcome: Id -> Outcome, worker: Id, now: int, seconds: int)
    requires mid.Keys == before.Keys && forall i :: i in mid && i !in ids ==> mid[i] == before[i]
    requires forall i :: i in ids ==> i in mid && IsLeasedTo(before[i], mid[i], worker, now, seconds)
    requires PassSoFar(mid, after, ids, outcome, now)
    ensures Passed(before, after, SetOf(ids), now)
    ensures forall i :: i in ids ==>
              i in before && i in after && Handled(before[i], after[i], outcome(i), worker, now, seconds)
  {
    hide Settled, Ended, IsLeasedTo;
  }

  lemma PassOneMore(mid: map<Id, Task>, tasks: map<Id, Task>, tasks': map<Id, Task>, ids: seq<Id>, i: Id,
                    outcome: Id -> Outcome, now: int)
    requires PassSoFar(mid, tasks, ids, outcome, now) && i !in ids && i in tasks
    requires tasks'.Keys == tasks.Keys && (forall j :: j in tasks && j != i ==> tasks'[j] == tasks[j])
    requires Settled(tasks'[i], now) && Ended(tasks[i], tasks'[i], outcome(i), now)
    ensures PassSoFar(mid, tasks', ids + [i], outcome, now)
  {
    hide Ended, Settled;
  }

  lemma CountOneMore(tasks: map<Id, Task>, tasks': map<Id, Task>, ids: seq<Id>, i: Id, r: Report)
    requires Counts(r, tasks, ids) && i in tasks' && tasks'[i].status != Running
    requires forall j :: j in ids ==> j in tasks && j in tasks' && tasks'[j] == tasks[j]
    ensures var s := tasks'[i].status;
            Counts(Report(r.leased + 1, r.done + (if s == Done then 1 else 0),
                          r.retry + (if s == Pending then 1 else 0), r.dead + (if s == Failed then 1 else 0)),
                   tasks', ids + [i])
  {
    InStatusSame(tasks, tasks', ids, Done);
    InStatusSame(tasks, tasks', ids, Pending);
    InStatusSame(tasks, tasks', ids, Failed);
    assert (ids + [i])[..|ids|] == ids;
  }

  lemma SuspendOneMore(tasks: map<Id, Task>, tasks': map<Id, Task>, ids: seq<Id>, i: Id, suspend: Id -> bool)
    requires i in tasks' && forall j :: j in ids ==> j in tasks && j in tasks' && tasks'[j] == tasks[j]
    ensures Suspended(tasks', ids + [i], suspend)
         == Suspended(tasks, ids, suspend) + if tasks'[i].status == Failed && suspend(i) then {tasks'[i].source} else {}
  {
    assert forall j :: j in ids + [i] <==> j in ids || j == i;
  }

  lemma CountsAll(r: Report, tasks: map<Id, Task>, ids: seq<Id>)
    requires Counts(r, tasks, ids)
    ensures r.leased == |ids|
  {
  }

  lemma NothingPassed(tasks: map<Id, Task>, outcome: Id -> Outcome, suspend: Id -> bool, now: int)
    ensures PassSoFar(tasks, tasks, [], outcome, now) && Counts(Report(0, 0, 0, 0), tasks, [])
    ensures Suspended(tasks, [], suspend) == {}
  {
  }

  predicate Ascending(ids: seq<Id>, rank: Id -> int) {
    forall i, j :: 0 <= i < j < |ids| ==> rank(ids[i]) <= rank(ids[j])
  }

  /** `order_by`: all tasks, each once, by rank. */
  method QueryOrder(ids: set<Id>, rank: Id -> int) returns (rows: seq<Id>)
    ensures NoRepeats(rows) && Ascending(rows, rank) && forall i :: i in rows <==> i in ids
  {
    rows := [];
    var todo := ids;
    while todo != {}
      invariant todo <= ids && NoRepeats(rows) && Ascending(rows, rank)
      invariant forall i :: i in rows <==> i in ids && i !in todo
      decreases todo
    {
      var i :| i in todo;
      todo := todo - {i};
      rows := InsertByRank(rows, i, rank);
    }
  }

  method InsertByRank(rows: seq<Id>, i: Id, rank: Id -> int) returns (r: seq<Id>)
    requires NoRepeats(rows) && Ascending(rows, rank) && i !in rows
    ensures NoRepeats(r) && Ascending(r, rank) && forall j :: j in r <==> j in rows || j == i
  {
    var k := 0;
    while k < |rows| && rank(rows[k]) <= rank(i)
      invariant 0 <= k <= |rows|
      invariant forall j :: 0 <= j < k ==> rank(rows[j]) <= rank(i)
    {
      k := k + 1;
    }
    r := rows[..k] + [i] + rows[k..];
    Inserted(rows, k, i, rank);
  }

  lemma Inserted(rows: seq<Id>, k: nat, i: Id, rank: Id -> int)
    requires NoRepeats(rows) && Ascending(rows, rank) && i !in rows && k <= |rows|
    requires forall j :: 0 <= j < k ==> rank(rows[j]) <= rank(i)
    requires k < |rows| ==> rank(i) < rank(rows[k])
    ensures var r := rows[..k] + [i] + rows[k..];
            NoRepeats(r) && Ascending(r, rank) && forall j :: j in r <==> j in rows || j == i
  {
    hide NoRepeats, Ascending;
    InsertedOnce(rows, k, i);
    InsertedInOrder(rows, k, i, rank);
  }

  lemma InsertedOnce(rows: seq<Id>, k: nat, i: Id)
    requires NoRepeats(rows) && i !in rows && k <= |rows|
    ensures var r := rows[..k] + [i] + rows[k..]; NoRepeats(r) && forall j :: j in r <==> j in rows || j == i
  {
    var r := rows[..k] + [i] + rows[k..];
    assert forall j :: 0 <= j < |r| ==> r[j] == if j < k then rows[j] else if j == k then i else rows[j - 1];
    assert rows == rows[..k] + rows[k..];
  }

  lemma InsertedInOrder(rows: seq<Id>, k: nat, i: Id, rank: Id -> int)
    requires Ascending(rows, rank) && k <= |rows|
    requires forall j :: 0 <= j < k ==> rank(rows[j]) <= rank(i)
    requires k < |rows| ==> rank(i) < rank(rows[k])
    ensures Ascending(rows[..k] + [i] + rows[k..], rank)
  {
    var r := rows[..k] + [i] + rows[k..];
    assert forall j :: 0 <= j < |r| ==> r[j] == if j < k then rows[j] else if j == k then i else rows[j - 1];
    assert forall j :: k <= j < |rows| ==> rank(rows[k]) <= rank(rows[j]);
  }

  /** The scan has looked at the first `k` rows and taken the ready ones. */
  ghost predicate Taken(rows: seq<Id>, k: nat, ids: seq<Id>, rank: Id -> int, ready: set<Id>) {
    && k <= |rows| && NoRepeats(ids) && Ascending(ids, rank)
    && forall i :: i in ids <==> i in rows[..k] && i in ready
  }

  lemma TakeNext(rows: seq<Id>, k: nat, ids: seq<Id>, rank: Id -> int, ready: set<Id>)
    requires NoRepeats(rows) && Ascending(rows, rank) && k < |rows| && Taken(rows, k, ids, rank, ready)
    ensures Taken(rows, k + 1, if rows[k] in ready then ids + [rows[k]] else ids, rank, ready)
  {
    assert rows[..k + 1] == rows[..k] + [rows[k]];
    NamedBefore(rows, k + 1, rows[k]);
    if rows[k] in ready {
      forall j | 0 <= j < |ids|
        ensures rank(ids[j]) <= rank(rows[k])
      {
        assert ids[j] in ids;
        var a :| 0 <= a < k && rows[..k][a] == ids[j];
      }
    }
  }

  lemma TakenIsFirst(rows: seq<Id>, k: nat, ids: seq<Id>, rank: Id -> int, ready: set<Id>)
    requires Ascending(rows, rank) && Taken(rows, k, ids, rank, ready) && forall i :: i in ready ==> i in rows
    ensures forall i, j :: i in ids && j in ready && j !in ids ==> rank(i) <= rank(j)
    ensures |ids| <= |ready| && (k == |rows| ==> |ids| == |ready|)
  {
    forall i, j | i in ids && j in ready && j !in ids
      ensures rank(i) <= rank(j)
    {
      assert forall c :: 0 <= c < k ==> rows[..k][c] == rows[c];
      var a :| 0 <= a < k && rows[..k][a] == i;
      var b :| 0 <= b < |rows| && rows[b] == j;
      assert k <= b;
    }
    SizeOfSet(ids);
    SubsetSize(SetOf(ids), ready);
    if k == |rows| {
      assert rows[..k] == rows;
      assert SetOf(ids) == ready;
    }
  }

  class Queue {
    var tasks: map<Id, Task>
    // The sources whose status is active.
    var active: set<Id>

    constructor (tasks: map<Id, Task>, active: set<Id>)
      ensures this.tasks == tasks && this.active == active
    {
      this.tasks, this.active := tasks, active;
    }

    /** The first `limit` ready tasks in the order of the query, by priority and then by age. */
    method Select(limit: nat, wanted: set<Id>, now: int, rank: Id -> int) returns (ids: seq<Id>)
      ensures NoRepeats(ids) && SetOf(ids) <= ReadySet(tasks, active, wanted, now)
      ensures |ids| == Min(limit, |ReadySet(tasks, active, wanted, now)|)
      ensures Ascending(ids, rank)
      ensures forall i, j :: i in ids && j in ReadySet(tasks, active, wanted, now) && j !in ids ==> rank(i) <= rank(j)
    {
      var rows := QueryOrder(tasks.Keys, rank);
      ghost var ready := ReadySet(tasks, active, wanted, now);
      ids := [];
      var k := 0;
      while k < |rows| && |ids| < limit
        invariant Taken(rows, k, ids, rank, ready) && |ids| <= limit
        decreases |rows| - k
      {
        TakeNext(rows, k, ids, rank, ready);
        if Ready(tasks, active, wanted, now, rows[k]) {
          ids := ids + [rows[k]];
        }
        k := k + 1;
      }
      TakenIsFirst(rows, k, ids, rank, ready);
    }

    /** Marks the selected tasks as running under a new lease. */
    method LeaseSelected(ids: seq<Id>, worker: Id, now: int, until: int)
      requires SetOf(ids) <= tasks.Keys
      modifies this`tasks
      ensures tasks == map i | i in old(tasks) ::
                if i in ids then Leased(old(tasks)[i], worker, now, until) else old(tasks)[i]
    {
      var k := 0;
      while k < |ids|
        invariant 0 <= k <= |ids|
        invariant tasks.Keys == old(tasks).Keys
        invariant forall i :: i in tasks ==>
                    tasks[i] == if i in ids[..k] then Leased(old(tasks)[i], worker, now, until) else old(tasks)[i]
      {
        assert ids[k] in SetOf(ids);
        assert ids[..k + 1] == ids[..k] + [ids[k]];
        tasks := tasks[ids[k] := Leased(tasks[ids[k]], worker, now, until)];
        k := k + 1;
      }
      assert ids[..k] == ids;
    }

    /** `_lease_pending_tasks`: selects tasks and leases them, for a minute at least. */
    method LeasePending(limit: nat, wanted: set<Id>, now: int, seconds: int, worker: Id, rank: Id -> int)
      returns (ids: seq<Id>)
      modifies this`tasks
      ensures NoRepeats(ids) && SetOf(ids) <= old(ReadySet(tasks, active, wanted, now)) && Ascending(ids, rank)
      ensures |ids| == Min(limit, |old(ReadySet(tasks, active, wanted, now))|)
      ensures forall i, j :: i in ids && j in old(ReadySet(tasks, active, wanted, now)) && j !in ids ==>
                rank(i) <= rank(j)
      ensures tasks.Keys == old(tasks).Keys
      ensures forall i :: i in ids ==> i in tasks && IsLeasedTo(old(tasks)[i], tasks[i], worker, now, seconds)
      ensures forall i :: i in tasks && i !in ids ==> tasks[i] == old(tasks)[i]
    {
      var until := now + if seconds > 60 then seconds else 60;
      ids := Select(limit, wanted, now, rank);
      assert forall i :: i in ids ==> i in SetOf(ids);
      LeaseSelected(ids, worker, now, until);
    }

    /** Runs one leased task and writes how it ended. */
    method RunOne(i: Id, now: int, outcome: Outcome, suspend: bool) returns (status: TaskStatus)
      requires i in tasks
      modifies this
      ensures tasks.Keys == old(tasks).Keys
      ensures forall j :: j in tasks && j != i ==> tasks[j] == old(tasks)[j]
      ensures Settled(tasks[i], now) && tasks[i].status == status && status != Running
      ensures Ended(old(tasks)[i], tasks[i], outcome, now)
      ensures active == old(active) - if status == Failed && suspend then {tasks[i].source} else {}
    {
      match outcome {
        case Covered(cursor) => tasks := tasks[i := Completed(tasks[i], now, Found(0, 0, 1, 0, cursor))];
        case Finished(found) => tasks := tasks[i := Completed(tasks[i], now, found)];
        case _ =>
          FailedOnceSettles(tasks[i], tasks[i].attempt, now);
          FailedIs(tasks[i], tasks[i].attempt, now);
          var t := FailedOnce(tasks[i], tasks[i].attempt, now);
          tasks := tasks[i := t];
          if t.status == Failed && suspend {
            active := active - {t.source};
          }
      }
      status := tasks[i].status;
    }

    /** Runs the leased tasks one after another and counts how they end. */
    method RunLeased(ids: seq<Id>, now: int, outcome: Id -> Outcome, suspend: Id -> bool) returns (r: Report)
      requires NoRepeats(ids) && forall i :: i in ids ==> i in tasks
      modifies this
      ensures PassSoFar(old(tasks), tasks, ids, outcome, now)
      ensures Counts(r, tasks, ids) && r.leased == r.done + r.retry + r.dead
      ensures active == old(active) - Suspended(tasks, ids, suspend)
    {
      hide Settled, Ended, PassSoFar, Counts, Suspended, NoRepeats;
      var done: nat, retry: nat, dead: nat := 0, 0, 0;
      var k := 0;
      assert ids[..0] == [];
      NothingPassed(tasks, outcome, suspend, now);
      while k < |ids|
        invariant 0 <= k <= |ids| && done + retry + dead == k && tasks.Keys == old(tasks).Keys
        invariant PassSoFar(old(tasks), tasks, ids[..k], outcome, now)
        invariant Counts(Report(k, done, retry, dead), tasks, ids[..k])
        invariant active == old(active) - Suspended(tasks, ids[..k], suspend)
      {
        NamedBefore(ids, k + 1, ids[k]);
        assert ids[k] in ids && ids[..k + 1] == ids[..k] + [ids[k]];
        assert forall j :: j in ids[..k] ==> j in ids;
        ghost var tasks0 := tasks;
        var status := RunOne(ids[k], now, outcome(ids[k]), suspend(ids[k]));
        PassOneMore(old(tasks), tasks0, tasks, ids[..k], ids[k], outcome, now);
        CountOneMore(tasks0, tasks, ids[..k], ids[k], Report(k, done, retry, dead));
        SuspendOneMore(tasks0, tasks, ids[..k], ids[k], suspend);
        if status == Done {
          done := done + 1;
        } else if status == Pending {
          retry := retry + 1;
        } else {
          dead := dead + 1;
        }
        k := k + 1;
      }
      assert ids[..k] == ids;
      r := Report(|ids|, done, retry, dead);
      CountsAll(r, tasks, ids);
    }

    /**
     One pass over the first ready tasks in query order. Every one of them is leased, ends as
     its run says, and is counted as done, to be retried, or dead; none is ready again at the
     same time.
     */
    method RunWorker(limit: nat, wanted: set<Id>, now: int, seconds: int, worker: Id, rank: Id -> int,
                     outcome: Id -> Outcome, suspend: Id -> bool)
      returns (r: Report, ids: seq<Id>)
      modifies this
      ensures NoRepeats(ids) && SetOf(ids) <= old(ReadySet(tasks, active, wanted, now))
      ensures |ids| == Min(limit, |old(ReadySet(tasks, active, wanted, now))|) && Ascending(ids, rank)
      ensures forall i, j :: i in ids && j in old(ReadySet(tasks, active, wanted, now)) && j !in ids ==>
                rank(i) <= rank(j)
      ensures Passed(old(tasks), tasks, SetOf(ids), now)
      ensures forall i :: i in ids ==>
                i in tasks && i in old(tasks) && Handled(old(tasks)[i], tasks[i], outcome(i), worker, now, seconds)
      ensures Counts(r, tasks, ids) && r.leased == r.done + r.retry + r.dead
      ensures active == old(active) - Suspended(tasks, ids, suspend)
    {
      ids := LeasePending(limit, wanted, now, seconds, worker, rank);
      ghost var mid := tasks;
      r := RunLeased(ids, now, outcome, suspend);
      PassIsHandled(old(tasks), mid, tasks, ids, outcome, worker, now, seconds);
    }

    /**
     The drain of one loop round, all passes at the same `now`: no task is leased twice, and
     when the cap allows, everything ready is dealt with in at most one pass more than the
     ready tasks fill.
     */
    method Drain(limit: nat, maxCycles: nat, wanted: set<Id>, now: int, seconds: int, worker: Id,
                 rank: (nat, Id) -> int, outcome: (nat, Id) -> Outcome, suspend: Id -> bool)
      returns (totals: Report, cycles: nat, leased: seq<Id>)
      modifies this
      ensures Counts(totals, tasks, leased) && totals.leased == totals.done + totals.retry + totals.dead
      ensures AllHandled(old(tasks), tasks, leased, cycles, outcome, worker, now, seconds)
      ensures active == old(active) - Suspended(tasks, leased, suspend)
      ensures NoRepeats(leased) && SetOf(leased) <= old(ReadySet(tasks, active, wanted, now))
      ensures Passed(old(tasks), tasks, SetOf(leased), now)
      ensures 1 <= cycles <= Ceiling(|old(ReadySet(tasks, active, wanted, now))|, Max(1, limit)) + 1
      ensures Max(1, maxCycles) > Ceiling(|old(ReadySet(tasks, active, wanted, now))|, Max(1, limit)) ==>
                ReadySet(tasks, active, wanted, now) == {}
    {
      var perPass := Max(1, limit);
      ghost var ready0 := ReadySet(tasks, active, wanted, now);
      totals, cycles, leased := Report(0, 0, 0, 0), 0, [];
      assert SetOf([]) == {};
      assert DrainState(tasks, tasks, ready0, ready0, [], 0, perPass, now);
      hide Passed, ReadySet, NoRepeats, SetOf, DrainState, Counts, Suspended, Handled, AllHandled;
      NothingDrained(tasks, outcome, suspend, worker, now, seconds);
      ghost var drained := false;
      while cycles < Max(1, maxCycles)
        invariant cycles <= Max(1, maxCycles) && !drained
        invariant Counts(totals, tasks, leased) && totals.leased == totals.done + totals.retry + totals.dead
        invariant AllHandled(old(tasks), tasks, leased, cycles, outcome, worker, now, seconds)
        invariant active == old(active) - Suspended(tasks, leased, suspend)
        invariant DrainState(old(tasks), tasks, ready0, ReadySet(tasks, active, wanted, now), leased, cycles, perPass,
                             now)
      {
        ghost var tasks0, active0 := tasks, active;
        var byRank, result := (i: Id) => rank(cycles, i), (i: Id) => outcome(cycles, i);
        var r, ids := RunWorker(perPass, wanted, now, seconds, worker, byRank, result, suspend);
        PassShrinksReady(tasks0, tasks, active0, active, wanted, SetOf(ids), now);
        DrainStep(old(tasks), tasks0, tasks, ready0, ReadySet(tasks0, active0, wanted, now),
                  ReadySet(tasks, active, wanted, now),
                  leased, ids, cycles, perPass, now);
        DrainedMore(old(tasks), tasks0, tasks, ready0, ReadySet(tasks0, active0, wanted, now), leased, ids, totals, r,
                    cycles, outcome, suspend, worker, now, seconds, perPass);
        totals := Report(totals.leased + r.leased, totals.done + r.done, totals.retry + r.retry, totals.dead + r.dead);
        leased := leased + ids;
        cycles := cycles + 1;
        if r.leased == 0 {
          drained := true;
          break;
        }
      }
      ghost var full := if drained then cycles - 1 else cycles;
      DrainEnds(old(tasks), tasks, ready0, ReadySet(tasks, active, wanted, now), leased, full, perPass, now);
    }
  }

  /** Every task leased in one of the first `c` passes was handled in it. */
  ghost predicate AllHandled(t0: map<Id, Task>, t: map<Id, Task>, leased: seq<Id>, c: nat,
                             outcome: (nat, Id) -> Outcome, worker: Id, now: int, seconds: int) {
    forall i :: i in leased ==>
      i in t && i in t0 && exists k: nat :: k < c && Handled(t0[i], t[i], outcome(k, i), worker, now, seconds)
  }

  lemma NothingDrained(t: map<Id, Task>, outcome: (nat, Id) -> Outcome, suspend: Id -> bool, worker: Id, now: int,
                       seconds: int)
    ensures Counts(Report(0, 0, 0, 0), t, []) && Suspended(t, [], suspend) == {}
    ensures AllHandled(t, t, [], 0, outcome, worker, now, seconds)
  {
  }

  /** What one more pass adds to the drain. */
  lemma DrainedMore(t0: map<Id, Task>, t1: map<Id, Task>, t2: map<Id, Task>, ready0: set<Id>, before: set<Id>,
                    leased: seq<Id>, ids: seq<Id>, totals: Report, r: Report, c: nat,
                    outcome: (nat, Id) -> Outcome, suspend: Id -> bool, worker: Id, now: int, seconds: int,
                    perPass: nat)
    requires DrainState(t0, t1, ready0, before, leased, c, perPass, now) && SetOf(ids) <= before
    requires AllHandled(t0, t1, leased, c, outcome, worker, now, seconds) && Counts(totals, t1, leased)
    requires Passed(t1, t2, SetOf(ids), now) && Counts(r, t2, ids)
    requires forall i :: i in ids ==>
               i in t1 && i in t2 && Handled(t1[i], t2[i], outcome(c, i), worker, now, seconds)
    ensures AllHandled(t0, t2, leased + ids, c + 1, outcome, worker, now, seconds)
    ensures Counts(Report(totals.leased + r.leased, totals.done + r.done, totals.retry + r.retry, totals.dead + r.dead),
                   t2, leased + ids)
    ensures Suspended(t2, leased + ids, suspend) == Suspended(t1, leased, suspend) + Suspended(t2, ids, suspend)
  {
    hide Handled, Settled;
    LeasedStay(t0, t1, t2, ready0, before, leased, ids, c, perPass, now);
    hide DrainState, Passed;
    MoreCounted(t1, t2, leased, ids, Done);
    MoreCounted(t1, t2, leased, ids, Pending);
    MoreCounted(t1, t2, leased, ids, Failed);
    hide InStatus, SetOf;
    forall i | i in leased + ids
      ensures i in t2 && i in t0
      ensures exists k: nat :: k < c + 1 && Handled(t0[i], t2[i], outcome(k, i), worker, now, seconds)
    {
      if i in leased {
        var k: nat :| k < c && Handled(t0[i], t1[i], outcome(k, i), worker, now, seconds);
        assert Handled(t0[i], t2[i], outcome(k, i), worker, now, seconds);
      } else {
        assert i in ids;
      }
    }
  }

  /** A later pass leaves what earlier ones have leased, and leases what they have left. */
  lemma LeasedStay(t0: map<Id, Task>, t1: map<Id, Task>, t2: map<Id, Task>, ready0: set<Id>, before: set<Id>,
                   leased: seq<Id>, ids: seq<Id>, c: nat, perPass: nat, now: int)
    requires DrainState(t0, t1, ready0, before, leased, c, perPass, now) && SetOf(ids) <= before
    requires Passed(t1, t2, SetOf(ids), now) && forall i :: i in ids ==> i in t1
    ensures forall i :: i in leased && i in t1 ==> i in t2 && t2[i] == t1[i]
    ensures forall i :: i in ids ==> i in t0 && i in t1 && t1[i] == t0[i]
  {
    hide Settled;
    forall i | i in leased || i in ids
      ensures i in leased ==> i !in ids
    {
      assert i in leased ==> i in SetOf(leased);
      assert i in ids ==> i in SetOf(ids);
    }
  }

  lemma MoreCounted(t1: map<Id, Task>, t2: map<Id, Task>, leased: seq<Id>, ids: seq<Id>, status: TaskStatus)
    requires forall i :: i in leased ==> i in t1 && i in t2 && t2[i] == t1[i]
    ensures InStatus(t2, leased + ids, status) == InStatus(t1, leased, status) + InStatus(t2, ids, status)
  {
    InStatusSame(t1, t2, leased, status);
    InStatusConcat(t2, leased, ids, status);
  }

  /** How far a drain has come. */
  ghost predicate DrainState(t0: map<Id, Task>, t: map<Id, Task>, ready0: set<Id>, ready: set<Id>, leased: seq<Id>,
                             c: nat, perPass: nat, now: int) {
    && NoRepeats(leased) && SetOf(leased) <= ready0 && ready <= ready0 - SetOf(leased)
    && Passed(t0, t, SetOf(leased), now)
    && FullSoFar(|leased|, c, perPass, |ready|)
  }

  lemma DrainStep(t0: map<Id, Task>, t1: map<Id, Task>, t2: map<Id, Task>, ready0: set<Id>, before: set<Id>,
                  after: set<Id>,
                  leased: seq<Id>, ids: seq<Id>, c: nat, perPass: nat, now: int)
    requires DrainState(t0, t1, ready0, before, leased, c, perPass, now) && perPass > 0
    requires NoRepeats(ids) && SetOf(ids) <= before && |ids| == Min(perPass, |before|)
    requires Passed(t1, t2, SetOf(ids), now) && after <= before - SetOf(ids)
    ensures |ids| > 0 ==> DrainState(t0, t2, ready0, after, leased + ids, c + 1, perPass, now)
    ensures |ids| == 0 ==> after == {} && DrainState(t0, t2, ready0, after, leased + ids, c, perPass, now)
  {
    LeasedOnce(leased, ids, ready0, before);
    LeftOver(before, after, ids, perPass);
    if ids == [] {
      assert before == {};
    }
  }

  lemma DrainEnds(t0: map<Id, Task>, t: map<Id, Task>, ready0: set<Id>, ready: set<Id>, leased: seq<Id>,
                  c: nat, perPass: nat, now: int)
    requires DrainState(t0, t, ready0, ready, leased, c, perPass, now) && perPass > 0
    ensures NoRepeats(leased) && SetOf(leased) <= ready0 && Passed(t0, t, SetOf(leased), now)
    ensures c <= Ceiling(|ready0|, perPass)
  {
    SizeOfSet(leased);
    SubsetSize(SetOf(leased), ready0);
    PassesBounded(|leased|, c, perPass, |ready0|);
  }

  /** After `c` passes that leased something: all were full, or the last one emptied the table. */
  ghost predicate FullSoFar(n: nat, c: nat, perPass: nat, ready: nat) {
    n == c * perPass || (ready == 0 && c > 0 && n > (c - 1) * perPass)
  }

  lemma PassesBounded(n: nat, c: nat, perPass: nat, ready0: nat)
    requires perPass > 0 && n <= ready0
    requires n == c * perPass || (c > 0 && n > (c - 1) * perPass)
    ensures c <= Ceiling(ready0, perPass)
  {
    if n != c * perPass {
      assert (c - 1) * perPass == c * perPass - perPass;
    }
    Divides(c, perPass, ready0 + perPass - 1);
  }

  lemma Divides(c: nat, k: nat, x: nat)
    requires k > 0 && c * k <= x
    ensures c <= x / k
  {
    assert x == x / k * k + x % k;
    assert (x / k + 1) * k == x / k * k + k;
  }

  lemma LeasedOnce(leased: seq<Id>, ids: seq<Id>, ready0: set<Id>, before: set<Id>)
    requires NoRepeats(leased) && NoRepeats(ids) && SetOf(leased) <= ready0
    requires SetOf(ids) <= before <= ready0 - SetOf(leased)
    ensures NoRepeats(leased + ids) && SetOf(leased + ids) == SetOf(leased) + SetOf(ids) <= ready0
  {
    forall i, j | 0 <= i < j < |leased + ids|
      ensures (leased + ids)[i] != (leased + ids)[j]
    {
      if i < |leased| <= j {
        assert leased[i] in SetOf(leased) && ids[j - |leased|] in SetOf(ids);
      }
    }
  }

  lemma LeftOver(before: set<Id>, after: set<Id>, ids: seq<Id>, perPass: nat)
    requires NoRepeats(ids) && SetOf(ids) <= before && after <= before - SetOf(ids) && |ids| == Min(perPass, |before|)
    ensures |ids| < perPass ==> |after| == 0
  {
    SizeOfSet(ids);
    SubsetSize(SetOf(ids), before);
    if |ids| < perPass {
      assert SetOf(ids) == before;
      assert after == {};
    }
  }

  /** The least number of full passes that take `n` tasks. */
  lemma CeilingIs(n: nat, k: nat, c: nat)
    requires k > 0
    ensures Ceiling(n, k) * k >= n && (c * k >= n ==> Ceiling(n, k) <= c)
  {
    var x := n + k - 1;
    assert x == x / k * k + x % k;
    if c * k >= n {
      assert (c + 1) * k == c * k + k;
      Quotient(c, k, x);
    }
  }

  lemma Quotient(c: nat, k: nat, x: nat)
    requires k > 0 && x < (c + 1) * k
    ensures x / k <= c
  {
    assert x == x / k * k + x % k;
    if x / k > c {
      Times(c + 1, x / k, k);
    }
  }

  lemma Times(a: nat, b: nat, k: nat)
    requires a <= b
    ensures a * k <= b * k
  {
  }

  function Max(x: nat, y: nat): nat {
    if x < y then y else x
  }

  function Ceiling(n: nat, k: nat): nat
    requires k > 0
  {
    (n + k - 1) / k
  }
}
