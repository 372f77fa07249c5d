/**
 What each operation of the crawl worker does to one task row: leasing, completing,
 failing with backoff, dead-lettering. Times are seconds; a missing time is `None`.
 */
module TaskRules {
  import opened Catalogue

  datatype TaskStatus = Pending | Running | Done | Failed

  // What a completed task reports of its run.
  datatype Found = Found(discovered: nat, ingested: nat, duplicate: nat, failed: nat, cursor: string)

  datatype Task = Task(
    source: Id, incremental: bool, status: TaskStatus, scheduledAt: Option<int>,
    attempt: nat, maxAttempts: nat, worker: Option<Id>, startedAt: Option<int>, lease: Option<int>,
    finishedAt: Option<int>, found: Option<Found>)

  function NewTask(source: Id, incremental: bool, scheduledAt: Option<int>, maxAttempts: nat): Task {
    Task(source, incremental, Pending, scheduledAt, 0, maxAttempts, None, None, None, None, None)
  }

  /** `max_attempts or 3`. */
  function MaxAttempts(t: Task): (m: nat)
    ensures m > 0
  {
    if t.maxAttempts == 0 then 3 else t.maxAttempts
  }

  predicate Live(t: Task) {
    t.status == Pending || t.status == Running
  }

  predicate Due(t: Task, now: int) {
    t.scheduledAt.None? || t.scheduledAt.value <= now
  }

  /** Pending, or running with a lease that has run out. */
  predicate Leasable(t: Task, now: int) {
    t.status == Pending || (t.status == Running && t.lease.Some? && t.lease.value <= now)
  }

  function LeaseUntil(now: int, seconds: int): int {
    now + if seconds > 60 then seconds else 60
  }

  function Leased(t: Task, worker: Id, now: int, until: int): Task {
    t.(status := Running, worker := Some(worker), startedAt := Some(now), lease := Some(until), finishedAt := None)
  }

  function Completed(t: Task, now: int, found: Found): Task {
    t.(status := Done, lease := None, finishedAt := Some(now), found := Some(found))
  }

  function Power2(n: nat): (p: nat)
    ensures p > 0
  {
    if n == 0 then 1 else 2 * Power2(n - 1)
  }

  const LONGEST_DELAY := 14400

  function Delay(attempt: nat): nat {
    if 60 * Power2(attempt) < LONGEST_DELAY then 60 * Power2(attempt) else LONGEST_DELAY
  }

  /**
   A failed attempt: back to pending with a delay, or dead-lettered. The worker counts on from
   the attempt it read when it leased the task, whatever the row says by now.
   */
  function FailedOnce(t: Task, read: nat, now: int): Task {
    var next := t.(attempt := read + 1, lease := None, finishedAt := Some(now));
    if read + 1 < MaxAttempts(t) then next.(status := Pending, scheduledAt := Some(now + Delay(read + 1)))
    else next.(status := Failed)
  }

  lemma {:induction false} Power2Rises(a: nat, b: nat)
    requires a <= b
    ensures Power2(a) <= Power2(b)
    decreases b - a
  {
    if a < b {
      Power2Rises(a, b - 1);
    }
  }

  /** Delays never shrink from one retry to the next, start at two minutes and stop at four hours. */
  lemma DelaysRise(a: nat, b: nat)
    requires 1 <= a <= b
    ensures 120 <= Delay(a) <= Delay(b) <= LONGEST_DELAY
  {
    Power2Rises(1, a);
    Power2Rises(a, b);
    assert Power2(1) == 2 * Power2(0);
  }

  // -------------------------------------------------- the same, field by field

  /** Running for this worker, under a lease of the seconds asked for, but of a minute at least. */
  ghost predicate IsLeasedTo(before: Task, after: Task, worker: Id, now: int, seconds: int) {
    && after.status == Running && after.worker == Some(worker) && after.startedAt == Some(now)
    && after.lease.Some? && after.lease.value >= now + 60 && after.lease.value >= now + seconds
    && (after.lease.value == now + 60 || after.lease.value == now + seconds)
    && after.finishedAt == None && after.scheduledAt == before.scheduledAt && after.attempt == before.attempt
    && after.found == before.found && SameOrder(before, after)
  }

  /** What was asked for does not change. */
  ghost predicate SameOrder(before: Task, after: Task) {
    after.source == before.source && after.incremental == before.incremental && after.maxAttempts == before.maxAttempts
  }

  ghost predicate IsCompleted(before: Task, after: Task, now: int, found: Found) {
    && after.status == Done && after.lease == None && after.finishedAt == Some(now) && after.found == Some(found)
    && after.scheduledAt == before.scheduledAt && after.attempt == before.attempt
    && after.worker == before.worker && after.startedAt == before.startedAt && SameOrder(before, after)
  }

  /** Seconds to wait after the first seven failures; four hours after any later one. */
  const WAITS: seq<int> := [120, 240, 480, 960, 1920, 3840, 7680]

  function WaitAfter(failures: nat): int {
    if 1 <= failures <= 7 then WAITS[failures - 1] else 14400
  }

  /** One more attempt than was read, and then another try later, or none; three are allowed if nothing is said. */
  ghost predicate IsFailed(before: Task, after: Task, read: nat, now: int) {
    var allowed := if before.maxAttempts == 0 then 3 else before.maxAttempts;
    && after.attempt == read + 1 && after.lease == None && after.finishedAt == Some(now)
    && (if read + 1 < allowed then after.status == Pending && after.scheduledAt == Some(now + WaitAfter(read + 1))
        else after.status == Failed && after.scheduledAt == before.scheduledAt)
    && after.found == before.found && after.worker == before.worker && after.startedAt == before.startedAt
    && SameOrder(before, after)
  }

  lemma LeasedIs(t: Task, worker: Id, now: int, seconds: int)
    ensures IsLeasedTo(t, Leased(t, worker, now, LeaseUntil(now, seconds)), worker, now, seconds)
  {
  }

  lemma CompletedIs(t: Task, now: int, found: Found)
    ensures IsCompleted(t, Completed(t, now, found), now, found)
  {
  }

  lemma FailedIs(t: Task, read: nat, now: int)
    ensures IsFailed(t, FailedOnce(t, read, now), read, now)
  {
    DelayIs(read + 1);
    hide Delay;
  }

  lemma DelayIs(n: nat)
    requires n > 0
    ensures Delay(n) == WaitAfter(n)
  {
    assert Power2(2) == 4;
    assert Power2(4) == 16;
    assert Power2(6) == 64;
    assert Power2(8) == 256;
    if n > 8 {
      Power2Rises(8, n);
    }
  }

  /** Pending, or running under a lease that has run out; and its time has come. */
  lemma LeasableIs(t: Task, now: int)
    ensures Leasable(t, now) && Due(t, now) <==>
            && (t.status == Pending || (t.status == Running && exists until :: t.lease == Some(until) && until <= now))
            && forall at :: t.scheduledAt == Some(at) ==> at <= now
  {
  }
}
