/**
 What the moves of schedulers and workers do to the shared table, row by row and field by
 field, and how long a lease keeps others away.
 */
module TaskOutcomes {
  import opened Catalogue
  import opened TaskRules
  import opened TaskProtocol

  /** When tasks can be leased. */
  lemma LeaseEnabledIs(w: World, worker: Id, ids: set<Id>, now: int, seconds: int)
    ensures Enabled(w, Lease(worker, ids, now, seconds)) <==>
            && now <= w.clock
            && forall i :: i in ids ==>
                 && i in w.tasks
                 && (w.tasks[i].status == Pending
                     || (w.tasks[i].status == Running
                         && exists until :: w.tasks[i].lease == Some(until) && until <= now))
                 && forall at :: w.tasks[i].scheduledAt == Some(at) ==> at <= now
  {
    forall i | i in ids && i in w.tasks
      ensures Leasable(w.tasks[i], now) && Due(w.tasks[i], now) <==>
              && (w.tasks[i].status == Pending
                  || (w.tasks[i].status == Running && exists until :: w.tasks[i].lease == Some(until) && until <= now))
              && forall at :: w.tasks[i].scheduledAt == Some(at) ==> at <= now
    {
      LeasableIs(w.tasks[i], now);
    }
    hide Leasable, Due;
  }

  /** Leasing: the chosen rows run for the worker, who holds what it read; nothing else changes. */
  lemma LeaseLasts(w: World, worker: Id, ids: set<Id>, now: int, seconds: int)
    requires Enabled(w, Lease(worker, ids, now, seconds))
    ensures var w' := Apply(w, Lease(worker, ids, now, seconds));
            && w'.clock == w.clock && w'.tasks.Keys == w.tasks.Keys
            && (forall i :: i in w.tasks ==>
                  if i in ids then IsLeasedTo(w.tasks[i], w'.tasks[i], worker, now, seconds)
                  else w'.tasks[i] == w.tasks[i])
            && forall h :: h in w'.handles <==>
                 || h in w.handles
                 || (h.task in ids && h.task in w'.tasks && h.worker == worker && h.since == now
                     && w'.tasks[h.task].lease == Some(h.until) && h.attempt == w.tasks[h.task].attempt)
  {
    forall i | i in ids
      ensures IsLeasedTo(w.tasks[i], Leased(w.tasks[i], worker, now, LeaseUntil(now, seconds)), worker, now, seconds)
    {
      LeasedIs(w.tasks[i], worker, now, seconds);
    }
    hide LeaseUntil, IsLeasedTo;
  }

  /** While a row runs under a lease, nobody leases it before a minute is over, nor before the lease is. */
  lemma LeaseShutsOut(w: World, worker: Id, ids: set<Id>, now: int, seconds: int, i: Id, later: World, m: Move)
    requires Enabled(w, Lease(worker, ids, now, seconds)) && i in ids
    requires i in later.tasks && later.tasks[i] == Apply(w, Lease(worker, ids, now, seconds)).tasks[i]
    requires m.Lease? && i in m.ids && Enabled(later, m)
    ensures m.now >= now + 60 && m.now >= now + seconds
  {
    LeaseLasts(w, worker, ids, now, seconds);
    LeaseEnabledIs(later, m.worker, m.ids, m.now, m.seconds);
    hide Enabled, Apply;
  }

  /** Whoever holds a leased copy can report on it, once. */
  lemma ReportEnabledIs(w: World, h: Handle, found: Found)
    ensures Enabled(w, Complete(h, found)) <==> h in w.handles
    ensures Enabled(w, Fail(h)) <==> h in w.handles
    ensures h !in Apply(w, Complete(h, found)).handles && h !in Apply(w, Fail(h)).handles
  {
  }

  /** A completion: the row of that task and nothing else. */
  lemma CompletionIs(w: World, h: Handle, found: Found)
    requires h.task in w.tasks
    ensures var w' := Apply(w, Complete(h, found));
            && IsCompleted(w.tasks[h.task], w'.tasks[h.task], h.since, found)
            && OthersStay(w, w', h)
  {
    CompletedIs(w.tasks[h.task], h.since, found);
    hide Completed, IsCompleted;
  }

  /** A failure: likewise, counting on from what was read. */
  lemma FailureIs(w: World, h: Handle)
    requires h.task in w.tasks
    ensures var w' := Apply(w, Fail(h));
            && IsFailed(w.tasks[h.task], w'.tasks[h.task], h.attempt, h.since)
            && OthersStay(w, w', h)
  {
    FailedIs(w.tasks[h.task], h.attempt, h.since);
    hide FailedOnce, IsFailed;
  }

  ghost predicate OthersStay(w: World, w': World, h: Handle) {
    && w'.clock == w.clock && w'.tasks.Keys == w.tasks.Keys && w'.handles == w.handles - {h}
    && forall i :: i in w.tasks && i != h.task ==> w'.tasks[i] == w.tasks[i]
  }

  /** A source gets a fresh task, unless an incremental one of it is pending or running. */
  lemma ScheduleIs(w: World, source: Id, id: Id, now: int, maxAttempts: nat)
    requires id !in w.tasks
    ensures Enabled(w, Schedule(source, id, now, maxAttempts)) <==> now <= w.clock
    ensures var w' := Apply(w, Schedule(source, id, now, maxAttempts));
            if exists i :: i in w.tasks && w.tasks[i].source == source && w.tasks[i].incremental
                           && w.tasks[i].status in {Pending, Running}
            then w' == w
            else
              && w'.clock == w.clock && w'.handles == w.handles
              && w'.tasks
                 == w.tasks[id := Task(source, true, Pending, Some(now), 0, maxAttempts, None, None, None, None, None)]
  {
    if i :| i in w.tasks && w.tasks[i].source == source && w.tasks[i].incremental
            && w.tasks[i].status in {Pending, Running} {
      assert Live(w.tasks[i]);
    }
  }
}
