/**
 The shared task table as a protocol: any number of schedulers and workers, leases that run
 out, retries, dead letters. Leasing, and a scheduler's check and insert, are atomic steps; a
 worker that crashes just makes no further move. Completion and failure write what the worker
 knows from leasing and do not look at the row again: neither at who holds the lease, nor at
 the attempts made since. `Allowed` and `Current` are the looks that they leave out: safety
 holds for a run exactly as long as every report would have passed the first, and attempts
 count failures exactly as long as every failure would have passed the second.
 */
module TaskProtocol {
  import opened Catalogue
  import opened TaskRules

  // A worker's own copy of a task that it leased at `since` and has not yet reported on.
  datatype Handle = Handle(worker: Id, task: Id, since: int, until: int, attempt: nat)

  datatype World = World(clock: int, tasks: map<Id, Task>, handles: set<Handle>)

  datatype Move =
    | Tick(to: int)
    | Schedule(source: Id, id: Id, now: int, maxAttempts: nat)
    | Create(id: Id, task: Task)
    | Lease(worker: Id, ids: set<Id>, now: int, seconds: int)
    | Complete(handle: Handle, found: Found)
    | Fail(handle: Handle)

  predicate HasLive(w: World, source: Id) {
    exists i :: i in w.tasks && w.tasks[i].source == source && w.tasks[i].incremental && Live(w.tasks[i])
  }

  /** What a move does, whoever makes it. */
  function Apply(w: World, m: Move): World {
    match m
    case Tick(to) => w.(clock := to)
    case Schedule(source, id, now, maxAttempts) =>
      if HasLive(w, source) then w
      else w.(tasks := w.tasks[id := NewTask(source, true, Some(now), maxAttempts)])
    case Create(id, task) => w.(tasks := w.tasks[id := task])
    case Lease(worker, ids, now, seconds) =>
      var until := LeaseUntil(now, seconds);
      w.(tasks := map i | i in w.tasks :: if i in ids then Leased(w.tasks[i], worker, now, until) else w.tasks[i],
         handles := w.handles
                    + set i | i in ids && i in w.tasks :: Handle(worker, i, now, until, w.tasks[i].attempt))
    case Complete(h, found) =>
      w.(tasks := if h.task in w.tasks then w.tasks[h.task := Completed(w.tasks[h.task], h.since, found)] else w.tasks,
         handles := w.handles - {h})
    case Fail(h) =>
      w.(tasks := if h.task in w.tasks then w.tasks[h.task := FailedOnce(w.tasks[h.task], h.attempt, h.since)]
                  else w.tasks,
         handles := w.handles - {h})
  }

  /** When the code can make a move. */
  predicate Enabled(w: World, m: Move) {
    match m
    case Tick(to) => w.clock <= to
    case Schedule(_, id, now, _) => id !in w.tasks && now <= w.clock
    case Create(id, task) =>
      id !in w.tasks && task == NewTask(task.source, false, task.scheduledAt, task.maxAttempts)
    case Lease(_, ids, now, _) =>
      now <= w.clock && forall i :: i in ids ==> i in w.tasks && Leasable(w.tasks[i], now) && Due(w.tasks[i], now)
    case Complete(h, _) => h in w.handles
    case Fail(h) => h in w.handles
  }

  predicate Unexpired(w: World, h: Handle) {
    h in w.handles && w.clock < h.until
  }

  /** The row is running under just this lease. */
  predicate Holds(t: Task, h: Handle) {
    && t.status == Running && t.worker == Some(h.worker) && t.startedAt == Some(h.since) && t.lease == Some(h.until)
    && t.attempt == h.attempt
  }

  /** The row is pending or running, and not under somebody else's lease. */
  predicate MayReport(w: World, h: Handle) {
    && h.task in w.tasks
    && var t := w.tasks[h.task];
       Live(t) && (t.lease.Some? && w.clock < t.lease.value ==> Holds(t, h))
  }

  /** The row says already what the report would write. */
  predicate Repeats(t: Task, m: Move) {
    match m
    case Complete(h, found) => t.status == Done && t.finishedAt == Some(h.since) && t.found == Some(found)
    case Fail(h) => t.status == Failed && t.finishedAt == Some(h.since) && t.attempt == h.attempt + 1
    case _ => true
  }

  /** The check of the lease that a report leaves out. */
  predicate Allowed(w: World, m: Move) {
    match m
    case Complete(h, _) => MayReport(w, h) || (h.task in w.tasks && Repeats(w.tasks[h.task], m))
    case Fail(h) => MayReport(w, h) || (h.task in w.tasks && Repeats(w.tasks[h.task], m))
    case _ => true
  }

  /** The check of the attempts that a failure leaves out: none has been counted since the lease. */
  predicate Current(w: World, m: Move) {
    m.Fail? ==> m.handle.task in w.tasks && w.tasks[m.handle.task].attempt <= m.handle.attempt
  }

  predicate Init(w: World) {
    w.tasks == map[] && w.handles == {}
  }

  predicate Moved(w: World, m: Move, w': World) {
    Enabled(w, m) && w' == Apply(w, m)
  }

  /** A run and the moves between its states. */
  ghost predicate IsRun(run: seq<World>, moves: seq<Move>) {
    |run| == |moves| + 1 && Init(run[0]) && forall k :: 0 <= k < |moves| ==> Moved(run[k], moves[k], run[k + 1])
  }

  lemma MoveAt(run: seq<World>, moves: seq<Move>, k: nat)
    requires IsRun(run, moves) && k < |moves|
    ensures Enabled(run[k], moves[k]) && run[k + 1] == Apply(run[k], moves[k])
  {
    assert Moved(run[k], moves[k], run[k + 1]);
  }

  ghost predicate AllAllowed(run: seq<World>, moves: seq<Move>)
    requires |run| == |moves| + 1
  {
    forall k :: 0 <= k < |moves| ==> Allowed(run[k], moves[k])
  }

  lemma AllowedAt(run: seq<World>, moves: seq<Move>, k: nat)
    requires IsRun(run, moves) && AllAllowed(run, moves) && k + 1 < |run|
    ensures |run| == |moves| + 1
    ensures Enabled(run[k], moves[k]) && Allowed(run[k], moves[k]) && run[k + 1] == Apply(run[k], moves[k])
  {
    MoveAt(run, moves, k);
  }

  // ---------------------------------------------------------------- invariants

  /** A handle's task is running, leased to that worker until then. */
  ghost predicate HandleHolds(w: World, h: Handle) {
    h.task in w.tasks && Holds(w.tasks[h.task], h)
  }

  ghost predicate TaskOk(t: Task) {
    && (t.status == Running <==> t.lease.Some?)
    && t.attempt <= MaxAttempts(t)
    && (t.status == Failed <==> t.attempt == MaxAttempts(t))
  }

  /** The worker that a running task is leased to still has its handle. */
  ghost predicate HasHolder(w: World, i: Id)
    requires i in w.tasks
  {
    var t := w.tasks[i];
    t.status == Running ==>
      && t.worker.Some? && t.startedAt.Some? && t.lease.Some?
      && Handle(t.worker.value, i, t.startedAt.value, t.lease.value, t.attempt) in w.handles
  }

  /** A leased task exists, and was leased with an attempt left. */
  ghost predicate Known(w: World, h: Handle) {
    h.task in w.tasks && h.attempt < MaxAttempts(w.tasks[h.task])
  }

  ghost predicate SameSlot(w: World, i: Id, j: Id) {
    && i in w.tasks && j in w.tasks && w.tasks[i].incremental && w.tasks[j].incremental
    && Live(w.tasks[i]) && Live(w.tasks[j]) && w.tasks[i].source == w.tasks[j].source
  }

  ghost predicate Inv(w: World) {
    && (forall h :: h in w.handles ==> Known(w, h))
    && (forall h :: Unexpired(w, h) ==> HandleHolds(w, h))
    && (forall i :: i in w.tasks ==> TaskOk(w.tasks[i]) && HasHolder(w, i))
    && (forall i, j :: SameSlot(w, i, j) ==> i == j)
  }

  /** Finished tasks stay as they are, and whoever holds an unexpired lease really holds the task. */
  ghost predicate Respects(w: World, w': World) {
    && (forall i :: i in w.tasks && !Live(w.tasks[i]) ==> i in w'.tasks && w'.tasks[i] == w.tasks[i])
    && (forall h :: Unexpired(w', h) ==> HandleHolds(w', h))
  }

  // -------------------------------------------------------------------- safety

  /**
   Safety, at every moment of every run whose reports pass the check: at most one worker
   holds an unexpired lease on a task, and that task is running under exactly that lease; a
   source has at most one pending or running incremental task; done and failed are final.
   */
  lemma ProtocolIsSafe(run: seq<World>, moves: seq<Move>, i: nat)
    requires IsRun(run, moves) && AllAllowed(run, moves) && i < |run|
    ensures forall g, h :: Unexpired(run[i], g) && Unexpired(run[i], h) && g.task == h.task ==> g == h
    ensures forall h :: Unexpired(run[i], h) ==> HandleHolds(run[i], h)
    ensures forall s, t :: SameSlot(run[i], s, t) ==> s == t
    ensures forall j, t :: i <= j < |run| && t in run[i].tasks && !Live(run[i].tasks[t]) ==>
                             t in run[j].tasks && run[j].tasks[t] == run[i].tasks[t]
  {
    RunsKeepInv(run, moves, i);
    forall g, h | Unexpired(run[i], g) && Unexpired(run[i], h) && g.task == h.task
      ensures g == h
    {
      OneHolder(run[i], g, h);
    }
    forall j, t | i <= j < |run| && t in run[i].tasks && !Live(run[i].tasks[t])
      ensures t in run[j].tasks && run[j].tasks[t] == run[i].tasks[t]
    {
      FinishedStays(run, moves, i, j, t);
    }
  }

  /**
   The check is exact: among all runs of the code, those whose every step respects finished
   tasks and unexpired leases are the ones whose every report passes it.
   */
  lemma SafeExactly(run: seq<World>, moves: seq<Move>)
    requires IsRun(run, moves)
    ensures (forall k :: 0 <= k < |moves| ==> Respects(run[k], run[k + 1])) <==> AllAllowed(run, moves)
  {
    hide Inv, Respects, Apply, Enabled, Allowed, Init, Moved;
    if forall k :: 0 <= k < |moves| ==> Respects(run[k], run[k + 1]) {
      RespectfulIsAllowed(run, moves, |moves|);
    }
    if AllAllowed(run, moves) {
      forall k | 0 <= k < |moves|
        ensures Respects(run[k], run[k + 1])
      {
        MoveAt(run, moves, k);
        RunsKeepInv(run, moves, k);
        MoveRespectsExactly(run[k], moves[k]);
      }
    }
  }

  /** One move: it respects the others' work exactly when it passes the check. */
  lemma MoveRespectsExactly(w: World, m: Move)
    requires Inv(w) && Enabled(w, m)
    ensures Respects(w, Apply(w, m)) <==> Allowed(w, m)
  {
    if Allowed(w, m) {
      forall i | i in w.tasks && !Live(w.tasks[i])
        ensures i in Apply(w, m).tasks && Apply(w, m).tasks[i] == w.tasks[i]
      {
        MoveKeepsFinished(w, m, i);
      }
      forall h | Unexpired(Apply(w, m), h)
        ensures HandleHolds(Apply(w, m), h)
      {
        MoveKeepsHandles(w, m, h);
      }
    } else {
      ForbiddenDisturbs(w, m);
    }
  }

  lemma {:induction false} RespectfulIsAllowed(run: seq<World>, moves: seq<Move>, n: nat)
    requires IsRun(run, moves) && n <= |moves|
    requires forall k :: 0 <= k < |moves| ==> Respects(run[k], run[k + 1])
    ensures Inv(run[n]) && forall k :: 0 <= k < n ==> Allowed(run[k], moves[k])
  {
    if n == 0 {
      InitIsSafe(run[0]);
    } else {
      hide Inv, Respects, Apply, Enabled, Allowed, Init, Moved;
      RespectfulIsAllowed(run, moves, n - 1);
      MoveAt(run, moves, n - 1);
      assert Respects(run[n - 1], run[n - 1 + 1]);
      MoveRespectsExactly(run[n - 1], moves[n - 1]);
      MoveKeepsInv(run[n - 1], moves[n - 1]);
    }
  }

  lemma {:induction false} RunsKeepInv(run: seq<World>, moves: seq<Move>, i: nat)
    requires IsRun(run, moves) && AllAllowed(run, moves) && i < |run|
    ensures Inv(run[i])
  {
    if i == 0 {
      InitIsSafe(run[0]);
    } else {
      hide *;
      AllowedAt(run, moves, i - 1);
      RunsKeepInv(run, moves, i - 1);
      MoveKeepsInv(run[i - 1], moves[i - 1]);
    }
  }

  lemma {:induction false} FinishedStays(run: seq<World>, moves: seq<Move>, i: nat, j: nat, t: Id)
    requires IsRun(run, moves) && AllAllowed(run, moves)
    requires i <= j < |run| && t in run[i].tasks && !Live(run[i].tasks[t])
    ensures t in run[j].tasks && run[j].tasks[t] == run[i].tasks[t]
    decreases j
  {
    if i < j {
      hide *;
      FinishedStays(run, moves, i, j - 1, t);
      FinishedStep(run, moves, j - 1, t);
    }
  }

  lemma FinishedStep(run: seq<World>, moves: seq<Move>, k: nat, t: Id)
    requires IsRun(run, moves) && AllAllowed(run, moves) && k + 1 < |run|
    requires t in run[k].tasks && !Live(run[k].tasks[t])
    ensures t in run[k + 1].tasks && run[k + 1].tasks[t] == run[k].tasks[t]
  {
    hide *;
    AllowedAt(run, moves, k);
    RunsKeepInv(run, moves, k);
    MoveKeepsFinished(run[k], moves[k], t);
  }

  /** A report made while its lease lasts always passes both checks. */
  lemma InTimeIsAllowed(w: World, h: Handle)
    requires Inv(w) && Unexpired(w, h)
    ensures MayReport(w, h) && w.tasks[h.task].attempt == h.attempt
  {
    assert HandleHolds(w, h);
  }

  ghost predicate InTime(w: World, m: Move) {
    match m
    case Complete(h, _) => w.clock < h.until
    case Fail(h) => w.clock < h.until
    case _ => true
  }

  /** So runs in which no worker reports late are safe, and count right. */
  lemma {:induction false} PunctualRunsAreAllowed(run: seq<World>, moves: seq<Move>, n: nat)
    requires IsRun(run, moves) && n <= |moves| && forall k :: 0 <= k < |moves| ==> InTime(run[k], moves[k])
    ensures Inv(run[n]) && forall k :: 0 <= k < n ==> Allowed(run[k], moves[k]) && Current(run[k], moves[k])
  {
    if n == 0 {
      InitIsSafe(run[0]);
    } else {
      MoveAt(run, moves, n - 1);
      PunctualRunsAreAllowed(run, moves, n - 1);
      PunctualIsAllowed(run[n - 1], moves[n - 1]);
      hide Inv, Apply, Enabled, Allowed, Init, Moved;
      MoveKeepsInv(run[n - 1], moves[n - 1]);
    }
  }

  lemma PunctualIsAllowed(w: World, m: Move)
    requires Inv(w) && Enabled(w, m) && InTime(w, m)
    ensures Allowed(w, m) && Current(w, m)
  {
    match m {
      case Complete(h, _) => InTimeIsAllowed(w, h);
      case Fail(h) => InTimeIsAllowed(w, h);
      case _ =>
    }
  }

  // ------------------------------------------------------------------- retries

  ghost predicate AllCurrent(run: seq<World>, moves: seq<Move>)
    requires |run| == |moves| + 1
  {
    forall k :: 0 <= k < |moves| ==> Current(run[k], moves[k])
  }

  predicate FailsTask(m: Move, t: Id) {
    m.Fail? && m.handle.task == t
  }

  /** How many failures of task `t` have been reported. */
  function Failures(moves: seq<Move>, t: Id): nat {
    if moves == [] then 0
    else Failures(moves[..|moves| - 1], t) + if FailsTask(moves[|moves| - 1], t) then 1 else 0
  }

  ghost predicate SentBack(m: Move, w': World, t: Id) {
    FailsTask(m, t) && t in w'.tasks && w'.tasks[t].status == Pending
  }

  /** How often a failure has sent task `t` back to pending. */
  ghost function Retries(run: seq<World>, moves: seq<Move>, t: Id): nat
    requires |run| == |moves| + 1
  {
    if moves == [] then 0
    else
      var n := |moves| - 1;
      Retries(run[..n + 1], moves[..n], t) + if SentBack(moves[n], run[n + 1], t) then 1 else 0
  }

  /** Every row's attempt is the number of failures reported so far. */
  ghost predicate CountsFailures(w: World, moves: seq<Move>) {
    forall t :: t in w.tasks ==> w.tasks[t].attempt == Failures(moves, t)
  }

  /**
   In every run of the code: at every moment the attempts on the rows are the failures
   reported so far, iff every failure passed the second check.
   */
  lemma AttemptsCountExactly(run: seq<World>, moves: seq<Move>)
    requires IsRun(run, moves)
    ensures (forall k :: 0 <= k <= |moves| ==> CountsFailures(run[k], moves[..k])) <==> AllCurrent(run, moves)
  {
    hide CountsFailures, Current, Init, Moved, Apply, Enabled, Rows;
    if forall k :: 0 <= k <= |moves| ==> CountsFailures(run[k], moves[..k]) {
      forall k | 0 <= k < |moves|
        ensures Current(run[k], moves[k])
      {
        MoveAt(run, moves, k);
        RowsInRange(run, moves, k);
        assert CountsFailures(run[k], moves[..k]) && CountsFailures(run[k + 1], moves[..k + 1]);
        CountingIsCurrent(run[k], moves[k], moves[..k], moves[..k + 1]);
      }
    }
    if AllCurrent(run, moves) {
      forall k | 0 <= k <= |moves|
        ensures CountsFailures(run[k], moves[..k])
      {
        CurrentCounts(run, moves, k);
      }
    }
  }

  /**
   In every run whose failures pass the second check, whether or not reports come late: a task
   goes back to pending by failure at most one time less than it may be attempted, and is
   dead-lettered by exactly that many failures.
   */
  lemma RetriesBounded(run: seq<World>, moves: seq<Move>, t: Id)
    requires IsRun(run, moves) && AllCurrent(run, moves) && t in run[|moves|].tasks
    ensures var task := run[|moves|].tasks[t];
            && Retries(run, moves, t) <= MaxAttempts(task) - 1
            && Failures(moves, t) <= MaxAttempts(task)
            && (task.status == Failed ==> Failures(moves, t) == MaxAttempts(task))
  {
    hide Current, Init, Moved, Retries, Failures;
    CurrentCounts(run, moves, |moves|);
    assert moves[..|moves|] == moves;
    RowsInRange(run, moves, |moves|);
    RetriesCounted(run, moves, |moves|, t);
    assert run[..|moves| + 1] == run;
  }

  /** What holds of the attempts in every run, whatever the reports: of leased copies and of rows. */
  ghost predicate Rows(w: World) {
    && (forall h :: h in w.handles ==> Known(w, h))
    && (forall i :: i in w.tasks ==> InRange(w.tasks[i]))
  }

  predicate InRange(t: Task) {
    && t.attempt <= MaxAttempts(t) && (Live(t) ==> t.attempt < MaxAttempts(t))
    && (t.status == Failed ==> t.attempt == MaxAttempts(t))
  }

  lemma {:induction false} RowsInRange(run: seq<World>, moves: seq<Move>, n: nat)
    requires IsRun(run, moves) && n <= |moves|
    ensures Rows(run[n])
  {
    if n == 0 {
    } else {
      hide *;
      MoveAt(run, moves, n - 1);
      RowsInRange(run, moves, n - 1);
      MoveKeepsRows(run[n - 1], moves[n - 1]);
    }
  }

  lemma MoveKeepsRows(w: World, m: Move)
    requires Rows(w) && Enabled(w, m)
    ensures Rows(Apply(w, m))
  {
    hide Rows, Apply, Enabled;
    forall i | i in Apply(w, m).tasks
      ensures InRange(Apply(w, m).tasks[i])
    {
      MoveKeepsInRange(w, m, i);
    }
    forall h | h in Apply(w, m).handles
      ensures Known(Apply(w, m), h)
    {
      MoveKeepsLeased(w, m, h);
    }
    RowsFromParts(Apply(w, m));
  }

  lemma RowsFromParts(w: World)
    requires forall h :: h in w.handles ==> Known(w, h)
    requires forall i :: i in w.tasks ==> InRange(w.tasks[i])
    ensures Rows(w)
  {
  }

  lemma MoveKeepsInRange(w: World, m: Move, i: Id)
    requires Rows(w) && Enabled(w, m) && i in Apply(w, m).tasks
    ensures InRange(Apply(w, m).tasks[i])
  {
    if m.Fail? {
      assert Known(w, m.handle);
    }
  }

  lemma MoveKeepsLeased(w: World, m: Move, h: Handle)
    requires Rows(w) && Enabled(w, m) && h in Apply(w, m).handles
    ensures Known(Apply(w, m), h)
  {
    if h in w.handles {
      assert Known(w, h);
    } else {
      assert InRange(w.tasks[h.task]);
    }
  }

  lemma CountingIsCurrent(w: World, m: Move, before: seq<Move>, after: seq<Move>)
    requires Rows(w) && Enabled(w, m) && after == before + [m]
    requires CountsFailures(w, before) && CountsFailures(Apply(w, m), after)
    ensures Current(w, m)
  {
    if m.Fail? {
      assert Known(w, m.handle);
      assert after[..|after| - 1] == before;
      assert Failures(after, m.handle.task) == Failures(before, m.handle.task) + 1;
    }
  }

  /** Nobody has read a higher attempt than the row has, and tasks that do not exist have not failed. */
  ghost predicate ReadsAreOld(w: World, moves: seq<Move>) {
    && (forall h :: h in w.handles && h.task in w.tasks ==> h.attempt <= w.tasks[h.task].attempt)
    && (forall t :: t !in w.tasks ==> Failures(moves, t) == 0)
  }

  lemma {:induction false} CurrentCounts(run: seq<World>, moves: seq<Move>, n: nat)
    requires IsRun(run, moves) && AllCurrent(run, moves) && n <= |moves|
    ensures CountsFailures(run[n], moves[..n]) && ReadsAreOld(run[n], moves[..n])
  {
    if n == 0 {
      assert moves[..0] == [];
    } else {
      hide *;
      MoveAt(run, moves, n - 1);
      CurrentAt(run, moves, n - 1);
      RowsInRange(run, moves, n - 1);
      CurrentCounts(run, moves, n - 1);
      assert moves[..n] == moves[..n - 1] + [moves[n - 1]];
      MoveKeepsCount(run[n - 1], moves[n - 1], moves[..n - 1], moves[..n]);
    }
  }

  lemma CurrentAt(run: seq<World>, moves: seq<Move>, k: nat)
    requires IsRun(run, moves) && AllCurrent(run, moves) && k < |moves|
    ensures Current(run[k], moves[k])
  {
  }

  lemma MoveKeepsCount(w: World, m: Move, before: seq<Move>, after: seq<Move>)
    requires Rows(w) && Enabled(w, m) && Current(w, m) && after == before + [m]
    requires CountsFailures(w, before) && ReadsAreOld(w, before)
    ensures CountsFailures(Apply(w, m), after) && ReadsAreOld(Apply(w, m), after)
  {
    assert after[..|after| - 1] == before;
    assert forall t :: Failures(after, t) == Failures(before, t) + if FailsTask(m, t) then 1 else 0;
    hide Failures;
    if m.Fail? {
      assert Known(w, m.handle);
      assert m.handle.attempt == w.tasks[m.handle.task].attempt;
    }
  }

  /** Each way back to pending is a failure that leaves an attempt to make. */
  lemma {:induction false} RetriesCounted(run: seq<World>, moves: seq<Move>, n: nat, t: Id)
    requires IsRun(run, moves) && AllCurrent(run, moves) && n <= |moves|
    ensures t !in run[n].tasks ==> Retries(run[..n + 1], moves[..n], t) == 0
    ensures t in run[n].tasks ==>
              var r, task := Retries(run[..n + 1], moves[..n], t), run[n].tasks[t];
              r <= task.attempt && r <= MaxAttempts(task) - 1
    decreases n
  {
    if n == 0 {
    } else {
      hide Rows, Init, Moved, Current;
      MoveAt(run, moves, n - 1);
      CurrentAt(run, moves, n - 1);
      RowsInRange(run, moves, n - 1);
      RetriesCounted(run, moves, n - 1, t);
      assert run[..n + 1][..n] == run[..n] && moves[..n][..n - 1] == moves[..n - 1];
      MoveCountsAttempts(run[n - 1], moves[n - 1], t);
    }
  }

  lemma MoveCountsAttempts(w: World, m: Move, t: Id)
    requires Rows(w) && Enabled(w, m) && Current(w, m)
    ensures t in w.tasks ==> t in Apply(w, m).tasks
    ensures t in w.tasks ==>
              var x, y := w.tasks[t], Apply(w, m).tasks[t];
              && MaxAttempts(y) == MaxAttempts(x) && x.attempt <= y.attempt
              && (SentBack(m, Apply(w, m), t) ==> x.attempt < y.attempt < MaxAttempts(x))
    ensures t !in w.tasks ==> !SentBack(m, Apply(w, m), t)
  {
    if m.Fail? {
      assert Known(w, m.handle);
    }
  }

  // ------------------------------------------------------ reports out of turn

  const NOTHING := Found(0, 0, 0, 0, "")

  /**
   The code does not look at the lease: a worker whose lease ran out reports a failure after
   another one has completed the task, and the finished task is pending again.
   */
  lemma LateFailureReopens() returns (run: seq<World>, moves: seq<Move>)
    ensures IsRun(run, moves) && |moves| == 6 && !Allowed(run[5], moves[5])
    ensures "t" in run[5].tasks && run[5].tasks["t"].status == Done
    ensures "t" in run[6].tasks && run[6].tasks["t"].status == Pending
  {
    var a, b := Handle("a", "t", 0, 60, 0), Handle("b", "t", 60, 120, 0);
    var created := NewTask("s", true, Some(0), 3);
    var byA := Leased(created, "a", 0, 60);
    var byB := Leased(byA, "b", 60, 120);
    var done := Completed(byB, 60, NOTHING);
    hide Moved, Allowed, Apply, IsRun, AllAllowed, Retries;
    run, moves := Started(created);
    run, moves := Leases(run, moves, created, a, {});
    run, moves := Ticks(run, moves, 60);
    run, moves := Leases(run, moves, byA, b, {a});
    run, moves := Reports(run, moves, byB, Complete(b, NOTHING), done, {a});
    LateIsForbidden(run[5], Fail(a));
    run, moves := Reports(run, moves, done, Fail(a), FailedOnce(done, 0, 0), {});
  }

  lemma LateIsForbidden(w: World, m: Move)
    requires m.Fail? && m.handle.task in w.tasks && w.tasks[m.handle.task].status == Done
    ensures !Allowed(w, m)
  {
  }

  /**
   Nor does it look at the attempt: worker a's lease runs out, b fails, c's lease runs out, and
   then a reports a failure that counts as the first again. The task goes back to pending a
   third time, though it may be attempted three times, and every report passes the first check.
   */
  lemma OneRetryTooMany() returns (run: seq<World>, moves: seq<Move>)
    ensures IsRun(run, moves) && AllAllowed(run, moves) && !AllCurrent(run, moves)
    ensures "t" in run[|moves|].tasks && MaxAttempts(run[|moves|].tasks["t"]) == 3 && Retries(run, moves, "t") == 3
  {
    var c, d := Handle("c", "t", 180, 240, 1), Handle("d", "t", 240, 300, 1);
    var again;
    run, moves, again := FailedAsFirstAgain(c);
    hide Moved, Allowed, Apply, IsRun, AllAllowed, Retries, AllCurrent, Current, Delay;
    run, moves := Leases(run, moves, again, d, {c});
    var byD := Leased(again, "d", 240, 300);
    run, moves := Reports(run, moves, byD, Fail(d), FailedOnce(byD, 1, 240), {c});
    NotAllCurrent(run, moves, 8);
  }

  /** After the first failure a third lease lapses, and then the first worker reports. */
  lemma FailedAsFirstAgain(c: Handle) returns (run: seq<World>, moves: seq<Move>, again: Task)
    requires c == Handle("c", "t", 180, 240, 1)
    ensures IsRun(run, moves) && |moves| == 9 && AllAllowed(run, moves) && Retries(run, moves, "t") == 2
    ensures !Current(run[8], moves[8]) && run[9] == World(240, map["t" := again], {c})
    ensures again.status == Pending && again.attempt == 1 && again.scheduledAt == Some(120) && again.maxAttempts == 3
  {
    var a := Handle("a", "t", 0, 60, 0);
    var once;
    run, moves, once := FailedAfterLapse(a);
    assert Delay(1) == 120;
    hide Moved, Allowed, Apply, IsRun, AllAllowed, Retries, Current, Delay;
    run, moves := Ticks(run, moves, 180);
    run, moves := Leases(run, moves, once, c, {a});
    var byC := Leased(once, "c", 180, 240);
    run, moves := Ticks(run, moves, 240);
    StaleIsNotCurrent(run[8], Fail(a));
    again := FailedOnce(byC, 0, 0);
    run, moves := Reports(run, moves, byC, Fail(a), again, {c});
  }

  /** Two leases, the first one lapsed, the second one ended by a failure. */
  lemma FailedAfterLapse(a: Handle) returns (run: seq<World>, moves: seq<Move>, once: Task)
    requires a == Handle("a", "t", 0, 60, 0)
    ensures IsRun(run, moves) && |moves| == 5 && AllAllowed(run, moves) && Retries(run, moves, "t") == 1
    ensures run[5] == World(60, map["t" := once], {a})
    ensures once.status == Pending && once.attempt == 1 && once.scheduledAt == Some(180) && once.maxAttempts == 3
  {
    var b := Handle("b", "t", 60, 120, 0);
    assert Delay(1) == 120;
    var created := NewTask("s", true, Some(0), 3);
    var byA := Leased(created, "a", 0, 60);
    var byB := Leased(byA, "b", 60, 120);
    once := FailedOnce(byB, 0, 60);
    hide Moved, Allowed, Apply, IsRun, AllAllowed, Retries, Delay;
    run, moves := Started(created);
    run, moves := Leases(run, moves, created, a, {});
    run, moves := Ticks(run, moves, 60);
    run, moves := Leases(run, moves, byA, b, {a});
    run, moves := Reports(run, moves, byB, Fail(b), once, {a});
  }

  lemma StaleIsNotCurrent(w: World, m: Move)
    requires m.Fail? && m.handle.task in w.tasks && m.handle.attempt < w.tasks[m.handle.task].attempt
    ensures !Current(w, m)
  {
  }

  lemma NotAllCurrent(run: seq<World>, moves: seq<Move>, k: nat)
    requires |run| == |moves| + 1 && k < |moves| && !Current(run[k], moves[k])
    ensures !AllCurrent(run, moves)
  {
  }

  /** A run with one task, and what has been added to it by one more move. */
  lemma Extended(run: seq<World>, moves: seq<Move>, m: Move, w: World) returns (run': seq<World>, moves': seq<Move>)
    requires IsRun(run, moves) && Moved(run[|moves|], m, w)
    ensures run' == run + [w] && moves' == moves + [m] && IsRun(run', moves')
    ensures AllAllowed(run, moves) && Allowed(run[|moves|], m) ==> AllAllowed(run', moves')
    ensures Retries(run', moves', "t") == Retries(run, moves, "t") + if SentBack(m, w, "t") then 1 else 0
  {
    run', moves' := run + [w], moves + [m];
    hide Moved, Allowed;
    assert run'[..|moves| + 1] == run && moves'[..|moves|] == moves;
  }

  lemma Started(t: Task) returns (run: seq<World>, moves: seq<Move>)
    requires t == NewTask("s", true, Some(0), 3)
    ensures IsRun(run, moves) && AllAllowed(run, moves) && Retries(run, moves, "t") == 0
    ensures |moves| == 1 && run[1] == World(0, map["t" := t], {})
  {
    var w := World(0, map[], {});
    assert !HasLive(w, "s");
    assert Moved(w, Schedule("s", "t", 0, 3), World(0, map["t" := t], {}));
    assert IsRun([w], []) && AllAllowed([w], []);
    hide Moved;
    run, moves := Extended([w], [], Schedule("s", "t", 0, 3), World(0, map["t" := t], {}));
  }

  lemma Ticks(run: seq<World>, moves: seq<Move>, to: int) returns (run': seq<World>, moves': seq<Move>)
    requires IsRun(run, moves) && run[|moves|].clock <= to
    ensures run' == run + [run[|moves|].(clock := to)] && moves' == moves + [Tick(to)] && IsRun(run', moves')
    ensures AllAllowed(run, moves) ==> AllAllowed(run', moves')
    ensures Retries(run', moves', "t") == Retries(run, moves, "t")
  {
    var w := run[|moves|].(clock := to);
    hide IsRun, AllAllowed, Retries;
    run', moves' := Extended(run, moves, Tick(to), w);
  }

  /** The one task is leased, for a minute. */
  lemma Leases(run: seq<World>, moves: seq<Move>, t: Task, h: Handle, others: set<Handle>)
    returns (run': seq<World>, moves': seq<Move>)
    requires IsRun(run, moves) && run[|moves|] == World(h.since, map["t" := t], others)
    requires Leasable(t, h.since) && Due(t, h.since) && h == Handle(h.worker, "t", h.since, h.since + 60, t.attempt)
    ensures moves' == moves + [Lease(h.worker, {"t"}, h.since, 60)] && IsRun(run', moves')
    ensures run' == run + [World(h.since, map["t" := Leased(t, h.worker, h.since, h.until)], others + {h})]
    ensures AllAllowed(run, moves) ==> AllAllowed(run', moves')
    ensures Retries(run', moves', "t") == Retries(run, moves, "t")
  {
    var w := run[|moves|];
    var m, w' := Lease(h.worker, {"t"}, h.since, 60),
                 World(h.since, map["t" := Leased(t, h.worker, h.since, h.until)], others + {h});
    LeaseMoves(w, t, h, w');
    hide *;
    run', moves' := Extended(run, moves, m, w');
  }

  lemma LeaseMoves(w: World, t: Task, h: Handle, w': World)
    requires w.tasks == map["t" := t] && w.clock == h.since
    requires Leasable(t, h.since) && Due(t, h.since) && h == Handle(h.worker, "t", h.since, h.since + 60, t.attempt)
    requires w' == World(h.since, map["t" := Leased(t, h.worker, h.since, h.until)], w.handles + {h})
    ensures var m := Lease(h.worker, {"t"}, h.since, 60); Moved(w, m, w') && Allowed(w, m) && !SentBack(m, w', "t")
  {
    var m := Lease(h.worker, {"t"}, h.since, 60);
    var added := set i | i in {"t"} && i in w.tasks :: Handle(h.worker, i, h.since, h.until, w.tasks[i].attempt);
    assert "t" in {"t"} && "t" in w.tasks;
    assert h in added;
    assert added == {h};
    assert "t" in Apply(w, m).tasks;
    assert Apply(w, m).tasks["t"] == Leased(t, h.worker, h.since, h.until);
    assert Apply(w, m).tasks.Keys == w'.tasks.Keys;
    assert Apply(w, m).tasks == w'.tasks;
  }

  /** A report on the one task, which `others` have leased as well. */
  lemma Reports(run: seq<World>, moves: seq<Move>, t: Task, m: Move, t': Task, others: set<Handle>)
    returns (run': seq<World>, moves': seq<Move>)
    requires IsRun(run, moves) && (m.Complete? || m.Fail?) && m.handle.task == "t" && m.handle !in others
    requires run[|moves|] == World(run[|moves|].clock, map["t" := t], others + {m.handle})
    requires t' == if m.Complete? then Completed(t, m.handle.since, m.found)
                   else FailedOnce(t, m.handle.attempt, m.handle.since)
    ensures run' == run + [World(run[|moves|].clock, map["t" := t'], others)] && moves' == moves + [m]
    ensures IsRun(run', moves')
    ensures AllAllowed(run, moves) && t.lease.Some? && Live(t)
            && (run[|moves|].clock < t.lease.value ==> Holds(t, m.handle))
            ==> AllAllowed(run', moves')
    ensures Retries(run', moves', "t")
         == Retries(run, moves, "t") + if m.Fail? && t'.status == Pending then 1 else 0
  {
    var w := run[|moves|];
    ReportMoves(w, m, t, t', others);
    hide *;
    run', moves' := Extended(run, moves, m, World(w.clock, map["t" := t'], others));
  }

  lemma ReportMoves(w: World, m: Move, t: Task, t': Task, others: set<Handle>)
    requires (m.Complete? || m.Fail?) && m.handle.task == "t" && m.handle !in others
    requires w == World(w.clock, map["t" := t], others + {m.handle})
    requires t' == if m.Complete? then Completed(t, m.handle.since, m.found)
                   else FailedOnce(t, m.handle.attempt, m.handle.since)
    ensures Moved(w, m, World(w.clock, map["t" := t'], others))
    ensures t.lease.Some? && Live(t) && (w.clock < t.lease.value ==> Holds(t, m.handle)) ==> Allowed(w, m)
    ensures SentBack(m, World(w.clock, map["t" := t'], others), "t") <==> m.Fail? && t'.status == Pending
  {
    assert others + {m.handle} - {m.handle} == others;
    assert Apply(w, m).tasks == map["t" := t'];
  }

  // ----------------------------------------------------- the moves, one by one

  lemma InitIsSafe(w: World)
    requires Init(w)
    ensures Inv(w)
  {
  }

  lemma MoveKeepsInv(w: World, m: Move)
    requires Inv(w) && Enabled(w, m) && Allowed(w, m)
    ensures Inv(Apply(w, m))
  {
    hide Inv, Apply, Allowed;
    var w' := Apply(w, m);
    forall h | h in w'.handles
      ensures Known(w', h)
    {
      MoveKeepsKnown(w, m, h);
    }
    forall h | Unexpired(w', h)
      ensures HandleHolds(w', h)
    {
      MoveKeepsHandles(w, m, h);
    }
    forall i | i in w'.tasks
      ensures TaskOk(w'.tasks[i]) && HasHolder(w', i)
    {
      MoveKeepsTasks(w, m, i);
    }
    forall i, j | SameSlot(w', i, j)
      ensures i == j
    {
      MoveKeepsSlots(w, m, i, j);
    }
    InvFromParts(w');
  }

  lemma InvFromParts(w: World)
    requires forall h :: h in w.handles ==> Known(w, h)
    requires forall h :: Unexpired(w, h) ==> HandleHolds(w, h)
    requires forall i :: i in w.tasks ==> TaskOk(w.tasks[i]) && HasHolder(w, i)
    requires forall i, j :: SameSlot(w, i, j) ==> i == j
    ensures Inv(w)
  {
  }

  lemma MoveKeepsKnown(w: World, m: Move, h: Handle)
    requires Inv(w) && Enabled(w, m) && h in Apply(w, m).handles
    ensures Known(Apply(w, m), h)
  {
    if h in w.handles {
      assert Known(w, h);
    } else {
      assert TaskOk(w.tasks[h.task]);
    }
  }

  lemma MoveKeepsHandles(w: World, m: Move, h: Handle)
    requires Inv(w) && Enabled(w, m) && Allowed(w, m) && Unexpired(Apply(w, m), h)
    ensures HandleHolds(Apply(w, m), h)
  {
    if h in w.handles {
      assert Unexpired(w, h) && HandleHolds(w, h);
    }
  }

  lemma MoveKeepsSlots(w: World, m: Move, i: Id, j: Id)
    requires Inv(w) && Enabled(w, m) && Allowed(w, m) && SameSlot(Apply(w, m), i, j)
    ensures i == j
  {
    match m {
      case Schedule(source, id, _, _) =>
        if HasLive(w, source) || (i != id && j != id) {
          assert SameSlot(w, i, j);
        }
      case _ =>
        assert SameSlot(w, i, j);
    }
  }

  lemma MoveKeepsTasks(w: World, m: Move, i: Id)
    requires Inv(w) && Enabled(w, m) && Allowed(w, m) && i in Apply(w, m).tasks
    ensures TaskOk(Apply(w, m).tasks[i]) && HasHolder(Apply(w, m), i)
  {
    if i in w.tasks {
      assert TaskOk(w.tasks[i]) && HasHolder(w, i);
    }
  }

  lemma OneHolder(w: World, g: Handle, h: Handle)
    requires Inv(w) && Unexpired(w, g) && Unexpired(w, h)
    ensures g.task == h.task ==> g == h
  {
    assert HandleHolds(w, g) && HandleHolds(w, h);
  }

  /** A finished task row is never touched again. */
  lemma MoveKeepsFinished(w: World, m: Move, i: Id)
    requires Inv(w) && Enabled(w, m) && Allowed(w, m) && i in w.tasks && !Live(w.tasks[i])
    ensures i in Apply(w, m).tasks && Apply(w, m).tasks[i] == w.tasks[i]
  {
    assert TaskOk(w.tasks[i]);
  }

  /** A report that fails the check reopens or rewrites a finished task, or ends one that another worker holds. */
  lemma ForbiddenDisturbs(w: World, m: Move)
    requires Inv(w) && Enabled(w, m) && !Allowed(w, m)
    ensures !Respects(w, Apply(w, m))
  {
    var i := m.handle.task;
    var t := w.tasks[i];
    assert TaskOk(t) && HasHolder(w, i);
    if Live(t) {
      var g := Handle(t.worker.value, i, t.startedAt.value, t.lease.value, t.attempt);
      assert Unexpired(Apply(w, m), g) && !HandleHolds(Apply(w, m), g);
    } else {
      assert Apply(w, m).tasks[i] != t;
    }
  }
}
