/**
 Running one incremental task: the discovered issues are looked at newest first; archived
 ones count as duplicates, and three duplicates in a row may end the run early. Ingesting
 an issue either archives its key or fails without a trace.
 */
module IssueRun {
  import opened Catalogue

  type Key = string

  const EARLY_STOP_DUPLICATE_THRESHOLD := 3

  datatype Tally = Tally(ingested: nat, duplicate: nat, failed: nat, skipped: nat)

  // `log` lists every key in the order it was archived.
  datatype Progress = Progress(archived: set<Key>, log: seq<Key>, tally: Tally, streak: nat, stopped: bool)

  // `works` says which issues can be ingested.
  datatype Policy = Policy(works: Key -> bool, earlyStop: bool, dryRun: bool)

  function Start(archived: set<Key>): Progress {
    Progress(archived, [], Tally(0, 0, 0, 0), 0, false)
  }

  function Look(p: Policy, s: Progress, k: Key): Progress {
    if s.stopped then s
    else if k in s.archived then
      s.(tally := s.tally.(duplicate := s.tally.duplicate + 1), streak := s.streak + 1,
         stopped := p.earlyStop && s.streak + 1 >= EARLY_STOP_DUPLICATE_THRESHOLD)
    else if p.dryRun then s.(tally := s.tally.(skipped := s.tally.skipped + 1), streak := 0)
    else if !p.works(k) then s.(tally := s.tally.(failed := s.tally.failed + 1), streak := 0)
    else s.(archived := s.archived + {k}, log := s.log + [k], tally := s.tally.(ingested := s.tally.ingested + 1),
        streak := 0)
  }

  function Walk(p: Policy, s: Progress, keys: seq<Key>): Progress {
    if keys == [] then s else Look(p, Walk(p, s, keys[..|keys| - 1]), keys[|keys| - 1])
  }

  /** The loop of `_run_one_task` for an incremental task. */
  method RunTask(p: Policy, archived: set<Key>, keys: seq<Key>) returns (s: Progress, looked: nat)
    ensures s == Walk(p, Start(archived), keys)
    ensures looked <= |keys| && (!s.stopped ==> looked == |keys|)
    ensures looked == s.tally.ingested + s.tally.duplicate + s.tally.failed + s.tally.skipped
  {
    var known, log := archived, [];
    var tally := Tally(0, 0, 0, 0);
    var streak: nat := 0;
    var stopped := false;
    looked := 0;
    while looked < |keys|
      invariant 0 <= looked <= |keys| && !stopped
      invariant Progress(known, log, tally, streak, stopped) == Walk(p, Start(archived), keys[..looked])
      invariant looked == tally.ingested + tally.duplicate + tally.failed + tally.skipped
    {
      var k := keys[looked];
      assert keys[..looked + 1][..looked] == keys[..looked];
      looked := looked + 1;
      if k in known {
        tally := tally.(duplicate := tally.duplicate + 1);
        streak := streak + 1;
        if p.earlyStop && streak >= EARLY_STOP_DUPLICATE_THRESHOLD {
          stopped := true;
          StoppedStays(p, Start(archived), keys, looked);
          break;
        }
        continue;
      }
      streak := 0;
      if p.dryRun {
        tally := tally.(skipped := tally.skipped + 1);
        continue;
      }
      if !p.works(k) {
        tally := tally.(failed := tally.failed + 1);
        continue;
      }
      known, log := known + {k}, log + [k];
      tally := tally.(ingested := tally.ingested + 1);
    }
    assert keys[..|keys|] == keys;
    s := Progress(known, log, tally, streak, stopped);
  }

  lemma {:induction false} StoppedStays(p: Policy, s: Progress, keys: seq<Key>, n: nat)
    requires n <= |keys| && Walk(p, s, keys[..n]).stopped
    ensures Walk(p, s, keys) == Walk(p, s, keys[..n])
    decreases |keys| - n
  {
    if n < |keys| {
      assert keys[..n + 1][..n] == keys[..n];
      StoppedStays(p, s, keys, n + 1);
    } else {
      assert keys[..n] == keys;
    }
  }

  lemma {:induction false} WalkConcat(p: Policy, s: Progress, a: seq<Key>, b: seq<Key>)
    ensures Walk(p, s, a + b) == Walk(p, Walk(p, s, a), b)
  {
    if b == [] {
      assert a + b == a;
    } else {
      WalkConcat(p, s, a, b[..|b| - 1]);
      assert (a + b)[..|a + b| - 1] == a + b[..|b| - 1];
    }
  }

  // ---------------------------------------------------------- the full scan

  /** What a run that never stops early archives: all that works. */
  lemma {:induction false} FullScanArchives(p: Policy, s: Progress, keys: seq<Key>)
    requires !p.earlyStop && !p.dryRun && !s.stopped
    ensures !Walk(p, s, keys).stopped
    ensures Walk(p, s, keys).archived == s.archived + set k | k in keys && p.works(k)
  {
    if keys == [] {
    } else {
      FullScanArchives(p, s, keys[..|keys| - 1]);
      assert keys == keys[..|keys| - 1] + [keys[|keys| - 1]];
    }
  }

  /** Up to the point where it stops, the early-stopping run does what the full scan does. */
  lemma {:induction false} SameUntilStop(p: Policy, s: Progress, keys: seq<Key>)
    requires !Walk(p, s, keys).stopped
    ensures Walk(p, s, keys) == Walk(p.(earlyStop := false), s, keys)
  {
    if keys == [] {
    } else {
      if Walk(p, s, keys[..|keys| - 1]).stopped {
        assert false;
      }
      SameUntilStop(p, s, keys[..|keys| - 1]);
    }
  }

  /** Where a run stops early: the number of issues it has looked at. */
  lemma {:induction false} StopPoint(p: Policy, s: Progress, keys: seq<Key>) returns (n: nat)
    requires !s.stopped && Walk(p, s, keys).stopped
    ensures 0 < n <= |keys| && Walk(p, s, keys[..n]).stopped && !Walk(p, s, keys[..n - 1]).stopped
  {
    var front := keys[..|keys| - 1];
    if Walk(p, s, front).stopped {
      n := StopPoint(p, s, front);
      assert keys[..n] == front[..n] && keys[..n - 1] == front[..n - 1];
    } else {
      n := |keys|;
      assert keys[..n] == keys;
    }
  }

  lemma LookStops(p: Policy, s: Progress, k: Key)
    requires !s.stopped && Look(p, s, k).stopped
    ensures k in s.archived && Look(p.(earlyStop := false), s, k) == Look(p, s, k).(stopped := false)
  {
  }

  /**
   Early stopping is exact. Cut the issues where the run stops: it archives what the full
   scan archives if and only if every issue after the cut is archived by then or cannot be
   ingested.
   */
  lemma EarlyStopExactly(p: Policy, archived: set<Key>, keys: seq<Key>) returns (n: nat)
    requires p.earlyStop && !p.dryRun
    ensures n <= |keys|
    ensures var early := Walk(p, Start(archived), keys);
            var full := Walk(p.(earlyStop := false), Start(archived), keys);
            && (!early.stopped ==> n == |keys| && early.archived == full.archived)
            && (early.stopped ==> n > 0 && early == Walk(p, Start(archived), keys[..n])
                                  && !Walk(p, Start(archived), keys[..n - 1]).stopped)
            && (early.archived == full.archived <==>
                  forall i :: n <= i < |keys| ==> keys[i] in early.archived || !p.works(keys[i]))
  {
    var s, q := Start(archived), p.(earlyStop := false);
    var early := Walk(p, s, keys);
    if !early.stopped {
      n := |keys|;
      SameUntilStop(p, s, keys);
    } else {
      n := StopPoint(p, s, keys);
      StoppedStays(p, s, keys, n);
      SameUntilStop(p, s, keys[..n - 1]);
      assert keys[..n][..n - 1] == keys[..n - 1];
      LookStops(p, Walk(p, s, keys[..n - 1]), keys[n - 1]);
      assert keys == keys[..n] + keys[n..];
      WalkConcat(q, s, keys[..n], keys[n..]);
      FullScanArchives(q, Walk(q, s, keys[..n]), keys[n..]);
      var full := Walk(q, s, keys);
      assert full.archived == early.archived + set k | k in keys[n..] && p.works(k);
      if early.archived == full.archived {
        forall i | n <= i < |keys|
          ensures keys[i] in early.archived || !p.works(keys[i])
        {
          assert keys[n..][i - n] == keys[i];
        }
      } else {
        var k :| k in full.archived && k !in early.archived;
        var j :| 0 <= j < |keys[n..]| && keys[n..][j] == k;
        assert keys[n + j] == k;
      }
    }
  }

  /** Three issues in a row that were archived before the run. */
  ghost predicate ThreeKnown(archived: set<Key>, keys: seq<Key>, i: int) {
    0 <= i && i + 2 < |keys| && keys[i] in archived && keys[i + 1] in archived && keys[i + 2] in archived
  }

  lemma {:induction false} ArchivedSoFar(p: Policy, archived: set<Key>, keys: seq<Key>)
    ensures archived <= Walk(p, Start(archived), keys).archived <= archived + set k | k in keys
  {
    if keys == [] {
    } else {
      ArchivedSoFar(p, archived, keys[..|keys| - 1]);
      assert keys == keys[..|keys| - 1] + [keys[|keys| - 1]];
    }
  }

  /** A streak of duplicates is a stretch of keys that were archived before the run began. */
  lemma {:induction false} StreakIsKnown(p: Policy, archived: set<Key>, keys: seq<Key>)
    requires NoRepeats(keys)
    ensures var s := Walk(p, Start(archived), keys);
            !s.stopped ==> s.streak <= |keys| && forall i :: |keys| - s.streak <= i < |keys| ==> keys[i] in archived
  {
    if keys == [] {
    } else {
      var front, k := keys[..|keys| - 1], keys[|keys| - 1];
      StreakIsKnown(p, archived, front);
      ArchivedSoFar(p, archived, front);
      assert k !in front;
    }
  }

  /**
   With distinct keys: if three known issues in a row mean that everything after them is
   known too, stopping early archives exactly what the full scan would.
   */
  lemma EarlyStopIsSafe(p: Policy, archived: set<Key>, keys: seq<Key>)
    requires p.earlyStop && !p.dryRun && NoRepeats(keys)
    requires forall i, j :: ThreeKnown(archived, keys, i) && i + 2 < j < |keys| ==> keys[j] in archived
    ensures Walk(p, Start(archived), keys).archived == Walk(p.(earlyStop := false), Start(archived), keys).archived
  {
    var n := EarlyStopExactly(p, archived, keys);
    if Walk(p, Start(archived), keys).stopped {
      var before := keys[..n - 1];
      assert keys[..n][..n - 1] == before;
      StreakIsKnown(p, archived, before);
      ArchivedSoFar(p, archived, before);
      LookStops(p, Walk(p, Start(archived), before), keys[n - 1]);
      assert keys[n - 1] !in keys[..n - 1];
      assert before[n - 2] in archived && before[n - 3] in archived;
      assert ThreeKnown(archived, keys, n - 3);
      ArchivedSoFar(p, archived, keys);
    }
  }

  // ----------------------------------------------------------- crash, rerun

  /** Nothing is archived twice, and nothing that was archived before. */
  lemma {:induction false} LogIsFresh(p: Policy, s: Progress, keys: seq<Key>)
    requires NoRepeats(s.log) && forall k :: k in s.log ==> k in s.archived
    ensures NoRepeats(Walk(p, s, keys).log) && forall k :: k in Walk(p, s, keys).log ==> k in Walk(p, s, keys).archived
    ensures s.archived <= Walk(p, s, keys).archived
  {
    if keys == [] {
    } else {
      LogIsFresh(p, s, keys[..|keys| - 1]);
    }
  }

  /** What a full scan started again archives, and that neither run archives a key twice. */
  lemma RerunAfterCrash(p: Policy, archived: set<Key>, keys: seq<Key>, n: nat)
    requires n <= |keys| && !p.dryRun
    ensures var crashed := Walk(p, Start(archived), keys[..n]);
            var again := crashed.(tally := Tally(0, 0, 0, 0), streak := 0, stopped := false);
            && NoRepeats(Walk(p, again, keys).log)
            && (!p.earlyStop ==> Walk(p, again, keys).archived == Walk(p, Start(archived), keys).archived)
  {
    var crashed := Walk(p, Start(archived), keys[..n]);
    var again := crashed.(tally := Tally(0, 0, 0, 0), streak := 0, stopped := false);
    LogIsFresh(p, Start(archived), keys[..n]);
    LogIsFresh(p, again, keys);
    if !p.earlyStop {
      FullScanArchives(p, Start(archived), keys[..n]);
      FullScanArchives(p, again, keys);
      FullScanArchives(p, Start(archived), keys);
      assert forall k :: k in keys[..n] ==> k in keys;
    }
  }

  function Working(p: Policy, keys: seq<Key>): set<Key> {
    set k | k in keys && p.works(k)
  }

  /** The end of the first three known issues in a row, or of the list. */
  ghost predicate StopsAt(archived: set<Key>, keys: seq<Key>, u: nat) {
    && u <= |keys| && (forall i :: ThreeKnown(archived, keys, i) ==> u <= i + 3)
    && (u < |keys| ==> ThreeKnown(archived, keys, u - 3))
  }

  /** Three known issues in a row end the run at the latest. */
  lemma TripleStops(p: Policy, archived: set<Key>, keys: seq<Key>, i: nat)
    requires p.earlyStop && ThreeKnown(archived, keys, i)
    ensures Walk(p, Start(archived), keys[..i + 3]).stopped
  {
    KnownIsDuplicate(p, archived, keys, i);
    KnownIsDuplicate(p, archived, keys, i + 1);
    KnownIsDuplicate(p, archived, keys, i + 2);
  }

  lemma KnownIsDuplicate(p: Policy, archived: set<Key>, keys: seq<Key>, i: nat)
    requires p.earlyStop && i < |keys| && keys[i] in archived
    ensures var s, t := Walk(p, Start(archived), keys[..i]), Walk(p, Start(archived), keys[..i + 1]);
            t.stopped <==> s.stopped || s.streak + 1 >= EARLY_STOP_DUPLICATE_THRESHOLD
    ensures var s, t := Walk(p, Start(archived), keys[..i]), Walk(p, Start(archived), keys[..i + 1]);
            !t.stopped ==> t.streak == s.streak + 1
  {
    ArchivedSoFar(p, archived, keys[..i]);
    assert keys[..i + 1][..i] == keys[..i];
  }

  /** With distinct keys, an early-stopping run is a full scan of the issues up to where it stops. */
  lemma StopsAtFirstTriple(p: Policy, archived: set<Key>, keys: seq<Key>) returns (u: nat)
    requires p.earlyStop && !p.dryRun && NoRepeats(keys)
    ensures StopsAt(archived, keys, u)
    ensures Walk(p, Start(archived), keys).archived == archived + Working(p, keys[..u])
  {
    var s, q := Start(archived), p.(earlyStop := false);
    if !Walk(p, s, keys).stopped {
      u := |keys|;
      assert keys[..u] == keys;
      SameUntilStop(p, s, keys);
      FullScanArchives(q, s, keys);
    } else {
      u := StopPoint(p, s, keys);
      StoppedStays(p, s, keys, u);
      StopIsTriple(p, archived, keys, u);
    }
    forall i | ThreeKnown(archived, keys, i)
      ensures u <= i + 3
    {
      TripleStops(p, archived, keys, i);
      if i + 3 < u {
        StoppedBefore(p, s, keys, i + 3, u - 1);
      }
    }
  }

  lemma StoppedBefore(p: Policy, s: Progress, keys: seq<Key>, i: nat, j: nat)
    requires i <= j <= |keys| && Walk(p, s, keys[..i]).stopped
    ensures Walk(p, s, keys[..j]).stopped
  {
    assert keys[..j][..i] == keys[..i];
    StoppedStays(p, s, keys[..j], i);
  }

  lemma StopIsTriple(p: Policy, archived: set<Key>, keys: seq<Key>, u: nat)
    requires p.earlyStop && !p.dryRun && NoRepeats(keys) && 0 < u <= |keys|
    requires Walk(p, Start(archived), keys[..u]).stopped && !Walk(p, Start(archived), keys[..u - 1]).stopped
    ensures ThreeKnown(archived, keys, u - 3)
    ensures Walk(p, Start(archived), keys[..u]).archived == archived + Working(p, keys[..u])
  {
    var s, q, before := Start(archived), p.(earlyStop := false), keys[..u - 1];
    assert keys[..u][..u - 1] == before && keys[..u] == before + [keys[u - 1]];
    StreakIsKnown(p, archived, before);
    ArchivedSoFar(p, archived, before);
    LookStops(p, Walk(p, s, before), keys[u - 1]);
    assert keys[u - 1] !in before;
    assert before[u - 2] in archived && before[u - 3] in archived;
    SameUntilStop(p, s, before);
    FullScanArchives(q, s, before);
  }

  /** Issue j lies behind three known ones in a row. */
  ghost predicate Behind(archived: set<Key>, keys: seq<Key>, j: nat) {
    exists i :: ThreeKnown(archived, keys, i) && i + 2 < j
  }

  lemma BehindIsPastStop(archived: set<Key>, keys: seq<Key>, u: nat, j: nat)
    requires StopsAt(archived, keys, u) && j < |keys|
    ensures Behind(archived, keys, j) <==> u <= j
  {
    if u <= j {
      assert ThreeKnown(archived, keys, u - 3);
    }
  }

  /**
   A run that dies after `n` issues and is started again from the first one, stopping early
   as it does by default, with distinct keys. It catches up with the undisturbed run if and
   only if every issue that only the first run would still have reached, because three in
   a row are known by now and were not before, is archived already or cannot be ingested.
   */
  lemma RerunExactly(p: Policy, archived: set<Key>, keys: seq<Key>, n: nat)
    requires n <= |keys| && p.earlyStop && !p.dryRun && NoRepeats(keys)
    ensures var known := Walk(p, Start(archived), keys[..n]).archived;
            Walk(p, Start(known), keys).archived == Walk(p, Start(archived), keys).archived <==>
            forall j :: 0 <= j < |keys| && Behind(known, keys, j) && !Behind(archived, keys, j) ==>
                          keys[j] in known || !p.works(keys[j])
  {
    var c := StopsAtFirstTriple(p, archived, keys[..n]);
    var u := StopsAtFirstTriple(p, archived, keys);
    var known := Walk(p, Start(archived), keys[..n]).archived;
    var m := StopsAtFirstTriple(p, known, keys);
    hide Walk;
    assert keys[..n][..c] == keys[..c];
    if u < n {
      assert ThreeKnown(archived, keys[..n], u - 3);
    }
    if u < |keys| {
      assert ThreeKnown(known, keys, u - 3);
    }
    assert c <= u && m <= u;
    forall j | 0 <= j < |keys|
      ensures Behind(known, keys, j) <==> m <= j
      ensures Behind(archived, keys, j) <==> u <= j
    {
      BehindIsPastStop(known, keys, m, j);
      BehindIsPastStop(archived, keys, u, j);
    }
    CatchesUp(p, archived, known, keys, c, m, u);
  }

  lemma CatchesUp(p: Policy, archived: set<Key>, known: set<Key>, keys: seq<Key>, c: nat, m: nat, u: nat)
    requires NoRepeats(keys) && c <= u <= |keys| && m <= u && known == archived + Working(p, keys[..c])
    ensures known + Working(p, keys[..m]) == archived + Working(p, keys[..u]) <==>
            forall j :: m <= j < u ==> keys[j] in known || !p.works(keys[j])
  {
    var again, undisturbed := known + Working(p, keys[..m]), archived + Working(p, keys[..u]);
    assert forall k :: k in again ==> k in undisturbed;
    if again == undisturbed {
      forall j | m <= j < u
        ensures keys[j] in known || !p.works(keys[j])
      {
        assert keys[..u][j] == keys[j];
        assert keys[j] !in keys[..m];
        if p.works(keys[j]) {
          assert keys[j] in undisturbed && keys[j] !in Working(p, keys[..m]);
        }
      }
    } else {
      var k :| k in undisturbed && k !in again;
      assert forall i :: 0 <= i < m ==> keys[..m][i] == keys[i];
      var j :| 0 <= j < |keys[..u]| && keys[..u][j] == k;
      assert m <= j;
    }
  }

  /** By default a rerun can lose an issue: three archived before the crash are three duplicates after it. */
  lemma CrashLosesIssue(p: Policy)
    requires p.earlyStop && !p.dryRun && forall k :: p.works(k)
    ensures var keys := ["a", "b", "c", "d"];
            var crashed := Walk(p, Start({}), keys[..3]);
            "d" in Walk(p, Start({}), keys).archived && "d" !in Walk(p, Start(crashed.archived), keys).archived
  {
    var keys := ["a", "b", "c", "d"];
    var u := StopsAtFirstTriple(p, {}, keys);
    var c := StopsAtFirstTriple(p, {}, keys[..3]);
    var known := Walk(p, Start({}), keys[..3]).archived;
    assert keys[..3] == ["a", "b", "c"];
    hide Walk;
    assert u == 4 && c == 3;
    assert keys[3] == "d" && keys[..3][0] == "a" && keys[..3][1] == "b" && keys[..3][2] == "c";
    var m := StopsAtFirstTriple(p, known, keys);
    assert ThreeKnown(known, keys, 0);
  }
}
