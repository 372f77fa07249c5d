/**
 What a run makes of each issue, said of the list and of what was archived before: which count
 an issue goes to, what is archived and in which order, and where the run stops.
 */
module IssueKinds {
  import opened Catalogue
  import opened IssueRun

  datatype Kind = Ingested | Duplicate | Failed | Skipped

  /** An issue archived before or earlier in the run is a duplicate; a dry run skips the others. */
  ghost function KindAt(p: Policy, archived: set<Key>, keys: seq<Key>, i: nat): Kind
    requires i < |keys|
  {
    if keys[i] in archived then Duplicate
    else if p.dryRun then Skipped
    else if !p.works(keys[i]) then Failed
    else if exists j :: 0 <= j < i && keys[j] == keys[i] then Duplicate
    else Ingested
  }

  /** How many of the first `n` issues are of a kind. */
  ghost function HowMany(p: Policy, archived: set<Key>, keys: seq<Key>, n: nat, kind: Kind): nat
    requires n <= |keys|
  {
    if n == 0 then 0
    else HowMany(p, archived, keys, n - 1, kind) + if KindAt(p, archived, keys, n - 1) == kind then 1 else 0
  }

  lemma OneMore(p: Policy, archived: set<Key>, keys: seq<Key>, n: nat, kind: Kind)
    requires n < |keys|
    ensures HowMany(p, archived, keys, n + 1, kind)
         == HowMany(p, archived, keys, n, kind) + if KindAt(p, archived, keys, n) == kind then 1 else 0
  {
    hide KindAt;
  }

  ghost predicate ThreeDuplicates(p: Policy, archived: set<Key>, keys: seq<Key>, i: int) {
    0 <= i && i + 2 < |keys| && forall j :: i <= j <= i + 2 ==> KindAt(p, archived, keys, j) == Duplicate
  }

  /** The counts are right for the first `n` issues. */
  ghost predicate TallyRight(p: Policy, archived: set<Key>, keys: seq<Key>, n: nat, t: Tally)
    requires n <= |keys|
  {
    && t.ingested == HowMany(p, archived, keys, n, Ingested) && t.duplicate == HowMany(p, archived, keys, n, Duplicate)
    && t.failed == HowMany(p, archived, keys, n, Failed) && t.skipped == HowMany(p, archived, keys, n, Skipped)
  }

  /** So is what has been archived: each ingested issue once, in the order of the list. */
  ghost predicate LogRight(p: Policy, archived: set<Key>, keys: seq<Key>, n: nat, s: Progress)
    requires n <= |keys|
  {
    && |s.log| == HowMany(p, archived, keys, n, Ingested)
    && (forall k :: k in s.archived <==> k in archived || k in s.log)
    && (forall i :: 0 <= i < n && KindAt(p, archived, keys, i) == Ingested ==>
          var at := HowMany(p, archived, keys, i, Ingested); at < |s.log| && s.log[at] == keys[i])
  }

  /** And the streak is that of the duplicates at the end. */
  ghost predicate StreakRight(p: Policy, archived: set<Key>, keys: seq<Key>, n: nat, streak: nat)
    requires n <= |keys|
  {
    && streak <= n && (forall i :: n - streak <= i < n ==> KindAt(p, archived, keys, i) == Duplicate)
    && (streak < n ==> KindAt(p, archived, keys, n - streak - 1) != Duplicate)
  }

  ghost predicate Archives(p: Policy, archived: set<Key>, keys: seq<Key>, n: nat, s: Progress)
    requires n <= |keys|
  {
    forall k :: k in s.archived <==>
      k in archived || (!p.dryRun && p.works(k) && exists j :: 0 <= j < n && keys[j] == k)
  }

  ghost predicate AllRight(p: Policy, archived: set<Key>, keys: seq<Key>, n: nat, s: Progress)
    requires n <= |keys|
  {
    TallyRight(p, archived, keys, n, s.tally) && LogRight(p, archived, keys, n, s)
  }

  lemma LookIsOf(p: Policy, archived: set<Key>, keys: seq<Key>, n: nat, s: Progress)
    requires n < |keys| && !s.stopped && Archives(p, archived, keys, n, s)
    ensures var k, kind, s' := keys[n], KindAt(p, archived, keys, n), Look(p, s, keys[n]);
            && s'.tally == (match kind
                            case Ingested => s.tally.(ingested := s.tally.ingested + 1)
                            case Duplicate => s.tally.(duplicate := s.tally.duplicate + 1)
                            case Failed => s.tally.(failed := s.tally.failed + 1)
                            case Skipped => s.tally.(skipped := s.tally.skipped + 1))
            && s'.log == s.log + (if kind == Ingested then [k] else [])
            && s'.archived == s.archived + (if kind == Ingested then {k} else {})
            && s'.streak == (if kind == Duplicate then s.streak + 1 else 0)
            && (s'.stopped <==> p.earlyStop && kind == Duplicate && s.streak >= 2)
            && Archives(p, archived, keys, n + 1, s')
  {
  }

  lemma TallyNext(p: Policy, archived: set<Key>, keys: seq<Key>, n: nat, t: Tally, t': Tally)
    requires n < |keys| && TallyRight(p, archived, keys, n, t)
    requires t' == match KindAt(p, archived, keys, n)
                   case Ingested => t.(ingested := t.ingested + 1)
                   case Duplicate => t.(duplicate := t.duplicate + 1)
                   case Failed => t.(failed := t.failed + 1)
                   case Skipped => t.(skipped := t.skipped + 1)
    ensures TallyRight(p, archived, keys, n + 1, t')
  {
    hide KindAt, HowMany;
    OneMore(p, archived, keys, n, Ingested);
    OneMore(p, archived, keys, n, Duplicate);
    OneMore(p, archived, keys, n, Failed);
    OneMore(p, archived, keys, n, Skipped);
  }

  lemma LogNext(p: Policy, archived: set<Key>, keys: seq<Key>, n: nat, s: Progress, s': Progress)
    requires n < |keys| && LogRight(p, archived, keys, n, s)
    requires var added := if KindAt(p, archived, keys, n) == Ingested then [keys[n]] else [];
             s'.log == s.log + added && forall k :: k in s'.archived <==> k in s.archived || k in added
    ensures LogRight(p, archived, keys, n + 1, s')
  {
    hide KindAt, HowMany;
    OneMore(p, archived, keys, n, Ingested);
    if KindAt(p, archived, keys, n) == Ingested {
      assert s'.log[|s.log|] == keys[n];
    }
    forall k
      ensures k in s'.log <==> k in s.log || (KindAt(p, archived, keys, n) == Ingested && k == keys[n])
    {
    }
  }

  lemma StreakNext(p: Policy, archived: set<Key>, keys: seq<Key>, n: nat, streak: nat, streak': nat)
    requires n < |keys| && StreakRight(p, archived, keys, n, streak)
    requires streak' == if KindAt(p, archived, keys, n) == Duplicate then streak + 1 else 0
    ensures StreakRight(p, archived, keys, n + 1, streak')
  {
    hide KindAt;
  }

  /** No three duplicates in a row end within the first `n` issues. */
  ghost predicate NoThreeBefore(p: Policy, archived: set<Key>, keys: seq<Key>, n: nat) {
    forall i :: ThreeDuplicates(p, archived, keys, i) ==> n <= i + 2
  }

  lemma FewerBefore(p: Policy, archived: set<Key>, keys: seq<Key>, n: nat)
    requires n > 0
    ensures NoThreeBefore(p, archived, keys, n) ==> NoThreeBefore(p, archived, keys, n - 1)
  {
    hide ThreeDuplicates;
  }

  /** As long as there are no three duplicates in a row, or they do not matter, the run goes on. */
  lemma {:induction false} GoesOn(p: Policy, archived: set<Key>, keys: seq<Key>, n: nat)
    requires n <= |keys|
    requires p.earlyStop ==> NoThreeBefore(p, archived, keys, n)
    ensures IsAt(p, archived, keys, n, Walk(p, Start(archived), keys[..n]))
  {
    hide *;
    if n == 0 {
      NothingRight(p, archived, keys);
    } else {
      FewerBefore(p, archived, keys, n);
      GoesOn(p, archived, keys, n - 1);
      WalkNext(p, archived, keys, n - 1);
      NextRight(p, archived, keys, n - 1, Walk(p, Start(archived), keys[..n - 1]));
    }
  }

  /** The run goes on, and everything about it is right. */
  ghost predicate IsAt(p: Policy, archived: set<Key>, keys: seq<Key>, n: nat, s: Progress)
    requires n <= |keys|
  {
    && !s.stopped && AllRight(p, archived, keys, n, s) && StreakRight(p, archived, keys, n, s.streak)
    && Archives(p, archived, keys, n, s)
  }

  lemma WalkNext(p: Policy, archived: set<Key>, keys: seq<Key>, n: nat)
    requires n < |keys|
    ensures Walk(p, Start(archived), keys[..n + 1]) == Look(p, Walk(p, Start(archived), keys[..n]), keys[n])
  {
    hide Look;
    assert keys[..n + 1][..n] == keys[..n];
  }

  lemma NextRight(p: Policy, archived: set<Key>, keys: seq<Key>, n: nat, s: Progress)
    requires n < |keys| && IsAt(p, archived, keys, n, s)
    requires p.earlyStop ==> NoThreeBefore(p, archived, keys, n + 1)
    ensures IsAt(p, archived, keys, n + 1, Look(p, s, keys[n]))
  {
    hide KindAt, HowMany, Look, TallyRight, LogRight, StreakRight, Archives, ThreeDuplicates;
    LookIsOf(p, archived, keys, n, s);
    var s' := Look(p, s, keys[n]);
    TallyNext(p, archived, keys, n, s.tally, s'.tally);
    LogNext(p, archived, keys, n, s, s');
    StreakNext(p, archived, keys, n, s.streak, s'.streak);
    StreakOfThree(p, archived, keys, n, s.streak);
  }

  lemma StreakOfThree(p: Policy, archived: set<Key>, keys: seq<Key>, n: nat, streak: nat)
    requires n < |keys| && StreakRight(p, archived, keys, n, streak)
    ensures streak >= 2 && KindAt(p, archived, keys, n) == Duplicate ==> ThreeDuplicates(p, archived, keys, n - 2)
  {
    hide KindAt;
  }

  lemma NothingRight(p: Policy, archived: set<Key>, keys: seq<Key>)
    ensures IsAt(p, archived, keys, 0, Walk(p, Start(archived), keys[..0]))
  {
    hide KindAt, Look;
  }

  /**
   A whole run: it looks at all issues, or, stopping early, at those up to the end of the first
   three duplicates in a row; every issue looked at goes to its count, the ingested ones are
   archived, each once and in order, and nothing else is.
   */
  lemma RunIs(p: Policy, archived: set<Key>, keys: seq<Key>) returns (n: nat)
    ensures n <= |keys|
    ensures var s := Walk(p, Start(archived), keys);
            && AllRight(p, archived, keys, n, s)
            && (s.stopped <==> p.earlyStop && exists i :: ThreeDuplicates(p, archived, keys, i))
            && (!s.stopped ==> n == |keys|)
            && (s.stopped ==> ThreeDuplicates(p, archived, keys, n - 3)
                              && forall i :: ThreeDuplicates(p, archived, keys, i) ==> n <= i + 3)
  {
    hide KindAt, HowMany, Look, Walk;
    if p.earlyStop && exists i :: ThreeDuplicates(p, archived, keys, i) {
      var i :| ThreeDuplicates(p, archived, keys, i);
      i := FirstThree(p, archived, keys, i);
      n := i + 3;
      GoesOn(p, archived, keys, n - 1);
      StopsAfter(p, archived, keys, n);
    } else {
      n := |keys|;
      GoesOn(p, archived, keys, n);
      assert keys[..n] == keys;
    }
  }

  lemma {:induction false} FirstThree(p: Policy, archived: set<Key>, keys: seq<Key>, j: nat) returns (i: nat)
    requires ThreeDuplicates(p, archived, keys, j)
    ensures ThreeDuplicates(p, archived, keys, i) && i <= j
    ensures forall k :: ThreeDuplicates(p, archived, keys, k) ==> i <= k
  {
    hide KindAt;
    if k: nat :| k < j && ThreeDuplicates(p, archived, keys, k) {
      i := FirstThree(p, archived, keys, k);
    } else {
      i := j;
    }
  }

  lemma StopsAfter(p: Policy, archived: set<Key>, keys: seq<Key>, n: nat)
    requires p.earlyStop && ThreeDuplicates(p, archived, keys, n - 3)
    requires var s := Walk(p, Start(archived), keys[..n - 1]);
             && !s.stopped && AllRight(p, archived, keys, n - 1, s)
             && StreakRight(p, archived, keys, n - 1, s.streak) && Archives(p, archived, keys, n - 1, s)
    ensures var s := Walk(p, Start(archived), keys); s.stopped && AllRight(p, archived, keys, n, s)
  {
    hide KindAt, HowMany, Look;
    var s := Walk(p, Start(archived), keys[..n - 1]);
    assert keys[..n][..n - 1] == keys[..n - 1];
    LookIsOf(p, archived, keys, n - 1, s);
    var s' := Look(p, s, keys[n - 1]);
    assert s' == Walk(p, Start(archived), keys[..n]);
    TallyNext(p, archived, keys, n - 1, s.tally, s'.tally);
    LogNext(p, archived, keys, n - 1, s, s');
    StoppedStays(p, Start(archived), keys, n);
  }
}
