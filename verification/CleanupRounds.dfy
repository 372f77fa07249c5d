/**
 Reporting and applying, again and again: everything settles after at most two rounds, and
 exactly when one is not enough. Between rounds the database may return its rows in another
 order, since the queries do not ask for one.
 */
module CleanupRounds {
  import opened Catalogue
  import opened Components
  import opened CleanupReport
  import opened CleanupApply
  import opened CleanupSafety

  // -------------------------------------------------- the same rows, read again

  /** The same archives and mounts, read in any order. */
  ghost predicate Reread(db: Store, db': Store) {
    Keyed(db) && Keyed(db') && db' == db.(order := db'.order, mountOrder := db'.mountOrder)
  }

  /** Every linked pair is unreadable: there is nothing to withdraw in favour of. */
  ghost predicate Quiet(db: Store) {
    forall a, b :: Active(db, a) && Active(db, b) && a != b && Linked(KeysOf(db), a, b) ==> !Readable(db, a)
  }

  lemma RereadCandidates(db: Store, db': Store, a: Archive, m: Mount)
    requires Reread(db, db')
    ensures Candidates(db', a, m) == Candidates(db, a, m)
  {
    assert Prefixes(db', m) == Prefixes(db, m);
    assert OrphanUrls(db', a, m) == OrphanUrls(db, a, m);
    hide Prefixes, OrphanUrls, Keyed;
    assert ByPrefix(db', a, m) == ByPrefix(db, a, m);
    assert ByUrl(db', a, m) == ByUrl(db, a, m);
  }

  lemma RereadArchive(db: Store, db': Store, a: Id)
    requires Reread(db, db') && a in db.archives
    ensures a in db'.archives && db'.archives[a] == db.archives[a]
    ensures Readable(db', a) <==> Readable(db, a)
    ensures Recoveries(db', a) == [] <==> Recoveries(db, a) == []
    ensures IdentityKeys(db', a) == IdentityKeys(db, a)
  {
    hide Readable, Recoveries, Hashes, Candidates, Keyed;
    ReadableExact(db, a);
    ReadableExact(db', a);
    assert forall m :: IsValidMount(db', a, m) <==> IsValidMount(db, a, m);
    assert forall m :: IsOrphanMount(db', a, m) <==> IsOrphanMount(db, a, m);
    RecoveryFree(db, a);
    RecoveryFree(db', a);
    assert Urls(db', a) == Urls(db, a);
    RereadHashes(db, db', a);
  }

  lemma RecoveryFree(db: Store, a: Id)
    requires Keyed(db) && a in db.archives
    ensures Recoveries(db, a) == [] <==> forall m :: !IsOrphanMount(db, a, m)
  {
    RecoveryMounts(db, a);
    if Recoveries(db, a) != [] {
      assert Recoveries(db, a)[0] in Recoveries(db, a);
    }
  }

  lemma RereadHashes(db: Store, db': Store, a: Id)
    requires Reread(db, db') && a in db.archives
    ensures a in db'.archives && Hashes(db', a) == Hashes(db, a)
  {
    hide Hashes, Candidates, Keyed;
    forall h
      ensures h in Hashes(db', a) <==> h in Hashes(db, a)
    {
      HashesExact(db, a, h);
      HashesExact(db', a, h);
      forall m | m in db.mounts
        ensures Candidates(db', db.archives[a], db.mounts[m]) == Candidates(db, db.archives[a], db.mounts[m])
      {
        RereadCandidates(db, db', db.archives[a], db.mounts[m]);
      }
    }
  }

  /** Nothing that the clean-up goes by depends on the order, except its ties. */
  lemma RereadKeeps(db: Store, db': Store)
    requires Reread(db, db')
    ensures KeysOf(db') == KeysOf(db) && (forall a :: Active(db', a) <==> Active(db, a))
    ensures NothingMissing(db') <==> NothingMissing(db)
    ensures OneTenantPerGroup(db') <==> OneTenantPerGroup(db)
    ensures Quiet(db') <==> Quiet(db)
  {
    hide Readable, Recoveries, IdentityKeys, Keyed, Linked;
    forall a | a in db.archives
      ensures a in db'.archives && db'.archives[a] == db.archives[a]
      ensures Readable(db', a) <==> Readable(db, a)
      ensures Recoveries(db', a) == [] <==> Recoveries(db, a) == []
      ensures IdentityKeys(db', a) == IdentityKeys(db, a)
    {
      RereadArchive(db, db', a);
    }
    assert KeysOf(db') == KeysOf(db);
  }

  /** Where no file is missing, the plan is empty exactly when no linked pair has a readable member. */
  lemma EmptyPlanExactly(db: Store)
    requires Keyed(db) && NothingMissing(db)
    ensures Plan(db) == map[] <==> Quiet(db)
  {
    hide Keyed, Readable, Recoveries, KeysOf, Linked, KeptFor, Withdrawn, Plan;
    if Plan(db) == map[] {
      forall a, b | Active(db, a) && Active(db, b) && a != b && Linked(KeysOf(db), a, b)
        ensures !Readable(db, a)
      {
        LinkedSymmetric(KeysOf(db), a, b);
        PlannedKind(db, a);
        PlannedKind(db, b);
        if Readable(db, a) {
          ReadableGroupLeavesOne(db, b, a);
        }
      }
    }
    if a :| a in Plan(db) {
      PlannedIsActive(db, a);
      PlannedKind(db, a);
      WithdrawnMeans(db, a);
      var c := KeptFor(db, a);
      PeersExact(db, a, c);
      LinkedSymmetric(KeysOf(db), a, c);
      assert Linked(KeysOf(db), c, a) && Readable(db, c);
    }
  }

  lemma PlannedIsActive(db: Store, a: Id)
    requires Keyed(db) && a in Plan(db)
    ensures Active(db, a)
  {
  }

  // ------------------------------------------------------------- two rounds

  /**
   Reporting and applying settles within two rounds, in whatever order the rows are read: if
   the first plan can be applied and every group has one tenant, then the second plan only
   withdraws, is accepted unless it is empty, and leaves a third plan with nothing in it.
   */
  lemma TwoRoundsSettle(db: Store, first: seq<Action>, d: Store, second: seq<Action>, e: Store, actor: string)
    requires Applicable(db, first) && OneTenantPerGroup(db)
    requires Reread(After(db, first, actor), d) && Listed(second, Plan(d))
    requires Reread(After(d, second, actor), e)
    ensures Verdict(db, Report(true, 0, first)) == if first == [] then Some(NoActions) else None
    ensures forall x :: x in second ==> x.kind == WithdrawDuplicate
    ensures Verdict(d, Report(true, 0, second)) == if second == [] then Some(NoActions) else None
    ensures Plan(e) == map[]
  {
    hide After, Plan, Listed, Verdict, OneTenantPerGroup, NothingMissing, Quiet;
    AcceptedIfOneTenant(db, first);
    AfterFirst(db, first, actor);
    RereadKeeps(After(db, first, actor), d);
    NothingMissingOnlyWithdraws(d, second);
    AcceptedIfOneTenant(d, second);
    NothingMissingSettles(d, second, actor);
    AfterFirst(d, second, actor);
    EmptyPlanExactly(After(d, second, actor));
    RereadKeeps(After(d, second, actor), e);
    EmptyPlanExactly(e);
  }

  // ------------------------------------------- when a second round is needed

  /** Two linked archives that both stay belong to a group whose kept archive is not ready: all of it stays. */
  lemma WholeGroupStays(db: Store, a: Id, b: Id, x: Id)
    requires Keyed(db) && Active(db, a) && Active(db, b) && a != b && Linked(KeysOf(db), a, b)
    requires !Withdrawn(db, a) && !Withdrawn(db, b)
    requires Linked(KeysOf(db), a, x)
    ensures Active(db, x) && !Withdrawn(db, x)
  {
    hide Canonical, Ready, Members, Linked, IdentityKeys;
    LinkedStaysInside(KeysOf(db), a, x);
    PeersArchived(db, a);
    MembersOfLinked(ActiveOrder(db), KeysOf(db), a, b);
    MembersOfLinked(ActiveOrder(db), KeysOf(db), a, x);
  }

  lemma {:induction false} PrefixLinked(keys: KeyMap, p: seq<Id>, a: Id, b: Id, i: nat)
    requires IsChain(keys, p, a, b) && i < |p|
    ensures Linked(keys, a, p[i])
  {
    assert IsChain(keys, p[..i + 1], a, p[i]);
  }

  /** Such archives are still linked after the plan has been applied. */
  lemma SurvivorsStayLinked(db: Store, actions: seq<Action>, actor: string, a: Id, b: Id)
    requires Applicable(db, actions) && Active(db, a) && Active(db, b) && a != b && Linked(KeysOf(db), a, b)
    requires !Withdrawn(db, a) && !Withdrawn(db, b)
    ensures Linked(KeysOf(After(db, actions, actor)), a, b)
  {
    hide Withdrawn, Plan, Listed, After, IdentityKeys;
    var d := After(db, actions, actor);
    var p :| IsChain(KeysOf(db), p, a, b);
    forall i | 0 <= i < |p|
      ensures p[i] in KeysOf(d) && p[i] in KeysOf(db) && KeysOf(d)[p[i]] == KeysOf(db)[p[i]]
    {
      PrefixLinked(KeysOf(db), p, a, b, i);
      WholeGroupStays(db, a, b, p[i]);
      Survivors(db, actions, actor, p[i]);
      SurvivorKeys(db, actions, actor, p[i]);
    }
    forall i | 0 < i < |p|
      ensures Share(KeysOf(d), p[i - 1], p[i])
    {
      assert Share(KeysOf(db), p[i - 1], p[i]);
    }
    assert IsChain(KeysOf(d), p, a, b);
  }

  /** `a` and `b` both stay, are linked, and `b` has missing files to be relinked. */
  ghost predicate Unsettled(db: Store, a: Id, b: Id)
    requires Keyed(db)
  {
    && Active(db, a) && Active(db, b) && a != b && Linked(KeysOf(db), a, b)
    && !Withdrawn(db, a) && !Withdrawn(db, b) && Recoveries(db, b) != []
  }

  lemma UnsettledNeedsMore(db: Store, actions: seq<Action>, actor: string, a: Id, b: Id)
    requires Applicable(db, actions) && Unsettled(db, a, b)
    ensures var d := After(db, actions, actor); Keyed(d) && Plan(d) != map[]
  {
    hide Withdrawn, Plan, Listed, After, Recoveries, KeysOf, Canonical, Members;
    var d := After(db, actions, actor);
    Survivors(db, actions, actor, a);
    Survivors(db, actions, actor, b);
    SurvivorHasNoOrphans(db, actions, actor, b);
    SurvivorsStayLinked(db, actions, actor, a, b);
    PeersExact(d, a, b);
    PeersArchived(d, a);
    CanonicalIsBest(d, Peers(d, a), b);
    MembersOfLinked(ActiveOrder(d), KeysOf(d), a, b);
    var k := KeptFor(d, a);
    assert Ready(d, k);
    assert KeptFor(d, b) == k;
    assert Withdrawn(d, a) || Withdrawn(d, b) by {
      WithdrawnMeans(d, a);
      WithdrawnMeans(d, b);
    }
    PlannedKind(d, a);
    PlannedKind(d, b);
  }

  lemma WithdrawnMeans(db: Store, a: Id)
    requires Keyed(db) && Active(db, a)
    ensures Withdrawn(db, a) <==> KeptFor(db, a) != a && Ready(db, KeptFor(db, a))
  {
  }

  lemma MoreMeansUnsettled(db: Store, actions: seq<Action>, actor: string, a: Id) returns (c: Id)
    requires Applicable(db, actions) && Keyed(After(db, actions, actor)) && a in Plan(After(db, actions, actor))
    ensures Unsettled(db, a, c)
  {
    hide Withdrawn, Listed, After, Recoveries, KeysOf, Canonical, Members, KeptFor;
    var d := After(db, actions, actor);
    AfterFirst(db, actions, actor);
    PlannedKind(d, a);
    WithdrawnMeans(d, a);
    c := KeptFor(d, a);
    PeersExact(d, a, c);
    LinksOnlyShrink(db, actions, actor, a, c);
    Survivors(db, actions, actor, a);
    Survivors(db, actions, actor, c);
    SurvivorHasNoOrphans(db, actions, actor, c);
    if Readable(db, c) {
      ReadableGroupLeavesOne(db, a, c);
    }
  }

  lemma ReadableGroupLeavesOne(db: Store, a: Id, c: Id)
    requires Keyed(db) && Active(db, a) && Active(db, c) && Linked(KeysOf(db), a, c) && Readable(db, c)
    requires !Withdrawn(db, a) && !Withdrawn(db, c)
    ensures a == c
  {
    hide Canonical, Members, KeysOf, Recoveries;
    PeersExact(db, a, c);
    PeersArchived(db, a);
    CanonicalIsBest(db, Peers(db, a), c);
    MembersOfLinked(ActiveOrder(db), KeysOf(db), a, c);
  }

  /**
   Exactly when one round is not enough, in whatever order the rows are read again: two
   linked archives both stay although one of them has missing files, which the first round
   relinks.
   */
  lemma SecondRoundExactly(db: Store, actions: seq<Action>, d: Store, actor: string)
    requires Applicable(db, actions) && Reread(After(db, actions, actor), d)
    ensures Plan(d) != map[] <==> exists a, b :: Unsettled(db, a, b)
  {
    hide Unsettled, After, Plan, Listed, NothingMissing, Quiet;
    AfterFirst(db, actions, actor);
    RereadKeeps(After(db, actions, actor), d);
    EmptyPlanExactly(After(db, actions, actor));
    EmptyPlanExactly(d);
    if a :| a in Plan(After(db, actions, actor)) {
      var c := MoreMeansUnsettled(db, actions, actor, a);
    }
    if a, b :| Unsettled(db, a, b) {
      UnsettledNeedsMore(db, actions, actor, a, b);
    }
  }

  // --------------------------------------------------- a store that needs two

  const ELDER := Archive(true, false, true, "t", "Notice", "notice", "110000", "2025-12", "https://u", "s", "", false,
      Archived, 1)

  const YOUNGER := ELDER.(created := 2)

  /** Two archives of one page; the younger one misses a file that can be found again by its hash. */
  const PAIR := Store(
    ["a", "b"], map["a" := ELDER, "b" := YOUNGER],
    ["m"], map["m" := Mount("b", Some("gone"), "", None, "")],
    map["f" := Asset("t", "abc", "abc")], map["e" := Event("gone", "", Some("abc"))])

  lemma PairFacts()
    ensures Keyed(PAIR) && Active(PAIR, "a") && Active(PAIR, "b")
    ensures !Readable(PAIR, "a") && !Readable(PAIR, "b")
    ensures Recoveries(PAIR, "a") == []
    ensures |Recoveries(PAIR, "b")| == 1 && |Recoveries(PAIR, "b")[0].candidates| == 1
  {
    hide Recoveries, Readable, Candidates;
    PairIsUnreadable("a");
    PairIsUnreadable("b");
    PairRecovers();
  }

  lemma PairIsUnreadable(x: Id)
    requires x in {"a", "b"}
    ensures Keyed(PAIR) && Active(PAIR, x) && !Readable(PAIR, x) && (x == "a" ==> Recoveries(PAIR, x) == [])
  {
    hide Recoveries, Readable, Candidates;
    ReadableExact(PAIR, x);
    RecoveryFree(PAIR, x);
  }

  lemma PairRecovers()
    ensures |Recoveries(PAIR, "b")| == 1 && |Recoveries(PAIR, "b")[0].candidates| == 1
  {
    hide Candidates, EvidenceOf;
    var p := (m: Id) => IsOrphanMount(PAIR, "b", m);
    assert PAIR.mountOrder[..0] == [] && Filter([], p) == [] && p("m");
    assert OrphanMounts(PAIR, "b") == ["m"];
    PairCandidates();
  }

  lemma PairCandidates()
    ensures Candidates(PAIR, YOUNGER, PAIR.mounts["m"]) == {"f"}
  {
    var mount := PAIR.mounts["m"];
    assert Related(PAIR, mount, "e");
    assert Prefixes(PAIR, mount) == {"abc"};
    hide Prefixes;
    assert ByPrefix(PAIR, YOUNGER, mount) == {"f"};
  }

  lemma PairShares()
    ensures Share(KeysOf(PAIR), "a", "b")
  {
    hide Hashes, KeyString, Urls;
    SameKey();
    PairUrls();
    var k := KeyString("url", ELDER, "https://u");
    assert PAIR.archives["a"] == ELDER && PAIR.archives["b"] == YOUNGER;
    assert k in IdentityKeys(PAIR, "a");
    assert k in IdentityKeys(PAIR, "b");
    hide IdentityKeys;
    assert KeysOf(PAIR)["a"] == IdentityKeys(PAIR, "a") && KeysOf(PAIR)["b"] == IdentityKeys(PAIR, "b");
  }

  lemma PairUrls()
    ensures "https://u" in Urls(PAIR, "a") && "https://u" in Urls(PAIR, "b")
  {
  }

  lemma SameKey()
    ensures KeyString("url", ELDER, "https://u") == KeyString("url", YOUNGER, "https://u")
  {
  }

  /** The elder one is kept for both, and it has nothing to offer. */
  lemma PairStays(x: Id)
    requires x in {"a", "b"}
    ensures Keyed(PAIR) && Active(PAIR, x) && KeptFor(PAIR, x) == "a" && !Withdrawn(PAIR, x)
    ensures Linked(KeysOf(PAIR), "a", "b")
  {
    PairFacts();
    PairShares();
    hide Keyed, Share, KeysOf, Linked, Readable, Recoveries, Canonical, Members, ActiveOrder;
    ShareIsLink(KeysOf(PAIR), "a", "b");
    LinkedSymmetric(KeysOf(PAIR), "a", "b");
    PeersExact(PAIR, "a", "a");
    LinkedReflexiveHere("a");
    PeersExact(PAIR, x, "a");
    PeersArchived(PAIR, x);
    CanonicalIsBest(PAIR, Peers(PAIR, x), "a");
    assert KeptFor(PAIR, x) in {"a", "b"};
    assert Beats(ScoreOf(PAIR, "a"), ScoreOf(PAIR, "b"));
  }

  lemma LinkedReflexiveHere(x: Id)
    requires Active(PAIR, x)
    ensures Linked(KeysOf(PAIR), x, x)
  {
    LinkedReflexive(KeysOf(PAIR), x);
  }

  /** The first round only relinks the younger one; with its file back, the second withdraws the elder. */
  lemma TwoRoundsCanBeNeeded(actor: string) returns (actions: seq<Action>)
    ensures Applicable(PAIR, actions) && OneTenantPerGroup(PAIR) && Unsettled(PAIR, "a", "b")
    ensures forall d :: Reread(After(PAIR, actions, actor), d) ==> Plan(d) != map[]
  {
    hide Applicable, Unsettled, After, Plan, OneTenantPerGroup, Keyed;
    actions := PairPlan();
    PairUnsettled();
    forall d | Reread(After(PAIR, actions, actor), d)
      ensures Plan(d) != map[]
    {
      SecondRoundExactly(PAIR, actions, d, actor);
    }
  }

  lemma PairUnsettled()
    ensures Keyed(PAIR) && Unsettled(PAIR, "a", "b") && OneTenantPerGroup(PAIR)
  {
    hide Keyed, Linked, KeysOf, Withdrawn, Recoveries;
    PairFacts();
    PairStays("a");
    PairStays("b");
    assert Recoveries(PAIR, "b") != [];
  }

  lemma StayingMeansRepair(db: Store, a: Id)
    requires Keyed(db) && Active(db, a) && !Withdrawn(db, a)
    ensures a in Plan(db) <==> RepairFor(db, a).Some?
    ensures a in Plan(db) ==> Some(Plan(db)[a]) == RepairFor(db, a)
  {
    hide Withdrawn, RepairFor, Keyed;
  }

  lemma PairRepair()
    ensures RepairFor(PAIR, "a") == None
    ensures RepairFor(PAIR, "b") == Some(MakeAction(PAIR, "b", RelinkOrphan, None))
  {
    hide Keyed, Recoveries, Readable, MakeAction;
    PairFacts();
    assert AllUnique(Recoveries(PAIR, "b"));
  }

  lemma PairPlan() returns (actions: seq<Action>)
    ensures Applicable(PAIR, actions)
  {
    hide Keyed, Withdrawn, Recoveries, RepairFor, Plan, KeptFor;
    PairStays("a");
    PairStays("b");
    PairRepair();
    StayingMeansRepair(PAIR, "a");
    StayingMeansRepair(PAIR, "b");
    var x := MakeAction(PAIR, "b", RelinkOrphan, None);
    forall a | a in Plan(PAIR)
      ensures a == "b"
    {
      PlannedIsActive(PAIR, a);
    }
    actions := [x];
    hide MakeAction, Listed;
    ListsOne(Plan(PAIR), x);
  }

  lemma ListsOne(plan: map<Id, Action>, x: Action)
    requires x.archive in plan && plan[x.archive] == x && forall a :: a in plan ==> a == x.archive
    ensures Listed([x], plan)
  {
    hide Before;
  }
}
