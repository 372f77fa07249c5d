/**
 What one round of the clean-up guarantees: an accepted report loses nothing, identity keys
 survive, and afterwards no file is missing.
 */
module CleanupSafety {
  import opened Catalogue
  import opened Components
  import opened CleanupReport
  import opened CleanupApply

  /** `actions` is the database's own plan, and every action in it can be applied. */
  ghost predicate Applicable(db: Store, actions: seq<Action>) {
    Keyed(db) && Listed(actions, Plan(db)) && forall x :: x in actions ==> Supported(x)
  }

  lemma WithdrawsExact(db: Store, actions: seq<Action>, a: Id)
    requires Applicable(db, actions)
    ensures Withdraws(actions, a) <==> Active(db, a) && Withdrawn(db, a)
  {
    hide MakeAction, Withdrawn, KeptFor, Before;
    if Withdraws(actions, a) {
      var x :| x in actions && x.kind == WithdrawDuplicate && x.archive == a;
      assert x.archive in Plan(db) && Plan(db)[x.archive] == x;
      PlannedIsSane(db, a);
    }
    if Active(db, a) && Withdrawn(db, a) {
      assert a in Plan(db);
      PlannedKind(db, a);
      assert Plan(db)[a] in actions;
    }
  }

  lemma PlannedKind(db: Store, a: Id)
    requires Keyed(db) && Active(db, a)
    ensures Withdrawn(db, a) ==> a in Plan(db) && Plan(db)[a].kind == WithdrawDuplicate
    ensures !Withdrawn(db, a) && Recoveries(db, a) != [] ==> a in Plan(db) && Plan(db)[a].kind != WithdrawDuplicate
    ensures Recoveries(db, a) == [] && a in Plan(db) ==> Withdrawn(db, a)
    ensures a in Plan(db) ==> Plan(db)[a].archive == a
  {
    hide Withdrawn, Recoveries, KeptFor;
  }

  /** Survivors are the archives that the plan does not withdraw. */
  lemma Survivors(db: Store, actions: seq<Action>, actor: string, a: Id)
    requires Applicable(db, actions)
    ensures Active(After(db, actions, actor), a) <==> Active(db, a) && !Withdrawn(db, a)
    ensures Keyed(After(db, actions, actor))
  {
    hide Withdrawn, Plan, Listed;
    WithdrawsExact(db, actions, a);
  }

  /** The missing references of a survivor are exactly the ones that get relinked. */
  lemma RelinksExact(db: Store, actions: seq<Action>, a: Id, m: Id)
    requires Applicable(db, actions) && Active(db, a) && IsOrphanMount(db, a, m)
    ensures Relinks(db, actions, m) <==> !Withdrawn(db, a)
    ensures !Withdrawn(db, a) ==> |Candidates(db, db.archives[a], db.mounts[m])| == 1
  {
    hide Withdrawn, Candidates, KeptFor, Before, MakeAction;
    RecoveryMounts(db, a);
    var r :| r in Recoveries(db, a) && r.mount == m;
    if !Withdrawn(db, a) {
      PlannedKind(db, a);
      var x := Plan(db)[a];
      assert x in actions && Supported(x);
      PlannedIsSane(db, a);
    }
    if Relinks(db, actions, m) {
      var x :| x in actions && x.kind == RelinkOrphan && IsOrphanMount(db, x.archive, m);
      assert x.archive == a && a in Plan(db) && Plan(db)[a] == x;
      PlannedKind(db, a);
    }
  }

  /** A survivor's mounts afterwards: every missing file has been replaced by a stored one. */
  lemma SurvivorMounts(db: Store, actions: seq<Action>, actor: string, a: Id, m: Id)
    requires Applicable(db, actions) && Active(db, a) && !Withdrawn(db, a)
    ensures var d := After(db, actions, actor);
            && !IsOrphanMount(d, a, m)
            && (IsValidMount(d, a, m) <==> IsValidMount(db, a, m) || IsOrphanMount(db, a, m))
            && (IsValidMount(db, a, m) ==> d.mounts[m] == db.mounts[m])
            && (IsOrphanMount(db, a, m) ==>
                 d.mounts[m].file == Some(Replacement(db, m)) && Replacement(db, m) in db.assets
                                            && Candidates(db, db.archives[a], db.mounts[m]) == {Replacement(db, m)})
  {
    hide Withdrawn, Listed, Plan;
    if IsOrphanMount(db, a, m) {
      RelinksExact(db, actions, a, m);
      var c := Candidates(db, db.archives[a], db.mounts[m]);
      assert |c| == 1;
      assert |c - {Only(c)}| == 0;
    }
  }

  lemma SurvivorHasNoOrphans(db: Store, actions: seq<Action>, actor: string, a: Id)
    requires Applicable(db, actions) && Active(db, a) && !Withdrawn(db, a)
    ensures OrphanMounts(After(db, actions, actor), a) == []
    ensures Recoveries(After(db, actions, actor), a) == []
    ensures Readable(After(db, actions, actor), a) <==> Readable(db, a) || Recoveries(db, a) != []
  {
    hide Withdrawn, Listed, Plan, After, Recoveries;
    var d := After(db, actions, actor);
    Survivors(db, actions, actor, a);
    if OrphanMounts(d, a) != [] {
      var m := OrphanMounts(d, a)[0];
      FilterExact(d.mountOrder, x => IsOrphanMount(d, a, x), m);
      SurvivorMounts(db, actions, actor, a, m);
    }
    ReadableExact(d, a);
    ReadableExact(db, a);
    RecoveryMounts(db, a);
    if m :| IsValidMount(d, a, m) {
      SurvivorMounts(db, actions, actor, a, m);
    }
    if m :| IsValidMount(db, a, m) {
      SurvivorMounts(db, actions, actor, a, m);
    }
    if Recoveries(db, a) != [] {
      var r := Recoveries(db, a)[0];
      assert r in Recoveries(db, a);
      SurvivorMounts(db, actions, actor, a, r.mount);
    }
  }

  /**
   Clean-up loses nothing. Every archive that an accepted report withdraws gives way to a
   linked archive of the same tenant that stays active and can be read afterwards, and that
   could already be read if the withdrawn one could. What stays active misses no file any
   more, and nothing else changes.
   */
  lemma NothingLost(db: Store, report: Report, actor: string, a: Id)
    requires Keyed(db) && Verdict(db, report) == None && a in db.archives
    ensures var d := After(db, report.actions, actor);
            && Keyed(d) && d.archives.Keys == db.archives.Keys && d.assets == db.assets && d.events == db.events
            && (Active(db, a) && !Active(d, a) ==>
                  var c := KeptFor(db, a);
                  && c != a && Active(d, c) && Readable(d, c) && Linked(KeysOf(db), a, c)
                  && db.archives[c].tenant == db.archives[a].tenant
                  && (Readable(db, a) ==> Readable(db, c)))
            && (Active(d, a) ==> Active(db, a) && OrphanMounts(d, a) == [] && d.archives[a] == db.archives[a]
                                 && (Readable(db, a) ==> Readable(d, a)))
            && (!Active(db, a) ==> d.archives[a] == db.archives[a])
  {
    hide Plan, Listed, After, Ready, Canonical, Recoveries;
    var actions := report.actions;
    var d := After(db, actions, actor);
    assert Applicable(db, actions);
    Survivors(db, actions, actor, a);
    AfterFields(db, actions, actor, a);
    if Active(d, a) {
      SurvivorHasNoOrphans(db, actions, actor, a);
      WithdrawsExact(db, actions, a);
    } else if Active(db, a) {
      KeptIsGood(db, actions, actor, a);
    } else {
      WithdrawsExact(db, actions, a);
    }
  }

  lemma AfterFields(db: Store, actions: seq<Action>, actor: string, a: Id)
    ensures var d := After(db, actions, actor);
            && d.archives.Keys == db.archives.Keys && d.mounts.Keys == db.mounts.Keys
            && d.order == db.order && d.mountOrder == db.mountOrder && d.assets == db.assets && d.events == db.events
            && (a in db.archives && !Withdraws(actions, a) ==> d.archives[a] == db.archives[a])
  {
  }

  lemma KeptIsGood(db: Store, actions: seq<Action>, actor: string, a: Id)
    requires Applicable(db, actions) && FirstCrossing(db, actions).None?
    requires Active(db, a) && Withdrawn(db, a)
    ensures var c, d := KeptFor(db, a), After(db, actions, actor);
            && c != a && Active(d, c) && Readable(d, c) && Linked(KeysOf(db), a, c)
            && db.archives[c].tenant == db.archives[a].tenant && (Readable(db, a) ==> Readable(db, c))
  {
    hide Listed, After, Canonical, Recoveries, Members, KeysOf;
    var c := KeptFor(db, a);
    KeptIsKept(db, a);
    Survivors(db, actions, actor, c);
    SurvivorHasNoOrphans(db, actions, actor, c);
    PeersExact(db, a, c);
    PeersArchived(db, a);
    CanonicalIsBest(db, Peers(db, a), a);
    SameTenant(db, actions, a);
  }

  lemma SameTenant(db: Store, actions: seq<Action>, a: Id)
    requires Applicable(db, actions) && FirstCrossing(db, actions).None?
    requires Active(db, a) && Withdrawn(db, a)
    ensures db.archives[KeptFor(db, a)].tenant == db.archives[a].tenant
  {
    hide Recoveries, Canonical, Before;
    PlannedKind(db, a);
    PlannedIsSane(db, a);
    assert Plan(db)[a] in actions;
  }

  // ------------------------------------------------------------ convergence

  /** Survivors keep their identity keys: a relinked file brings the hash already counted. */
  lemma SurvivorKeys(db: Store, actions: seq<Action>, actor: string, a: Id)
    requires Applicable(db, actions) && Active(db, a) && !Withdrawn(db, a)
    ensures var d := After(db, actions, actor);
            a in d.archives && d.archives[a] == db.archives[a] && IdentityKeys(d, a) == IdentityKeys(db, a)
  {
    hide Withdrawn, Listed, Plan, Hashes;
    var d := After(db, actions, actor);
    WithdrawsExact(db, actions, a);
    SurvivorHashes(db, actions, actor, a);
    assert Urls(d, a) == Urls(db, a) by {
      forall m | m in db.mounts
        ensures m in d.mounts && d.mounts[m].archive == db.mounts[m].archive && d.mounts[m].url == db.mounts[m].url
      {
      }
    }
  }

  lemma HashesExact(db: Store, a: Id, h: string)
    requires Keyed(db) && a in db.archives
    ensures h in Hashes(db, a) <==>
            || (exists m :: IsValidMount(db, a, m) && db.assets[db.mounts[m].file.value].sha == h)
            || (exists m, f :: IsOrphanMount(db, a, m) && Candidates(db, db.archives[a], db.mounts[m]) == {f}
                               && db.assets[f].sha == h)
  {
    hide Candidates, Recoveries, IsOrphanMount;
    var p := (m: Id) => IsValidMount(db, a, m);
    forall m
      ensures m in ValidMounts(db, a) <==> m in db.mountOrder && IsValidMount(db, a, m)
    {
      FilterExact(db.mountOrder, p, m);
    }
    UniqueRecoveries(db, a, h);
  }

  lemma UniqueRecoveries(db: Store, a: Id, h: string)
    requires Keyed(db) && a in db.archives
    ensures (exists r, f :: r in Recoveries(db, a) && |r.candidates| == 1 && f in r.candidates && f in db.assets
                            && db.assets[f].sha == h)
       <==> (exists m, f :: IsOrphanMount(db, a, m) && Candidates(db, db.archives[a], db.mounts[m]) == {f}
                            && db.assets[f].sha == h)
  {
    hide Candidates, Keyed;
    if r, f :|
      r in Recoveries(db, a) && |r.candidates| == 1 && f in r.candidates && f in db.assets && db.assets[f].sha == h {
      RecoveryIsOrphan(db, a, r);
      assert |r.candidates - {f}| == 0;
      assert Candidates(db, db.archives[a], db.mounts[r.mount]) == {f};
    }
    if m, f :| IsOrphanMount(db, a, m) && Candidates(db, db.archives[a], db.mounts[m]) == {f} && db.assets[f].sha == h {
      RecoveryMounts(db, a);
      var r :| r in Recoveries(db, a) && r.mount == m;
      RecoveryIsOrphan(db, a, r);
      assert r.candidates == {f};
    }
  }

  lemma RecoveryIsOrphan(db: Store, a: Id, r: Recovery)
    requires a in db.archives && r in Recoveries(db, a)
    ensures IsOrphanMount(db, a, r.mount) && r == RecoveryOf(db, a, r.mount)
    ensures r.candidates == Candidates(db, db.archives[a], db.mounts[r.mount])
  {
    hide Candidates, EvidenceOf;
  }

  lemma SurvivorHashes(db: Store, actions: seq<Action>, actor: string, a: Id)
    requires Applicable(db, actions) && Active(db, a) && !Withdrawn(db, a)
    ensures a in After(db, actions, actor).archives
    ensures Hashes(After(db, actions, actor), a) == Hashes(db, a)
  {
    hide Withdrawn, Listed, Plan, After, Hashes, Candidates, Replacement;
    var d := After(db, actions, actor);
    Survivors(db, actions, actor, a);
    AfterFields(db, actions, actor, a);
    forall h
      ensures h in Hashes(d, a) <==> h in Hashes(db, a)
    {
      HashesExact(db, a, h);
      HashesExact(d, a, h);
      forall m
        ensures IsValidMount(db, a, m) || IsOrphanMount(db, a, m) || IsValidMount(d, a, m) || IsOrphanMount(d, a, m) ==>
                  SurvivorMountFacts(db, d, a, m)
      {
        SurvivorMounts(db, actions, actor, a, m);
      }
    }
  }

  ghost predicate SurvivorMountFacts(db: Store, d: Store, a: Id, m: Id) {
    && a in db.archives && m in db.mounts && m in d.mounts
    && !IsOrphanMount(d, a, m)
    && (IsValidMount(d, a, m) <==> IsValidMount(db, a, m) || IsOrphanMount(db, a, m))
    && (IsValidMount(db, a, m) ==> d.mounts[m] == db.mounts[m])
    && (IsOrphanMount(db, a, m) ==> d.mounts[m].file == Some(Replacement(db, m)) && Replacement(db, m) in db.assets
                                    && Candidates(db, db.archives[a], db.mounts[m]) == {Replacement(db, m)})
  }

  /** Any two linked active archives have the same tenant. */
  ghost predicate OneTenantPerGroup(db: Store) {
    forall a, b :: Active(db, a) && Active(db, b) && Linked(KeysOf(db), a, b) ==>
                     db.archives[a].tenant == db.archives[b].tenant
  }

  ghost predicate NothingMissing(db: Store) {
    forall a :: Active(db, a) ==> Recoveries(db, a) == []
  }

  /** Applying a plan links no archives that were not linked before. */
  lemma LinksOnlyShrink(db: Store, actions: seq<Action>, actor: string, a: Id, b: Id)
    requires Applicable(db, actions)
    requires Linked(KeysOf(After(db, actions, actor)), a, b)
    ensures Linked(KeysOf(db), a, b)
  {
    hide Linked, IdentityKeys, Withdrawn, Plan, Listed, After;
    var d := After(db, actions, actor);
    forall x | x in KeysOf(d)
      ensures x in KeysOf(db) && KeysOf(d)[x] <= KeysOf(db)[x]
    {
      Survivors(db, actions, actor, x);
      SurvivorKeys(db, actions, actor, x);
    }
    LinkedMonotone(KeysOf(d), KeysOf(db), a, b);
  }

  /** After one application no active archive misses a file, and groups still have one tenant. */
  lemma AfterFirst(db: Store, actions: seq<Action>, actor: string)
    requires Applicable(db, actions)
    ensures Keyed(After(db, actions, actor)) && NothingMissing(After(db, actions, actor))
    ensures OneTenantPerGroup(db) ==> OneTenantPerGroup(After(db, actions, actor))
  {
    hide Linked, KeysOf, Recoveries, Withdrawn, Plan, Listed, After;
    var d := After(db, actions, actor);
    Survivors(db, actions, actor, "");
    forall a | Active(d, a)
      ensures Recoveries(d, a) == []
    {
      Survivors(db, actions, actor, a);
      SurvivorHasNoOrphans(db, actions, actor, a);
    }
    if OneTenantPerGroup(db) {
      forall a, b | Active(d, a) && Active(d, b) && Linked(KeysOf(d), a, b)
        ensures d.archives[a].tenant == d.archives[b].tenant
      {
        LinksOnlyShrink(db, actions, actor, a, b);
        Survivors(db, actions, actor, a);
        Survivors(db, actions, actor, b);
        SurvivorKeys(db, actions, actor, a);
        SurvivorKeys(db, actions, actor, b);
      }
    }
  }

  /** Where no file is missing, a plan only withdraws. */
  lemma NothingMissingOnlyWithdraws(db: Store, actions: seq<Action>)
    requires Keyed(db) && NothingMissing(db) && Listed(actions, Plan(db))
    ensures Applicable(db, actions) && forall x :: x in actions ==> x.kind == WithdrawDuplicate
  {
    hide Recoveries, Withdrawn, Plan, Before;
    forall x | x in actions
      ensures x.kind == WithdrawDuplicate
    {
      PlannedIsSane(db, x.archive);
      PlannedKind(db, x.archive);
    }
  }

  /** Where no file is missing, applying a plan leaves nothing further to do. */
  lemma NothingMissingSettles(db: Store, actions: seq<Action>, actor: string)
    requires NothingMissing(db) && Applicable(db, actions)
    ensures Keyed(After(db, actions, actor)) && Plan(After(db, actions, actor)) == map[]
  {
    hide Recoveries, Listed, After, Withdrawn, KeptFor;
    var d := After(db, actions, actor);
    AfterFirst(db, actions, actor);
    forall a | a in Plan(d)
      ensures false
    {
      PlannedKind(d, a);
      TwoSurvivorsAreUnreadable(db, actions, actor, a);
    }
  }

  lemma TwoSurvivorsAreUnreadable(db: Store, actions: seq<Action>, actor: string, a: Id)
    requires NothingMissing(db) && Applicable(db, actions)
    requires Keyed(After(db, actions, actor)) && NothingMissing(After(db, actions, actor))
    requires Active(After(db, actions, actor), a)
    ensures !Withdrawn(After(db, actions, actor), a)
  {
    hide Recoveries, Listed, Plan, After, Canonical, Members, KeysOf;
    var d := After(db, actions, actor);
    var c := KeptFor(d, a);
    if c != a && Ready(d, c) {
      PeersExact(d, a, c);
      LinksOnlyShrink(db, actions, actor, a, c);
      Survivors(db, actions, actor, a);
      Survivors(db, actions, actor, c);
      SurvivorHasNoOrphans(db, actions, actor, c);
      var k := KeptFor(db, a);
      PeersArchived(db, a);
      PeersExact(db, a, c);
      MembersOfLinked(ActiveOrder(db), KeysOf(db), a, c);
      CanonicalIsBest(db, Peers(db, a), c);
      assert false;
    }
  }

  lemma AcceptedIfOneTenant(db: Store, actions: seq<Action>)
    requires Applicable(db, actions) && OneTenantPerGroup(db)
    ensures Verdict(db, Report(true, 0, actions)) == if actions == [] then Some(NoActions) else None
  {
    hide Recoveries, Withdrawn, KeptFor, Plan, Before, Linked, KeysOf;
    ListedIsConsistent(db, actions);
    forall x | x in actions
      ensures !CrossesTenants(db, x)
    {
      PlannedIsSane(db, x.archive);
      if x.kind == WithdrawDuplicate {
        PeersExact(db, x.archive, KeptFor(db, x.archive));
      }
    }
  }
}
