/**
 Applying an approved report. The applier rebuilds the plan, refuses any difference from
 the approved one, then withdraws and relinks one action at a time with re-checks in the
 loop. `Verdict` says exactly which reports are refused and why; `After` says what the
 database looks like once an accepted one has been applied.
 */
module CleanupApply {
  import opened Catalogue
  import opened CleanupReport

  datatype Report = Report(readOnly: bool, mutations: int, actions: seq<Action>)

  datatype Error =
    | NotADryRun
    | NoActions
    | UnsupportedActions
    | DuplicateArchiveActions
    | PlanDrifted
    | TenantMismatch(archive: Id)

  datatype Result<+T> = Success(value: T) | Failure(error: Error)

  // One archive event; the audit log repeats it and the outbox refers to it.
  datatype Logged =
    | ArchiveWithdrawn(archive: Id, actor: string, wasCurrent: bool, canonical: Id, report: string)
    | FileAttached(archive: Id, actor: string, mount: Id, wasFile: Option<Id>, wasLinkedBy: string,
                   file: Id, evidence: Evidence, report: string)

  datatype Receipt = Receipt(withdrawals: nat, relinks: nat, affected: seq<Id>, relinked: seq<Id>)

  // ------------------------------------------------------------ specification

  predicate Supported(x: Action) {
    x.kind == WithdrawDuplicate || x.kind == RelinkOrphan
  }

  /** The archive that `x` keeps and the one it withdraws have different tenants. */
  predicate CrossesTenants(db: Store, x: Action) {
    && x.kind == WithdrawDuplicate && x.canonical.Some?
    && x.archive in db.archives && x.canonical.value in db.archives
    && db.archives[x.canonical.value].tenant != db.archives[x.archive].tenant
  }

  function FirstCrossing(db: Store, actions: seq<Action>): (r: Option<Id>)
    ensures r.None? <==> forall x :: x in actions ==> !CrossesTenants(db, x)
  {
    if actions == [] then None
    else if CrossesTenants(db, actions[0]) then Some(actions[0].archive)
    else
      assert forall x :: x in actions <==> x == actions[0] || x in actions[1..];
      FirstCrossing(db, actions[1..])
  }

  /** Why a report is refused, in the order of the checks; `None` when it is applied. */
  ghost function Verdict(db: Store, report: Report): Option<Error>
    requires Keyed(db)
  {
    if !report.readOnly || report.mutations != 0 then Some(NotADryRun)
    else if report.actions == [] then Some(NoActions)
    else if exists x :: x in report.actions && !Supported(x) then Some(UnsupportedActions)
    else if exists i, j :: 0 <= i < j < |report.actions| && report.actions[i].archive == report.actions[j].archive then
      Some(DuplicateArchiveActions)
    else if !Listed(report.actions, Plan(db)) then Some(PlanDrifted)
    else if FirstCrossing(db, report.actions).Some? then Some(TenantMismatch(FirstCrossing(db, report.actions).value))
    else None
  }

  /** The candidate of a unique recovery. */
  ghost function Only(s: set<Id>): (x: Id)
    requires s != {}
    ensures x in s
  {
    var x :| x in s; x
  }

  lemma OnlyMember(s: set<Id>, x: Id)
    requires |s| == 1 && x in s
    ensures Only(s) == x
  {
    assert |s - {x}| == 0;
    assert s == {x};
  }

  ghost predicate Withdraws(actions: seq<Action>, a: Id) {
    exists x :: x in actions && x.kind == WithdrawDuplicate && x.archive == a
  }

  /** Mount `m` is a missing reference of an archive that the actions relink. */
  ghost predicate Relinks(db: Store, actions: seq<Action>, m: Id) {
    exists x :: x in actions && x.kind == RelinkOrphan && IsOrphanMount(db, x.archive, m)
  }

  ghost function AfterArchive(db: Store, actions: seq<Action>, a: Id): Archive
    requires a in db.archives
  {
    if Withdraws(actions, a) then db.archives[a].(withdrawn := true, current := false) else db.archives[a]
  }

  /** The one asset that can stand in for the file that `m` misses. */
  ghost function Replacement(db: Store, m: Id): Id
    requires m in db.mounts
  {
    var mount := db.mounts[m];
    if mount.archive in db.archives && Candidates(db, db.archives[mount.archive], mount) != {} then
      Only(Candidates(db, db.archives[mount.archive], mount))
    else ""
  }

  ghost function AfterMount(db: Store, actions: seq<Action>, actor: string, m: Id): Mount
    requires m in db.mounts
  {
    if Relinks(db, actions, m) then db.mounts[m].(file := Some(Replacement(db, m)), linkedBy := actor)
    else db.mounts[m]
  }

  /** The database once `actions` have been carried out. */
  ghost function After(db: Store, actions: seq<Action>, actor: string): Store {
    db.(archives := map a | a in db.archives :: AfterArchive(db, actions, a),
        mounts := map m | m in db.mounts :: AfterMount(db, actions, actor, m))
  }

  /** What one action logs. */
  ghost function EventsOf(db: Store, x: Action, actor: string, sha: string): seq<Logged>
    requires x.archive in db.archives
    requires forall r :: r in x.refs ==> r.mount in db.mounts
  {
    if x.kind == WithdrawDuplicate then
      [ArchiveWithdrawn(x.archive, actor, db.archives[x.archive].current,
                        if x.canonical.Some? then x.canonical.value else "", sha)]
    else
      seq(|x.refs|, i requires 0 <= i < |x.refs| => AttachedEvent(db, x, x.refs[i], actor, sha))
  }

  ghost function AttachedEvent(db: Store, x: Action, r: Recovery, actor: string, sha: string): Logged
    requires r.mount in db.mounts
  {
    FileAttached(x.archive, actor, r.mount, db.mounts[r.mount].file, db.mounts[r.mount].linkedBy,
                 Replacement(db, r.mount), r.evidence, sha)
  }

  ghost predicate Loggable(db: Store, actions: seq<Action>) {
    forall x :: x in actions ==> x.archive in db.archives && forall r :: r in x.refs ==> r.mount in db.mounts
  }

  ghost function AllEvents(db: Store, actions: seq<Action>, actor: string, sha: string): seq<Logged>
    requires Loggable(db, actions)
  {
    if actions == [] then []
    else AllEvents(db, actions[..|actions| - 1], actor, sha) + EventsOf(db, actions[|actions| - 1], actor, sha)
  }

  /** How many archives the actions withdraw, and how many references they relink. */
  ghost function Withdrawals(actions: seq<Action>): nat {
    if actions == [] then 0
    else Withdrawals(actions[..|actions| - 1]) + if actions[|actions| - 1].kind == WithdrawDuplicate then 1 else 0
  }

  ghost function RelinkedMounts(actions: seq<Action>): seq<Id> {
    if actions == [] then []
    else
      var x := actions[|actions| - 1];
      RelinkedMounts(actions[..|actions| - 1])
      + if x.kind == WithdrawDuplicate then [] else MountsOf(x.refs)
  }

  ghost function ReceiptFor(actions: seq<Action>): Receipt {
    Receipt(Withdrawals(actions), |RelinkedMounts(actions)|, ArchivesOf(actions), RelinkedMounts(actions))
  }

  ghost function ArchivesOf(actions: seq<Action>): seq<Id> {
    if actions == [] then [] else ArchivesOf(actions[..|actions| - 1]) + [actions[|actions| - 1].archive]
  }

  /** One event per withdrawn archive and one per relinked reference. */
  lemma {:induction false} EventsCounted(db: Store, actions: seq<Action>, actor: string, sha: string)
    requires Loggable(db, actions)
    ensures |AllEvents(db, actions, actor, sha)| == Withdrawals(actions) + |RelinkedMounts(actions)|
  {
    if actions == [] {
    } else {
      EventsCounted(db, actions[..|actions| - 1], actor, sha);
    }
  }

  // --------------------------------------------------- facts about the plan

  /** The archive kept for a group is kept for itself: no canonical archive is ever withdrawn. */
  lemma KeptIsKept(db: Store, a: Id)
    requires Keyed(db) && Active(db, a)
    ensures KeptFor(db, KeptFor(db, a)) == KeptFor(db, a)
    ensures !Withdrawn(db, KeptFor(db, a))
  {
    var c := KeptFor(db, a);
    PeersExact(db, a, c);
    Components.MembersOfLinked(ActiveOrder(db), KeysOf(db), a, c);
  }

  /** What the apply loop needs to know about one action of the plan. */
  ghost predicate Sane(db: Store, x: Action) {
    && Active(db, x.archive) && x.refs == Recoveries(db, x.archive)
    && (if x.kind == WithdrawDuplicate then x.canonical.Some? && Active(db, x.canonical.value) else x.canonical.None?)
    && (x.kind == RelinkOrphan ==> x.refs != [] && AllUnique(x.refs))
  }

  lemma PlannedIsSane(db: Store, a: Id)
    requires Keyed(db) && a in Plan(db)
    ensures Plan(db)[a].archive == a && Sane(db, Plan(db)[a])
    ensures Plan(db)[a].kind == WithdrawDuplicate ==>
              Withdrawn(db, a) && Plan(db)[a].canonical == Some(KeptFor(db, a))
    ensures Plan(db)[a].kind == RelinkOrphan ==> !Readable(db, a)
  {
  }

  lemma {:induction false} FirstCrossingAt(db: Store, actions: seq<Action>, i: nat)
    requires i < |actions| && CrossesTenants(db, actions[i])
    requires forall j :: 0 <= j < i ==> !CrossesTenants(db, actions[j])
    ensures FirstCrossing(db, actions) == Some(actions[i].archive)
  {
    if i == 0 {
    } else {
      FirstCrossingAt(db, actions[1..], i - 1);
    }
  }

  lemma AfterNothing(db: Store, actor: string)
    ensures After(db, [], actor) == db
  {
  }

  /** Carrying out one more withdrawal. */
  lemma AfterWithdrawal(db: Store, done: seq<Action>, x: Action, actor: string)
    requires x.kind == WithdrawDuplicate && x.archive in db.archives
    ensures var d := After(db, done, actor);
            After(db, done + [x], actor)
            == d.(archives := d.archives[x.archive := d.archives[x.archive].(withdrawn := true, current := false)])
  {
    var d, e := After(db, done, actor), After(db, done + [x], actor);
    forall a | a in db.archives
      ensures Withdraws(done + [x], a) <==> Withdraws(done, a) || a == x.archive
    {
      assert forall y :: y in done ==> y in done + [x];
      assert x in done + [x];
    }
    forall m | m in db.mounts
      ensures Relinks(db, done + [x], m) <==> Relinks(db, done, m)
    {
      assert forall y :: y in done ==> y in done + [x];
    }
    assert e.mounts == d.mounts;
  }

  /** Carrying out one more relink action touches exactly the missing references of its archive. */
  lemma AfterRelink(db: Store, done: seq<Action>, x: Action, actor: string)
    requires x.kind == RelinkOrphan
    ensures var d := After(db, done, actor);
            After(db, done + [x], actor)
            == d.(mounts := Replaced(db, d.mounts, (iset m | IsOrphanMount(db, x.archive, m)), actor))
  {
    hide Replacement;
    var d, e := After(db, done, actor), After(db, done + [x], actor);
    forall a | a in db.archives
      ensures Withdraws(done + [x], a) <==> Withdraws(done, a)
    {
      assert forall y :: y in done ==> y in done + [x];
    }
    assert e.archives == d.archives;
    forall m | m in db.mounts
      ensures Relinks(db, done + [x], m) <==> Relinks(db, done, m) || IsOrphanMount(db, x.archive, m)
    {
      assert forall y :: y in done ==> y in done + [x];
      assert x in done + [x];
    }
  }

  lemma RecoveryMounts(db: Store, a: Id)
    requires Keyed(db) && a in db.archives
    ensures forall m :: IsOrphanMount(db, a, m) <==> exists r :: r in Recoveries(db, a) && r.mount == m
    ensures forall i, j :: 0 <= i < j < |Recoveries(db, a)| ==>
                             Recoveries(db, a)[i].mount != Recoveries(db, a)[j].mount
  {
    var refs, orphans := Recoveries(db, a), OrphanMounts(db, a);
    var p := (m: Id) => IsOrphanMount(db, a, m);
    FilterNoRepeats(db.mountOrder, p);
    forall m
      ensures IsOrphanMount(db, a, m) <==> exists r :: r in refs && r.mount == m
    {
      FilterExact(db.mountOrder, p, m);
      if IsOrphanMount(db, a, m) {
        var i :| 0 <= i < |orphans| && orphans[i] == m;
        assert refs[i] in refs;
      }
    }
  }

  // ------------------------------------------------------------ the applier

  class Session {
    var db: Store
    var events: seq<Logged>
    // Positions in `events` that still have to be delivered.
    var outbox: seq<nat>
    var audit: seq<Logged>

    constructor (db: Store)
      ensures this.db == db && events == [] && outbox == [] && audit == []
    {
      this.db, events, outbox, audit := db, [], [], [];
    }

    method AddEvent(e: Logged)
      modifies this`events, this`outbox, this`audit
      ensures events == old(events) + [e] && outbox == old(outbox) + [|old(events)|] && audit == old(audit) + [e]
    {
      outbox := outbox + [|events|];
      events := events + [e];
      audit := audit + [e];
    }

    /** One outbox row and one audit row per event, from some starting point on. */
    ghost predicate Delivered(n: nat, outbox0: seq<nat>, audit0: seq<Logged>)
      reads this
    {
      && |events| >= n
      && outbox == outbox0 + seq(|events| - n, i requires 0 <= i => n + i)
      && audit == audit0 + events[n..]
    }

    /** Withdraws one duplicate; fails only when the kept archive has another tenant. */
    method Withdraw(x: Action, actor: string, sha: string) returns (ok: bool)
      requires x.kind == WithdrawDuplicate && x.canonical.Some?
      requires Active(db, x.archive) && Active(db, x.canonical.value)
      modifies this
      ensures ok <==> !CrossesTenants(old(db), x)
      ensures !ok ==> db == old(db) && events == old(events) && outbox == old(outbox) && audit == old(audit)
      ensures ok ==>
        && db == old(db).(archives :=
             old(db).archives[x.archive := old(db).archives[x.archive].(withdrawn := true, current := false)])
        && events == old(events) +
             [ArchiveWithdrawn(x.archive, actor, old(db).archives[x.archive].current, x.canonical.value, sha)]
        && outbox == old(outbox) + [|old(events)|]
        && audit == old(audit) + events[|old(events)|..]
    {
      var archive := db.archives[x.archive];
      if db.archives[x.canonical.value].tenant != archive.tenant {
        return false;
      }
      db := db.(archives := db.archives[x.archive := archive.(withdrawn := true, current := false)]);
      AddEvent(ArchiveWithdrawn(x.archive, actor, archive.current, x.canonical.value, sha));
      return true;
    }

    /** Points one missing reference at its replacement; none of the checks can fail. */
    method RelinkOne(x: Action, i: nat, actor: string, sha: string, ghost db0: Store)
      requires Keyed(db0) && Sane(db0, x) && x.kind == RelinkOrphan && i < |x.refs|
      requires db.assets == db0.assets
      requires x.archive in db.archives && db.archives[x.archive].tenant == db0.archives[x.archive].tenant
      requires x.refs[i].mount in db.mounts && x.refs[i].mount in db0.mounts
      requires db.mounts[x.refs[i].mount] == db0.mounts[x.refs[i].mount]
      modifies this
      ensures db == old(db).(mounts := old(db).mounts[x.refs[i].mount := Repaired(db0, x.refs[i].mount, actor)])
      ensures events == old(events) + [AttachedEvent(db0, x, x.refs[i], actor, sha)]
      ensures outbox == old(outbox) + [|old(events)|]
      ensures audit == old(audit) + [AttachedEvent(db0, x, x.refs[i], actor, sha)]
    {
      hide Recoveries, Candidates, Replacement;
      var r := x.refs[i];
      RefIsRecovery(db0, x, i);
      var mounted := db.mounts[r.mount];
      if |r.candidates| != 1 {
        assert false;
      }
      var candidate :| candidate in r.candidates;
      OnlyMember(r.candidates, candidate);
      if mounted.archive != x.archive || mounted.file != Some(r.missing) {
        assert false;
      }
      if db.assets[candidate].tenant != db.archives[x.archive].tenant {
        assert false;
      }
      db := db.(mounts := db.mounts[r.mount := mounted.(file := Some(candidate), linkedBy := actor)]);
      AddEvent(FileAttached(x.archive, actor, r.mount, mounted.file, mounted.linkedBy, candidate, r.evidence, sha));
    }

    /** Gives every missing reference of one archive its replacement. */
    method Relink(x: Action, actor: string, sha: string, ghost db0: Store)
      requires Keyed(db0) && Sane(db0, x) && x.kind == RelinkOrphan
      requires db.assets == db0.assets && db.mounts.Keys == db0.mounts.Keys
      requires x.archive in db.archives && db.archives[x.archive].tenant == db0.archives[x.archive].tenant
      requires forall m :: IsOrphanMount(db0, x.archive, m) ==> db.mounts[m] == db0.mounts[m]
      modifies this
      ensures db == old(db).(mounts :=
                Replaced(db0, old(db).mounts, (iset m | IsOrphanMount(db0, x.archive, m)), actor))
      ensures forall r :: r in x.refs ==> r.mount in db0.mounts
      ensures events == old(events) + EventsOf(db0, x, actor, sha)
      ensures Delivered(|old(events)|, old(outbox), old(audit))
    {
      hide Recoveries, Candidates, Replacement, Replaced, Repaired, AttachedEvent;
      RefMounts(db0, x);
      ghost var before, events0 := db, events;
      if x.refs == [] {
        assert false;
      }
      hide Active, Heads, EventsOf;
      var i := 0;
      ReplacedNone(db0, before.mounts, actor);
      while i < |x.refs|
        invariant 0 <= i <= |x.refs|
        invariant db == before.(mounts := Replaced(db0, before.mounts, Heads(x.refs[..i]), actor))
        invariant events == events0 + EventsOf(db0, x, actor, sha)[..i]
        invariant Delivered(|events0|, old(outbox), old(audit))
      {
        ReplacedOne(db0, before.mounts, x.refs, i, actor);
        NextEvent(db0, x, actor, sha, i);
        RelinkOne(x, i, actor, sha, db0);
        i := i + 1;
      }
      assert x.refs[..i] == x.refs;
    }

    /** Carries out one action of the plan, unless it crosses tenants. */
    method Carry(actions: seq<Action>, i: nat, actor: string, sha: string, ghost db0: Store) returns (ok: bool)
      requires Keyed(db0) && Consistent(db0, actions) && i < |actions|
      requires db == After(db0, actions[..i], actor)
      modifies this
      ensures ok <==> !CrossesTenants(db0, actions[i])
      ensures ok ==> db == After(db0, actions[..i + 1], actor)
      ensures ok ==> Loggable(db0, actions[..i + 1]) && events == old(events) + EventsOf(db0, actions[i], actor, sha)
      ensures ok ==> Delivered(|old(events)|, old(outbox), old(audit))
    {
      hide Recoveries, After, AfterArchive, AfterMount, Replaced, AttachedEvent, IsOrphanMount;
      var x := actions[i];
      UntouchedSoFar(db0, actions, i, actor);
      ConsistentLoggable(db0, actions, i + 1);
      assert actions[..i + 1] == actions[..i] + [x];
      if x.archive !in db.archives || !Active(db, x.archive) {
        assert false;
      }
      if x.kind == WithdrawDuplicate {
        AfterWithdrawal(db0, actions[..i], x, actor);
        if !Active(db, x.canonical.value) {
          assert false;
        }
        ok := Withdraw(x, actor, sha);
      } else {
        AfterRelink(db0, actions[..i], x, actor);
        Relink(x, actor, sha, db0);
        ok := true;
      }
    }

    /** The rows that are locked before the loop are all there. */
    method LockRows(actions: seq<Action>)
      requires Keyed(db) && Consistent(db, actions)
    {
      hide Recoveries, Candidates;
      if exists x :: x in actions
          && (x.archive !in db.archives || (x.canonical.Some? && x.canonical.value !in db.archives)) {
        assert false;
      }
      if exists x, r :: x in actions && x.kind == RelinkOrphan && r in x.refs && r.mount !in db.mounts {
        assert false;
      }
      if exists x, r, f :: x in actions && x.kind == RelinkOrphan && r in x.refs && f in r.candidates
          && f !in db.assets {
        assert false;
      }
    }

    /** The apply loop: stops at the first action that crosses tenants, if there is one. */
    method CarryAll(actions: seq<Action>, actor: string, sha: string) returns (r: Result<Receipt>)
      requires Keyed(db) && Consistent(db, actions)
      modifies this
      ensures match FirstCrossing(old(db), actions)
              case Some(a) => r == Failure(TenantMismatch(a))
              case None => r.Success?
      ensures r.Success? ==> Carried(old(db), old(events), old(outbox), old(audit), actions, actor, sha)
      ensures r.Success? ==> r.value == ReceiptFor(actions)
    {
      hide Recoveries, After, EventsOf, CrossesTenants, Consistent;
      ghost var db0 := db;
      AfterNothing(db, actor);
      ConsistentLoggable(db0, actions, 0);
      assert actions[..0] == [];
      var withdrawals: nat := 0;
      var affected, relinked := [], [];
      var i := 0;
      while i < |actions|
        invariant 0 <= i <= |actions|
        invariant Carried(db0, old(events), old(outbox), old(audit), actions[..i], actor, sha)
        invariant forall j :: 0 <= j < i ==> !CrossesTenants(db0, actions[j])
        invariant Receipt(withdrawals, |relinked|, affected, relinked) == ReceiptFor(actions[..i])
      {
        var ok := Carry(actions, i, actor, sha, db0);
        if !ok {
          FirstCrossingAt(db0, actions, i);
          return Failure(TenantMismatch(actions[i].archive));
        }
        assert actions[..i + 1][..i] == actions[..i];
        affected := affected + [actions[i].archive];
        if actions[i].kind == WithdrawDuplicate {
          withdrawals := withdrawals + 1;
        } else {
          relinked := relinked + MountsOf(actions[i].refs);
        }
        i := i + 1;
      }
      assert actions[..i] == actions;
      return Success(Receipt(withdrawals, |relinked|, affected, relinked));
    }

    /** The session once `actions` have been carried out from `db0`. */
    ghost predicate Carried(db0: Store, events0: seq<Logged>, outbox0: seq<nat>, audit0: seq<Logged>,
                            actions: seq<Action>, actor: string, sha: string)
      reads this
    {
      && db == After(db0, actions, actor)
      && Loggable(db0, actions) && events == events0 + AllEvents(db0, actions, actor, sha)
      && Delivered(|events0|, outbox0, audit0)
    }

    /**
     The applier. It changes the database exactly when `Verdict` finds nothing against the
     report, and then to exactly what `After` says; none of its other checks can fail.
     */
    method Apply(report: Report, actor: string, sha: string) returns (r: Result<Receipt>)
      requires Keyed(db)
      modifies this
      ensures match r
              case Failure(e) => Verdict(old(db), report) == Some(e)
              case Success(_) => Verdict(old(db), report) == None
      ensures r.Failure? && !r.error.TenantMismatch? ==>
                db == old(db) && events == old(events) && outbox == old(outbox) && audit == old(audit)
      ensures r.Success? ==> Carried(old(db), old(events), old(outbox), old(audit), report.actions, actor, sha)
      ensures r.Success? ==> r.value == ReceiptFor(report.actions)
    {
      hide Recoveries, Plan, Listed, CrossesTenants, Sane, Consistent, Carried, ReceiptFor;
      var actions := report.actions;
      if !report.readOnly || report.mutations != 0 {
        return Failure(NotADryRun);
      }
      if actions == [] {
        return Failure(NoActions);
      }
      if exists x :: x in actions && !Supported(x) {
        return Failure(UnsupportedActions);
      }
      if exists i, j :: 0 <= i < j < |actions| && actions[i].archive == actions[j].archive {
        return Failure(DuplicateArchiveActions);
      }
      var current, ordered := BuildReport(db);
      if Listed(actions, Plan(db)) {
        ListingUnique(ordered, actions, Plan(db));
      }
      if ordered != actions {
        return Failure(PlanDrifted);
      }
      ListedIsConsistent(db, actions);
      LockRows(actions);
      r := CarryAll(actions, actor, sha);
    }

    /** The applier inside its transaction: a refused report leaves no trace. */
    method ApplyAtomically(report: Report, actor: string, sha: string) returns (r: Result<Receipt>)
      requires Keyed(db)
      modifies this
      ensures match r
              case Failure(e) => Verdict(old(db), report) == Some(e)
              case Success(_) => Verdict(old(db), report) == None
      ensures r.Failure? ==>
                db == old(db) && events == old(events) && outbox == old(outbox) && audit == old(audit)
      ensures r.Success? ==> Carried(old(db), old(events), old(outbox), old(audit), report.actions, actor, sha)
      ensures r.Success? ==> r.value == ReceiptFor(report.actions)
    {
      hide Verdict, Carried, ReceiptFor;
      var db0, events0, outbox0, audit0 := db, events, outbox, audit;
      r := Apply(report, actor, sha);
      if r.Failure? {
        db, events, outbox, audit := db0, events0, outbox0, audit0;
      }
    }
  }

  function MountsOf(refs: seq<Recovery>): seq<Id> {
    seq(|refs|, i requires 0 <= i < |refs| => refs[i].mount)
  }

  /** Actions that the loop can carry out in any order without one spoiling another. */
  ghost predicate Consistent(db: Store, actions: seq<Action>) {
    && (forall i :: 0 <= i < |actions| ==> Sane(db, actions[i]) && Supported(actions[i]))
    && (forall i, j :: 0 <= i < j < |actions| ==> actions[i].archive != actions[j].archive)
    && (forall i, j :: 0 <= i < |actions| && 0 <= j < |actions|
                       && actions[i].kind == WithdrawDuplicate && actions[j].kind == WithdrawDuplicate ==>
                         actions[i].canonical.Some? && actions[i].canonical.value != actions[j].archive)
  }

  lemma ListedIsConsistent(db: Store, actions: seq<Action>)
    requires Keyed(db) && Listed(actions, Plan(db)) && forall x :: x in actions ==> Supported(x)
    ensures Consistent(db, actions)
  {
    hide Recoveries, Plan, Sane, Before;
    forall i | 0 <= i < |actions|
      ensures actions[i].archive in Plan(db) && Plan(db)[actions[i].archive] == actions[i]
      ensures Sane(db, actions[i]) && Supported(actions[i])
    {
      assert actions[i] in actions;
      PlannedIsSane(db, actions[i].archive);
    }
    forall i, j | 0 <= i < j < |actions|
      ensures actions[i].archive != actions[j].archive
    {
      BeforeTotal(actions[i], actions[j]);
    }
    forall i, j | 0 <= i < |actions| && 0 <= j < |actions|
                  && actions[i].kind == WithdrawDuplicate && actions[j].kind == WithdrawDuplicate
      ensures actions[i].canonical.Some? && actions[i].canonical.value != actions[j].archive
    {
      PlannedIsSane(db, actions[i].archive);
      PlannedIsSane(db, actions[j].archive);
      KeptIsKept(db, actions[i].archive);
    }
  }

  lemma ConsistentLoggable(db: Store, actions: seq<Action>, i: nat)
    requires Keyed(db) && Consistent(db, actions) && i <= |actions|
    ensures Loggable(db, actions[..i])
  {
    hide Recoveries;
    forall x | x in actions[..i]
      ensures x.archive in db.archives && forall r :: r in x.refs ==> r.mount in db.mounts
    {
      RefMounts(db, x);
    }
  }

  /** Earlier actions leave alone whatever a later action is going to check or change. */
  lemma UntouchedSoFar(db: Store, actions: seq<Action>, i: nat, actor: string)
    requires Keyed(db) && Consistent(db, actions) && i < |actions|
    ensures var x, d := actions[i], After(db, actions[..i], actor);
            && d.assets == db.assets && d.mounts.Keys == db.mounts.Keys
            && Active(d, x.archive) && d.archives[x.archive] == db.archives[x.archive]
            && (x.kind == WithdrawDuplicate ==> Active(d, x.canonical.value))
            && CrossesTenants(d, x) == CrossesTenants(db, x)
            && forall m :: IsOrphanMount(db, x.archive, m) ==> d.mounts[m] == db.mounts[m]
  {
    hide Recoveries, Replacement;
    var x, d := actions[i], After(db, actions[..i], actor);
    assert !Withdraws(actions[..i], x.archive);
    if x.kind == WithdrawDuplicate {
      assert !Withdraws(actions[..i], x.canonical.value);
    }
    forall m | IsOrphanMount(db, x.archive, m)
      ensures d.mounts[m] == db.mounts[m]
    {
      assert !Relinks(db, actions[..i], m);
    }
  }

  ghost function Heads(refs: seq<Recovery>): iset<Id> {
    iset r | r in refs :: r.mount
  }

  ghost function Repaired(db: Store, m: Id, actor: string): Mount
    requires m in db.mounts
  {
    db.mounts[m].(file := Some(Replacement(db, m)), linkedBy := actor)
  }

  /** `mounts` with each of `ms` pointing at its replacement. */
  ghost function Replaced(db: Store, mounts: map<Id, Mount>, ms: iset<Id>, actor: string): map<Id, Mount> {
    map m | m in mounts :: if m in ms && m in db.mounts then Repaired(db, m, actor) else mounts[m]
  }

  lemma ReplacedNone(db: Store, mounts: map<Id, Mount>, actor: string)
    ensures Replaced(db, mounts, Heads([]), actor) == mounts
  {
  }

  lemma NextEvent(db: Store, x: Action, actor: string, sha: string, i: nat)
    requires x.archive in db.archives && x.kind != WithdrawDuplicate && forall r :: r in x.refs ==> r.mount in db.mounts
    requires i < |x.refs|
    ensures |EventsOf(db, x, actor, sha)| == |x.refs|
    ensures EventsOf(db, x, actor, sha)[..i + 1]
         == EventsOf(db, x, actor, sha)[..i] + [AttachedEvent(db, x, x.refs[i], actor, sha)]
  {
    hide AttachedEvent;
  }

  lemma ReplacedOne(db: Store, mounts: map<Id, Mount>, refs: seq<Recovery>, i: nat, actor: string)
    requires i < |refs| && refs[i].mount in mounts && refs[i].mount in db.mounts
    requires forall j :: 0 <= j < i ==> refs[j].mount != refs[i].mount
    ensures var now := Replaced(db, mounts, Heads(refs[..i]), actor);
            && refs[i].mount in now && now[refs[i].mount] == mounts[refs[i].mount]
            && Replaced(db, mounts, Heads(refs[..i + 1]), actor)
               == now[refs[i].mount := Repaired(db, refs[i].mount, actor)]
  {
    hide Repaired;
    assert refs[..i + 1] == refs[..i] + [refs[i]];
    assert Heads(refs[..i + 1]) == Heads(refs[..i]) + iset{refs[i].mount};
    assert refs[i].mount !in Heads(refs[..i]);
  }

  lemma RefMounts(db: Store, x: Action)
    requires Keyed(db) && Sane(db, x)
    ensures Heads(x.refs) == iset m | IsOrphanMount(db, x.archive, m)
    ensures forall i :: 0 <= i < |x.refs| ==> IsOrphanMount(db, x.archive, x.refs[i].mount)
    ensures forall i, j :: 0 <= i < j < |x.refs| ==> x.refs[i].mount != x.refs[j].mount
  {
    hide Recoveries;
    RecoveryMounts(db, x.archive);
    forall i | 0 <= i < |x.refs|
      ensures IsOrphanMount(db, x.archive, x.refs[i].mount)
    {
      assert x.refs[i] in x.refs;
    }
  }

  /** A reference of a relink action is an orphan mount with one candidate, stored and of the right tenant. */
  lemma RefIsRecovery(db: Store, x: Action, i: nat)
    requires Keyed(db) && Sane(db, x) && x.kind == RelinkOrphan && i < |x.refs|
    ensures IsOrphanMount(db, x.archive, x.refs[i].mount) && |x.refs[i].candidates| == 1
    ensures Replacement(db, x.refs[i].mount) == Only(x.refs[i].candidates)
    ensures db.mounts[x.refs[i].mount].file == Some(x.refs[i].missing)
    ensures forall f :: f in x.refs[i].candidates ==>
                          f in db.assets && db.assets[f].tenant == db.archives[x.archive].tenant
    ensures forall j :: 0 <= j < i ==> x.refs[j].mount != x.refs[i].mount
  {
    RecoveryMounts(db, x.archive);
    assert x.refs[i] in x.refs;
  }
}
