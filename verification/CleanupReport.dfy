/**
 The read-only clean-up plan: which archives are withdrawn as duplicates of which, and
 which missing file references are repaired. The plan is stated on key-linked groups;
 `BuildReport` computes it the way the planner does.
 */
module CleanupReport {
  import opened Catalogue
  import opened Components

  // -------------------------------------------------- recovery candidates

  // What the search for a missing file went by; the report lists both sets in sorted order.
  datatype Evidence = Evidence(prefixes: set<string>, urls: set<string>)

  datatype Recovery = Recovery(mount: Id, missing: Id, candidates: set<Id>, evidence: Evidence)

  predicate Related(db: Store, m: Mount, e: Id) {
    e in db.events && (m.event == Some(e) || m.file == Some(db.events[e].file))
  }

  function Prefixes(db: Store, m: Mount): set<string> {
    set e | e in db.events && Related(db, m, e) && db.events[e].prefix.Some? :: db.events[e].prefix.value
  }

  function ByPrefix(db: Store, a: Archive, m: Mount): set<Id> {
    set f | f in db.assets && db.assets[f].prefix in Prefixes(db, m) && db.assets[f].tenant == a.tenant
  }

  function OrphanUrls(db: Store, a: Archive, m: Mount): set<string> {
    {m.url, a.url} + (set e | e in db.events && Related(db, m, e) :: db.events[e].url) - {""}
  }

  function ByUrl(db: Store, a: Archive, m: Mount): set<Id> {
    set e | e in db.events && db.events[e].url in OrphanUrls(db, a, m) && db.events[e].file in db.assets
            && db.assets[db.events[e].file].tenant == a.tenant :: db.events[e].file
  }

  /** Assets that could stand in for a missing file: by hash prefix, else by URL. */
  function Candidates(db: Store, a: Archive, m: Mount): (r: set<Id>)
    ensures forall f :: f in r ==> f in db.assets && db.assets[f].tenant == a.tenant
  {
    if ByPrefix(db, a, m) != {} then ByPrefix(db, a, m) else ByUrl(db, a, m)
  }

  predicate SharesPrefix(db: Store, a: Archive, m: Mount, f: Id) {
    f in db.assets && db.assets[f].tenant == a.tenant && db.assets[f].prefix in Prefixes(db, m)
  }

  predicate SharesUrl(db: Store, a: Archive, m: Mount, f: Id) {
    f in db.assets && db.assets[f].tenant == a.tenant
    && exists e :: e in db.events && db.events[e].file == f && db.events[e].url in OrphanUrls(db, a, m)
  }

  /** URLs count only when no hash prefix leads to an asset of the tenant. */
  lemma CandidatesExact(db: Store, a: Archive, m: Mount, f: Id)
    ensures f in Candidates(db, a, m) <==>
            SharesPrefix(db, a, m, f) || (SharesUrl(db, a, m, f) && forall g :: !SharesPrefix(db, a, m, g))
  {
    hide Prefixes, OrphanUrls;
    assert forall g :: g in ByPrefix(db, a, m) <==> SharesPrefix(db, a, m, g);
    assert f in ByUrl(db, a, m) <==> SharesUrl(db, a, m, f);
  }

  /** URLs are evidence only when they are looked at. */
  function EvidenceOf(db: Store, a: Archive, m: Mount): Evidence {
    Evidence(Prefixes(db, m), if ByPrefix(db, a, m) != {} then {} else OrphanUrls(db, a, m))
  }

  function RecoveryOf(db: Store, a: Id, m: Id): Recovery
    requires a in db.archives && IsOrphanMount(db, a, m)
  {
    var mount := db.mounts[m];
    Recovery(m, mount.file.value, Candidates(db, db.archives[a], mount), EvidenceOf(db, db.archives[a], mount))
  }

  function Recoveries(db: Store, a: Id): (r: seq<Recovery>)
    requires a in db.archives
    ensures |r| == |OrphanMounts(db, a)|
    ensures forall i :: 0 <= i < |r| ==> IsOrphanMount(db, a, OrphanMounts(db, a)[i])
                                         && r[i] == RecoveryOf(db, a, OrphanMounts(db, a)[i])
  {
    var orphans := OrphanMounts(db, a);
    assert forall i :: 0 <= i < |orphans| ==> IsOrphanMount(db, a, orphans[i]) by {
      forall i | 0 <= i < |orphans|
        ensures IsOrphanMount(db, a, orphans[i])
      {
        FilterExact(db.mountOrder, m => IsOrphanMount(db, a, m), orphans[i]);
      }
    }
    seq(|orphans|, i requires 0 <= i < |orphans| => RecoveryOf(db, a, orphans[i]))
  }

  predicate AllUnique(refs: seq<Recovery>) {
    forall r :: r in refs ==> |r.candidates| == 1
  }

  // -------------------------------------------------------- identity keys

  function Urls(db: Store, a: Id): set<string>
    requires a in db.archives
  {
    ({db.archives[a].url} + set m | m in db.mounts && db.mounts[m].archive == a :: db.mounts[m].url) - {""}
  }

  function Hashes(db: Store, a: Id): set<string>
    requires a in db.archives
  {
    (set m | m in ValidMounts(db, a) && IsValidMount(db, a, m) :: db.assets[db.mounts[m].file.value].sha)
    + (set r, f | r in Recoveries(db, a) && |r.candidates| == 1 && f in r.candidates
        && f in db.assets :: db.assets[f].sha)
  }

  function KeyString(kind: string, a: Archive, value: string): string {
    kind + "|" + a.region + "|" + a.period + "|" + a.titleKey + "|" + value
  }

  /** Archives without region, period or title are never compared. */
  function IdentityKeys(db: Store, a: Id): set<string>
    requires a in db.archives
  {
    var r := db.archives[a];
    if r.region == "" || r.period == "" || r.titleKey == "" then {}
    else (set u | u in Urls(db, a) :: KeyString("url", r, u)) + (set h | h in Hashes(db, a) :: KeyString("sha", r, h))
  }

  function KeysOf(db: Store): KeyMap {
    map a | a in db.archives && Active(db, a) :: IdentityKeys(db, a)
  }

  // ----------------------------------------------------- canonical choice

  datatype Score = Score(readable: int, original: int, status: int, earlier: int)

  function ScoreOf(db: Store, a: Id): Score
    requires a in db.archives
  {
    var r := db.archives[a];
    Score(if Readable(db, a) then 1 else 0,
          if r.collection == "legacy_batch_import" || r.rebuilt then 0 else 1,
          match r.status case Archived => 4 case ReadyForGovernance => 3 case Collected => 2 case OtherStatus => 1,
          -r.created)
  }

  /** The order in which Python compares the score tuples. */
  predicate Beats(s: Score, t: Score) {
    || s.readable > t.readable
    || (s.readable == t.readable && s.original > t.original)
    || (s.readable == t.readable && s.original == t.original && s.status > t.status)
    || (s.readable == t.readable && s.original == t.original && s.status == t.status && s.earlier > t.earlier)
  }

  /** `max` with a key: the first of the best. */
  function Canonical(db: Store, members: seq<Id>): (c: Id)
    requires members != [] && forall x :: x in members ==> x in db.archives
    ensures c in members
  {
    if |members| == 1 then members[0]
    else
      var best := Canonical(db, members[..|members| - 1]);
      var last := members[|members| - 1];
      if Beats(ScoreOf(db, last), ScoreOf(db, best)) then last else best
  }

  lemma {:induction false} CanonicalIsBest(db: Store, members: seq<Id>, x: Id)
    requires members != [] && forall y :: y in members ==> y in db.archives
    requires x in members
    ensures !Beats(ScoreOf(db, x), ScoreOf(db, Canonical(db, members)))
    ensures Readable(db, x) ==> Readable(db, Canonical(db, members))
  {
    if |members| > 1 {
      var front := members[..|members| - 1];
      if x in front {
        CanonicalIsBest(db, front, x);
      } else {
        assert x == members[|members| - 1];
      }
    }
  }

  /** Ties go to the member read first. */
  lemma {:induction false} CanonicalIsFirst(db: Store, members: seq<Id>) returns (i: nat)
    requires members != [] && forall y :: y in members ==> y in db.archives
    ensures i < |members| && members[i] == Canonical(db, members)
    ensures forall j :: 0 <= j < i ==> Beats(ScoreOf(db, members[i]), ScoreOf(db, members[j]))
  {
    if |members| == 1 {
      i := 0;
    } else {
      var front, last := members[..|members| - 1], members[|members| - 1];
      i := CanonicalIsFirst(db, front);
      if Beats(ScoreOf(db, last), ScoreOf(db, front[i])) {
        forall j | 0 <= j < |front|
          ensures Beats(ScoreOf(db, last), ScoreOf(db, members[j]))
        {
          CanonicalIsBest(db, front, front[j]);
        }
        i := |front|;
      }
    }
  }

  predicate Ready(db: Store, c: Id)
    requires c in db.archives
  {
    Readable(db, c) || (Recoveries(db, c) != [] && AllUnique(Recoveries(db, c)))
  }

  // ------------------------------------------------------------- the plan

  datatype Kind = ManualReview | RelinkOrphan | RemoveRedundantOrphan | WithdrawDuplicate

  // `region`, `period` and the other descriptive fields are copied from the archive.
  datatype Action = Action(
    kind: Kind, archive: Id, title: string, region: string, period: string,
    source: Id, collection: string, canonical: Option<Id>, refs: seq<Recovery>)

  function MakeAction(db: Store, a: Id, kind: Kind, canonical: Option<Id>): Action
    requires a in db.archives
  {
    var r := db.archives[a];
    Action(kind, a, r.title, r.region, r.period, r.source, r.collection, canonical, Recoveries(db, a))
  }

  /** What happens to an archive that is not withdrawn. */
  function RepairFor(db: Store, a: Id): Option<Action>
    requires a in db.archives
  {
    if Recoveries(db, a) == [] then None
    else if Readable(db, a) then Some(MakeAction(db, a, RemoveRedundantOrphan, None))
    else if AllUnique(Recoveries(db, a)) then Some(MakeAction(db, a, RelinkOrphan, None))
    else Some(MakeAction(db, a, ManualReview, None))
  }

  ghost function Peers(db: Store, a: Id): seq<Id> {
    Members(ActiveOrder(db), KeysOf(db), a)
  }

  lemma PeersExact(db: Store, a: Id, b: Id)
    requires Keyed(db)
    ensures b in Peers(db, a) <==> Active(db, b) && Linked(KeysOf(db), a, b)
    ensures b in ActiveOrder(db) <==> Active(db, b)
  {
    MembersExact(ActiveOrder(db), KeysOf(db), a, b);
    FilterExact(db.order, x => Active(db, x), b);
  }

  lemma PeersArchived(db: Store, a: Id)
    requires Keyed(db)
    ensures forall x :: x in Peers(db, a) ==> Active(db, x)
    ensures Active(db, a) ==> a in Peers(db, a)
  {
    forall x | x in Peers(db, a)
      ensures Active(db, x)
    {
      PeersExact(db, a, x);
    }
    if Active(db, a) {
      LinkedReflexive(KeysOf(db), a);
      PeersExact(db, a, a);
    }
  }

  /** The archive kept for the whole group of `a`. */
  ghost function KeptFor(db: Store, a: Id): (c: Id)
    requires Keyed(db) && Active(db, a)
    ensures c in Peers(db, a) && Active(db, c)
  {
    PeersArchived(db, a);
    Canonical(db, Peers(db, a))
  }

  /** `a` gives way to the archive kept for its group, once that one can be read. */
  ghost predicate Withdrawn(db: Store, a: Id)
    requires Keyed(db) && Active(db, a)
  {
    KeptFor(db, a) != a && Ready(db, KeptFor(db, a))
  }

  ghost function PlanFor(db: Store, a: Id): (r: Option<Action>)
    requires Keyed(db) && Active(db, a)
    ensures r.Some? ==> r.value.archive == a && r.value.refs == Recoveries(db, a)
  {
    if Withdrawn(db, a) then Some(MakeAction(db, a, WithdrawDuplicate, Some(KeptFor(db, a))))
    else RepairFor(db, a)
  }

  /** The whole plan: at most one action per active archive. */
  ghost function Plan(db: Store): map<Id, Action>
    requires Keyed(db)
  {
    map a | a in db.archives && Active(db, a) && PlanFor(db, a).Some? :: PlanFor(db, a).value
  }

  // ------------------------------------------------- building the report

  /** The identity keys of every active archive, read one archive at a time. */
  method CollectKeys(db: Store) returns (keys: KeyMap)
    requires Keyed(db)
    ensures keys == KeysOf(db)
    ensures keys.Keys == set x | x in ActiveOrder(db)
  {
    var order := ActiveOrder(db);
    keys := map[];
    var i := 0;
    while i < |order|
      invariant 0 <= i <= |order|
      invariant keys.Keys == set x | x in order[..i]
      invariant forall x :: x in keys ==> x in db.archives && keys[x] == IdentityKeys(db, x)
    {
      PeersExact(db, order[i], order[i]);
      assert order[..i + 1] == order[..i] + [order[i]];
      keys := keys[order[i] := IdentityKeys(db, order[i])];
      i := i + 1;
    }
    assert order[..i] == order;
    forall x
      ensures x in keys <==> Active(db, x)
    {
      PeersExact(db, x, x);
    }
  }

  /** The withdrawals of the plan, by archive. */
  ghost function WithdrawalPlan(db: Store): (r: map<Id, Action>)
    requires Keyed(db)
    ensures forall a :: a in r ==> Active(db, a)
  {
    map a | a in db.archives && Active(db, a) && Withdrawn(db, a) ::
      MakeAction(db, a, WithdrawDuplicate, Some(KeptFor(db, a)))
  }

  /** The withdrawals that one group calls for. */
  ghost function GroupWithdrawals(db: Store, members: seq<Id>): map<Id, Action>
    requires members != [] && forall a :: a in members ==> a in db.archives
  {
    var c := Canonical(db, members);
    if Ready(db, c) then
      map a | a in members && a != c :: MakeAction(db, a, WithdrawDuplicate, Some(c))
    else map[]
  }

  lemma WithdrawalOfPeer(db: Store, members: seq<Id>, a: Id)
    requires Keyed(db) && members != [] && forall x :: x in members ==> x in db.archives
    requires Active(db, a) && Peers(db, a) == members
    ensures a in WithdrawalPlan(db) <==> Ready(db, Canonical(db, members)) && a != Canonical(db, members)
    ensures a in WithdrawalPlan(db) ==>
              WithdrawalPlan(db)[a] == MakeAction(db, a, WithdrawDuplicate, Some(Canonical(db, members)))
  {
    hide MakeAction, Ready, Canonical, Members, ActiveOrder, KeysOf;
    assert KeptFor(db, a) == Canonical(db, members);
  }

  lemma GroupMember(db: Store, groups: map<Id, seq<Id>>, r: Id, a: Id)
    requires Keyed(db) && Grouped(ActiveOrder(db), KeysOf(db), groups) && r in groups
    requires a in groups[r] || a == r
    ensures a in groups[r] && Active(db, a) && a in db.archives && Peers(db, a) == groups[r]
    ensures forall x :: x in groups[r] ==> x in db.archives
  {
    hide Members, ActiveOrder, KeysOf, Linked;
    assert groups[r] == Peers(db, r);
    PeersExact(db, r, r);
    PeersArchived(db, r);
    PeersExact(db, r, a);
    MembersOfLinked(ActiveOrder(db), KeysOf(db), r, a);
  }

  lemma GroupWithdrawalsArePlanned(db: Store, groups: map<Id, seq<Id>>, r: Id)
    requires Keyed(db) && Grouped(ActiveOrder(db), KeysOf(db), groups) && r in groups
    ensures r in groups[r] && forall a :: a in groups[r] ==> a in db.archives
    ensures forall a :: a in GroupWithdrawals(db, groups[r]) <==> a in groups[r] && a in WithdrawalPlan(db)
    ensures forall a :: a in GroupWithdrawals(db, groups[r]) ==>
                          GroupWithdrawals(db, groups[r])[a] == WithdrawalPlan(db)[a]
  {
    hide MakeAction, Ready, Canonical, Members, ActiveOrder, KeysOf, Linked, WithdrawalPlan, Grouped, Peers, Active,
        Keyed;
    GroupMember(db, groups, r, r);
    var members := groups[r];
    forall a | a in members
      ensures a in db.archives
      ensures a in WithdrawalPlan(db) <==> Ready(db, Canonical(db, members)) && a != Canonical(db, members)
      ensures a in WithdrawalPlan(db) ==>
                WithdrawalPlan(db)[a] == MakeAction(db, a, WithdrawDuplicate, Some(Canonical(db, members)))
    {
      GroupMember(db, groups, r, a);
      WithdrawalOfPeer(db, members, a);
    }
  }

  /** One group: every member but the canonical one is withdrawn, if the canonical one is ready. */
  method WithdrawGroup(db: Store, members: seq<Id>, before: map<Id, Action>) returns (actions: map<Id, Action>)
    requires members != [] && forall a :: a in members ==> a in db.archives
    ensures actions == before + GroupWithdrawals(db, members)
  {
    hide MakeAction, Ready, Canonical;
    actions := before;
    if |members| <= 1 {
      return;
    }
    var canonical := Canonical(db, members);
    if Ready(db, canonical) {
      ghost var wanted := GroupWithdrawals(db, members);
      ghost var met: set<Id> := {};
      var i := 0;
      while i < |members|
        invariant 0 <= i <= |members|
        invariant met <= wanted.Keys
        invariant forall j :: 0 <= j < i ==> members[j] == canonical || members[j] in met
        invariant actions == before + map a | a in met :: wanted[a]
      {
        if members[i] != canonical {
          actions := actions[members[i] := MakeAction(db, members[i], WithdrawDuplicate, Some(canonical))];
          met := met + {members[i]};
        }
        i := i + 1;
      }
      assert met == wanted.Keys;
    }
  }

  lemma SomeGroupHolds(db: Store, groups: map<Id, seq<Id>>, a: Id) returns (r: Id)
    requires Keyed(db) && Grouped(ActiveOrder(db), KeysOf(db), groups) && Active(db, a)
    ensures r in groups && a in groups[r]
  {
    hide Active, ActiveOrder, Keyed, KeysOf, Members, Linked;
    PeersExact(db, a, a);
    r :| r in groups && a in groups[r];
  }

  /** First action loop: withdrawals, group by group. */
  method WithdrawGroups(db: Store, groups: map<Id, seq<Id>>) returns (actions: map<Id, Action>)
    requires Keyed(db) && Grouped(ActiveOrder(db), KeysOf(db), groups)
    ensures actions == WithdrawalPlan(db)
  {
    hide WithdrawalPlan, GroupWithdrawals, Active, ActiveOrder, KeysOf, Grouped, Keyed;
    ghost var wanted := WithdrawalPlan(db);
    actions := map[];
    var todo := groups.Keys;
    while todo != {}
      invariant todo <= groups.Keys
      invariant forall a :: a in actions ==> a in wanted && actions[a] == wanted[a]
      invariant forall r, a :: r in groups && r !in todo && a in groups[r] && a in wanted ==> a in actions
      decreases todo
    {
      var r :| r in todo;
      GroupWithdrawalsArePlanned(db, groups, r);
      actions := WithdrawGroup(db, groups[r], actions);
      todo := todo - {r};
    }
    forall a | a in wanted
      ensures a in actions
    {
      var r := SomeGroupHolds(db, groups, a);
    }
  }

  lemma PlanSplits(db: Store, a: Id)
    requires Keyed(db)
    ensures a in WithdrawalPlan(db) ==> a in Plan(db) && Plan(db)[a] == WithdrawalPlan(db)[a]
    ensures a !in WithdrawalPlan(db) && Active(db, a) ==>
              (a in Plan(db) <==> RepairFor(db, a).Some?) && (a in Plan(db) ==> Some(Plan(db)[a]) == RepairFor(db, a))
    ensures a in Plan(db) ==> Active(db, a)
  {
  }

  /** Second action loop: archives with missing files that are not withdrawn. */
  method RepairRest(db: Store, withdrawals: map<Id, Action>) returns (actions: map<Id, Action>)
    requires Keyed(db) && withdrawals == WithdrawalPlan(db)
    ensures actions == Plan(db)
  {
    hide Plan, WithdrawalPlan, Recoveries, ActiveOrder;
    actions := withdrawals;
    ghost var plan := Plan(db);
    forall a
      ensures a in withdrawals ==> a in plan && plan[a] == withdrawals[a]
    {
      PlanSplits(db, a);
    }
    var order := ActiveOrder(db);
    var i := 0;
    while i < |order|
      invariant 0 <= i <= |order|
      invariant forall a :: a in actions ==> a in plan && actions[a] == plan[a]
      invariant forall a :: a in withdrawals ==> a in actions
      invariant forall j :: 0 <= j < i && order[j] in plan ==> order[j] in actions
    {
      var a := order[i];
      PeersExact(db, a, a);
      PlanSplits(db, a);
      var orphans := Recoveries(db, a);
      if orphans != [] && a !in actions {
        var kind := if Readable(db, a) then RemoveRedundantOrphan
                    else if AllUnique(orphans) then RelinkOrphan else ManualReview;
        actions := actions[a := MakeAction(db, a, kind, None)];
      }
      i := i + 1;
    }
    forall a | a in plan
      ensures a in actions
    {
      PlanSplits(db, a);
      PeersExact(db, a, a);
    }
  }

  /** The planner: keys, groups, withdrawals, repairs, and the sorted list of actions. */
  method BuildReport(db: Store) returns (actions: map<Id, Action>, ordered: seq<Action>)
    requires Keyed(db)
    ensures actions == Plan(db)
    ensures Listed(ordered, Plan(db))
  {
    var keys := CollectKeys(db);
    var groups := Group(ActiveOrder(db), keys);
    var withdrawals := WithdrawGroups(db, groups);
    actions := RepairRest(db, withdrawals);
    ordered := SortActions(actions);
  }

  // -------------------------------------------------------------- sorting

  /** Code-point order of strings. */
  predicate StringLess(s: string, t: string) {
    t != [] && (s == [] || s[0] < t[0] || (s[0] == t[0] && StringLess(s[1..], t[1..])))
  }

  lemma {:induction false} StringLessTotal(s: string, t: string)
    ensures StringLess(s, t) || s == t || StringLess(t, s)
    ensures !(StringLess(s, t) && StringLess(t, s)) && !StringLess(s, s)
  {
    if s != [] && t != [] && s[0] == t[0] {
      StringLessTotal(s[1..], t[1..]);
      assert s == [s[0]] + s[1..] && t == [t[0]] + t[1..];
    }
    if s == [] {
    } else {
      StringLessTotal(s[1..], s[1..]);
    }
  }

  lemma {:induction false} StringLessTransitive(s: string, t: string, u: string)
    requires StringLess(s, t) && StringLess(t, u)
    ensures StringLess(s, u)
  {
    if s != [] && s[0] == t[0] == u[0] {
      StringLessTransitive(s[1..], t[1..], u[1..]);
    }
  }

  function KindRank(k: Kind): int {
    match k
    case ManualReview => 0
    case RelinkOrphan => 1
    case RemoveRedundantOrphan => 2
    case WithdrawDuplicate => 3
  }

  /** The sort key: action, region, period, archive. */
  predicate Before(x: Action, y: Action) {
    || KindRank(x.kind) < KindRank(y.kind)
    || (x.kind == y.kind &&
        (|| StringLess(x.region, y.region)
         || (x.region == y.region &&
             (|| StringLess(x.period, y.period)
              || (x.period == y.period && StringLess(x.archive, y.archive))))))
  }

  lemma BeforeTotal(x: Action, y: Action)
    ensures !(Before(x, y) && Before(y, x))
    ensures x.archive != y.archive ==> Before(x, y) || Before(y, x)
  {
    StringLessTotal(x.region, y.region);
    StringLessTotal(x.period, y.period);
    StringLessTotal(x.archive, y.archive);
  }

  lemma BeforeTransitive(x: Action, y: Action, z: Action)
    requires Before(x, y) && Before(y, z)
    ensures Before(x, z)
  {
    if StringLess(x.region, y.region) && StringLess(y.region, z.region) {
      StringLessTransitive(x.region, y.region, z.region);
    }
    if StringLess(x.period, y.period) && StringLess(y.period, z.period) {
      StringLessTransitive(x.period, y.period, z.period);
    }
    if StringLess(x.archive, y.archive) && StringLess(y.archive, z.archive) {
      StringLessTransitive(x.archive, y.archive, z.archive);
    }
  }

  ghost predicate Ascending(s: seq<Action>) {
    forall i, j :: 0 <= i < j < |s| ==> Before(s[i], s[j])
  }

  /** `s` lists the plan's actions, each once, in the report's order. */
  ghost predicate Listed(s: seq<Action>, plan: map<Id, Action>) {
    && Ascending(s)
    && (forall a :: a in plan ==> plan[a].archive == a)
    && (forall x :: x in s ==> x.archive in plan && plan[x.archive] == x)
    && (forall a :: a in plan ==> plan[a] in s)
  }

  /** Puts one more action in its place. */
  method Insert(s: seq<Action>, x: Action) returns (r: seq<Action>)
    requires Ascending(s) && forall y :: y in s ==> y.archive != x.archive
    ensures Ascending(r)
    ensures forall y :: y in r <==> y in s || y == x
  {
    var i := 0;
    while i < |s| && Before(s[i], x)
      invariant 0 <= i <= |s|
      invariant forall j :: 0 <= j < i ==> Before(s[j], x)
    {
      i := i + 1;
    }
    if i < |s| {
      BeforeTotal(s[i], x);
      forall j | i < j < |s|
        ensures Before(x, s[j])
      {
        BeforeTransitive(x, s[i], s[j]);
      }
    }
    r := s[..i] + [x] + s[i..];
    assert s == s[..i] + s[i..];
  }

  /** `sorted` over the dictionary's values, whatever order they come in. */
  method SortActions(actions: map<Id, Action>) returns (s: seq<Action>)
    requires forall a :: a in actions ==> actions[a].archive == a
    ensures Listed(s, actions)
  {
    s := [];
    var todo := actions.Keys;
    while todo != {}
      invariant todo <= actions.Keys
      invariant Listed(s, map a | a in actions && a !in todo :: actions[a])
      decreases todo
    {
      var a :| a in todo;
      s := Insert(s, actions[a]);
      todo := todo - {a};
    }
    assert (map a | a in actions && a !in todo :: actions[a]) == actions;
  }

  /** A plan has one listing only, so comparing action lists compares plans. */
  lemma {:induction false} ListingUnique(s: seq<Action>, t: seq<Action>, plan: map<Id, Action>)
    requires Listed(s, plan) && Listed(t, plan)
    ensures s == t
    decreases |s|
  {
    hide Listed, Before;
    if s == [] {
      if t != [] {
        SameFirst(t, s, plan);
      }
    } else {
      SameFirst(s, t, plan);
      var rest := map a | a in plan && a != s[0].archive :: plan[a];
      TailListed(s, plan, rest);
      TailListed(t, plan, rest);
      ListingUnique(s[1..], t[1..], rest);
      assert s == [s[0]] + s[1..] && t == [t[0]] + t[1..];
    }
  }

  lemma SameFirst(s: seq<Action>, t: seq<Action>, plan: map<Id, Action>)
    requires Listed(s, plan) && Listed(t, plan) && s != []
    ensures t != [] && s[0] == t[0]
  {
    assert s[0] in s;
    assert plan[s[0].archive] in t;
    assert t[0] in t;
    assert plan[t[0].archive] in s;
    var i :| 0 <= i < |s| && s[i] == t[0];
    var j :| 0 <= j < |t| && t[j] == s[0];
    BeforeTotal(s[0], t[0]);
  }

  lemma TailListed(s: seq<Action>, plan: map<Id, Action>, rest: map<Id, Action>)
    requires s != [] && Listed(s, plan)
    requires rest == map a | a in plan && a != s[0].archive :: plan[a]
    ensures Listed(s[1..], rest)
  {
    forall x | x in s[1..]
      ensures x.archive in rest && rest[x.archive] == x
    {
      var i :| 1 <= i < |s| && s[i] == x;
      BeforeTotal(s[0], s[i]);
      assert s[0] in s && x in s;
      assert plan[x.archive] == x && plan[s[0].archive] == s[0];
    }
    forall a | a in rest
      ensures rest[a] in s[1..]
    {
      var i :| 0 <= i < |s| && s[i] == plan[a];
      assert s[1..][i - 1] == s[i];
    }
  }
}
