/**
 The clean-up plan and what becomes of it, said of the rows of the database alone: which file
 can stand in for a missing one, which archive of a group is kept, what happens to every
 archive, and what is written and logged when the plan is applied.
 */
module PlainPlan {
  import opened Catalogue
  import opened Components
  import opened CleanupReport
  import opened CleanupApply
  import opened CleanupSafety

  /** Mount `m` of archive `a` names a stored file. */
  ghost predicate Stored(db: Store, a: Id, m: Id) {
    && m in db.mounts && db.mounts[m].archive == a
    && exists f :: f in db.assets && db.mounts[m].file == Some(f)
  }

  /** Mount `m` of archive `a` names a file, but none that is stored. */
  ghost predicate Missing(db: Store, a: Id, m: Id) {
    && m in db.mounts && db.mounts[m].archive == a
    && exists f :: f != "" && f !in db.assets && db.mounts[m].file == Some(f)
  }

  ghost predicate CanBeRead(db: Store, a: Id) {
    exists m :: Stored(db, a, m)
  }

  /** Event `e` is the mount's own, or one of the file that it names. */
  ghost predicate Tells(db: Store, m: Mount, e: Id) {
    e in db.events && (m.event == Some(e) || m.file == Some(db.events[e].file))
  }

  /** Asset `f` has a hash prefix that such an event names. */
  ghost predicate SameHash(db: Store, a: Archive, m: Mount, f: Id) {
    && f in db.assets && db.assets[f].tenant == a.tenant
    && exists e :: Tells(db, m, e) && db.events[e].prefix == Some(db.assets[f].prefix)
  }

  /** A URL under which the missing file was to be had. */
  ghost predicate KnownAddress(db: Store, a: Archive, m: Mount, url: string) {
    url != "" && (url == m.url || url == a.url || exists e :: Tells(db, m, e) && db.events[e].url == url)
  }

  ghost predicate SameAddress(db: Store, a: Archive, m: Mount, f: Id) {
    && f in db.assets && db.assets[f].tenant == a.tenant
    && exists e :: e in db.events && db.events[e].file == f && KnownAddress(db, a, m, db.events[e].url)
  }

  /** Asset `f` can stand in for the file that `m` misses: by hash, or by URL when no hash fits. */
  ghost predicate StandsIn(db: Store, a: Archive, m: Mount, f: Id) {
    SameHash(db, a, m, f) || (SameAddress(db, a, m, f) && forall g :: !SameHash(db, a, m, g))
  }

  ghost predicate OneStandsIn(db: Store, a: Archive, m: Mount, f: Id) {
    StandsIn(db, a, m, f) && forall g :: StandsIn(db, a, m, g) ==> g == f
  }

  /** Files are missing, and for each of them just one can stand in. */
  ghost predicate CanBeRepaired(db: Store, a: Id)
    requires a in db.archives
  {
    && (exists m :: Missing(db, a, m))
    && forall m :: Missing(db, a, m) ==> exists f :: OneStandsIn(db, db.archives[a], db.mounts[m], f)
  }

  // ------------------------------------------------- candidates and evidence

  lemma StandInsAre(db: Store, a: Archive, m: Mount, f: Id)
    ensures f in Candidates(db, a, m) <==> StandsIn(db, a, m, f)
  {
    CandidatesExact(db, a, m, f);
    forall g
      ensures SharesPrefix(db, a, m, g) <==> SameHash(db, a, m, g)
    {
      PrefixIs(db, a, m, g);
    }
    AddressIs(db, a, m, f);
  }

  lemma PrefixIs(db: Store, a: Archive, m: Mount, g: Id)
    ensures SharesPrefix(db, a, m, g) <==> SameHash(db, a, m, g)
  {
    assert forall e :: Related(db, m, e) <==> Tells(db, m, e);
  }

  lemma AddressIs(db: Store, a: Archive, m: Mount, f: Id)
    ensures SharesUrl(db, a, m, f) <==> SameAddress(db, a, m, f)
  {
    forall u
      ensures u in OrphanUrls(db, a, m) <==> KnownAddress(db, a, m, u)
    {
      AddressesAre(db, a, m, u);
    }
    hide OrphanUrls, KnownAddress;
  }

  lemma AddressesAre(db: Store, a: Archive, m: Mount, u: string)
    ensures u in OrphanUrls(db, a, m) <==> KnownAddress(db, a, m, u)
  {
    assert forall e :: Related(db, m, e) <==> Tells(db, m, e);
  }

  /** What a recovery lists as evidence: the hash prefixes, and the URLs if no hash fits. */
  lemma EvidenceIs(db: Store, a: Archive, m: Mount, s: string)
    ensures s in EvidenceOf(db, a, m).prefixes <==> exists e :: Tells(db, m, e) && db.events[e].prefix == Some(s)
    ensures s in EvidenceOf(db, a, m).urls <==> KnownAddress(db, a, m, s) && forall g :: !SameHash(db, a, m, g)
  {
    assert forall e :: Related(db, m, e) <==> Tells(db, m, e);
    AddressesAre(db, a, m, s);
    forall g
      ensures g in ByPrefix(db, a, m) <==> SameHash(db, a, m, g)
    {
      PrefixIs(db, a, m, g);
    }
    hide OrphanUrls, KnownAddress;
  }

  lemma MountsAre(db: Store, a: Id, m: Id)
    ensures IsValidMount(db, a, m) <==> Stored(db, a, m)
    ensures IsOrphanMount(db, a, m) <==> Missing(db, a, m)
  {
  }

  lemma ReadableIs(db: Store, a: Id)
    requires Keyed(db)
    ensures Readable(db, a) <==> CanBeRead(db, a)
  {
    ReadableExact(db, a);
    forall m
      ensures IsValidMount(db, a, m) <==> Stored(db, a, m)
    {
      MountsAre(db, a, m);
    }
  }

  lemma UniqueIs(db: Store, a: Archive, m: Mount, f: Id)
    ensures Candidates(db, a, m) == {f} <==> OneStandsIn(db, a, m, f)
    ensures |Candidates(db, a, m)| == 1 <==> exists g :: OneStandsIn(db, a, m, g)
  {
    var c := Candidates(db, a, m);
    forall g
      ensures g in c <==> StandsIn(db, a, m, g)
    {
      StandInsAre(db, a, m, g);
    }
    hide Candidates, StandsIn;
    if |c| == 1 {
      var g :| g in c;
      assert |c - {g}| == 0;
      assert c == {g};
      assert OneStandsIn(db, a, m, g);
    }
    if g :| OneStandsIn(db, a, m, g) {
      assert c == {g};
    }
    if OneStandsIn(db, a, m, f) {
      assert c == {f};
    }
  }

  lemma RecoveriesAre(db: Store, a: Id)
    requires Keyed(db) && a in db.archives
    ensures Recoveries(db, a) != [] <==> exists m :: Missing(db, a, m)
    ensures Recoveries(db, a) != [] && AllUnique(Recoveries(db, a)) <==> CanBeRepaired(db, a)
    ensures RefsRight(db, a, Recoveries(db, a))
  {
    RecoveryMounts(db, a);
    forall m
      ensures IsOrphanMount(db, a, m) <==> Missing(db, a, m)
    {
      MountsAre(db, a, m);
    }
    var refs := Recoveries(db, a);
    hide Recoveries, RefRight, OneStandsIn, Missing, IsOrphanMount, AllUnique, CanBeRepaired;
    forall r | r in refs
      ensures RefRight(db, a, r) && (|r.candidates| == 1 <==> IsUnique(db, a, r.mount))
    {
      RefIs(db, a, r);
    }
    if refs != [] {
      assert refs[0] in refs;
    }
    UniqueRefs(db, a, refs);
  }

  ghost predicate IsUnique(db: Store, a: Id, m: Id)
    requires a in db.archives
  {
    m in db.mounts && exists f :: OneStandsIn(db, db.archives[a], db.mounts[m], f)
  }

  lemma UniqueRefs(db: Store, a: Id, refs: seq<Recovery>)
    requires a in db.archives && forall r :: r in refs ==> (|r.candidates| == 1 <==> IsUnique(db, a, r.mount))
    requires forall m :: Missing(db, a, m) <==> exists r :: r in refs && r.mount == m
    ensures refs != [] && AllUnique(refs) <==> CanBeRepaired(db, a)
  {
    hide OneStandsIn;
    if refs != [] {
      assert refs[0] in refs && Missing(db, a, refs[0].mount);
    }
    forall r | r in refs
      ensures Missing(db, a, r.mount)
    {
    }
  }

  lemma RefIs(db: Store, a: Id, r: Recovery)
    requires a in db.archives && r in Recoveries(db, a)
    ensures RefRight(db, a, r)
    ensures |r.candidates| == 1 <==> IsUnique(db, a, r.mount)
  {
    hide Candidates, StandsIn, EvidenceOf, Recoveries;
    RecoveryIsOrphan(db, a, r);
    MountsAre(db, a, r.mount);
    var x, m := db.archives[a], db.mounts[r.mount];
    UniqueIs(db, x, m, "");
    forall f
      ensures f in r.candidates <==> StandsIn(db, x, m, f)
    {
      StandInsAre(db, x, m, f);
    }
    hide OneStandsIn;
  }

  /** One reference: a missing file, all that can stand in, and what that is known from. */
  ghost predicate RefRight(db: Store, a: Id, r: Recovery)
    requires a in db.archives
  {
    && Missing(db, a, r.mount) && db.mounts[r.mount].file == Some(r.missing)
    && r.evidence == EvidenceOf(db, db.archives[a], db.mounts[r.mount])
    && forall f :: f in r.candidates <==> StandsIn(db, db.archives[a], db.mounts[r.mount], f)
  }

  /** The references of an action: one for every missing file, with all that can stand in. */
  ghost predicate RefsRight(db: Store, a: Id, refs: seq<Recovery>)
    requires a in db.archives
  {
    && (forall r :: r in refs ==> RefRight(db, a, r))
    && (forall m :: Missing(db, a, m) ==> exists r :: r in refs && r.mount == m)
    && forall i, j :: 0 <= i < j < |refs| ==> refs[i].mount != refs[j].mount
  }

  // ------------------------------------------------------------ identity keys

  ghost predicate HasUrl(db: Store, a: Id, url: string)
    requires a in db.archives
  {
    url != "" && (url == db.archives[a].url || exists m :: m in db.mounts && db.mounts[m].archive == a
                                                           && db.mounts[m].url == url)
  }

  /** The hash of a stored file of `a`, or of the one asset that can stand in for a missing one. */
  ghost predicate HasHash(db: Store, a: Id, sha: string)
    requires a in db.archives
  {
    || (exists m, f :: Stored(db, a, m) && db.mounts[m].file == Some(f) && f in db.assets && db.assets[f].sha == sha)
    || (exists m, f :: Missing(db, a, m) && OneStandsIn(db, db.archives[a], db.mounts[m], f) && f in db.assets
                       && db.assets[f].sha == sha)
  }

  /** An archive's identity keys: its label, with each of its URLs and hashes. */
  lemma KeysAre(db: Store, a: Id, k: string)
    requires Keyed(db) && a in db.archives
    ensures var x := db.archives[a];
            k in IdentityKeys(db, a) <==>
            && x.region != "" && x.period != "" && x.titleKey != ""
            && (|| (exists u :: HasUrl(db, a, u)
                                && k == "url" + "|" + x.region + "|" + x.period + "|" + x.titleKey + "|" + u)
                || (exists h :: HasHash(db, a, h)
                                && k == "sha" + "|" + x.region + "|" + x.period + "|" + x.titleKey + "|" + h))
  {
    var x := db.archives[a];
    forall u
      ensures u in Urls(db, a) <==> HasUrl(db, a, u)
      ensures u in Hashes(db, a) <==> HasHash(db, a, u)
      ensures KeyString("url", x, u) == "url" + "|" + x.region + "|" + x.period + "|" + x.titleKey + "|" + u
      ensures KeyString("sha", x, u) == "sha" + "|" + x.region + "|" + x.period + "|" + x.titleKey + "|" + u
    {
      HashesAre(db, a, u);
    }
    hide Urls, Hashes, HasUrl, HasHash, KeyString, Keyed;
  }

  lemma HashesAre(db: Store, a: Id, h: string)
    requires Keyed(db) && a in db.archives
    ensures h in Hashes(db, a) <==> HasHash(db, a, h)
  {
    hide Hashes, Candidates, StandsIn;
    HashesExact(db, a, h);
    forall m
      ensures IsValidMount(db, a, m) <==> Stored(db, a, m)
      ensures IsOrphanMount(db, a, m) <==> Missing(db, a, m)
    {
      MountsAre(db, a, m);
    }
    forall m, f | Missing(db, a, m)
      ensures Candidates(db, db.archives[a], db.mounts[m]) == {f} <==> OneStandsIn(db, db.archives[a], db.mounts[m], f)
    {
      UniqueIs(db, db.archives[a], db.mounts[m], f);
    }
    hide OneStandsIn;
  }

  // ------------------------------------------------------------ the kept one

  /** How far an archive has come. */
  function Level(s: Status): int {
    match s
    case Archived => 4
    case ReadyForGovernance => 3
    case Collected => 2
    case OtherStatus => 1
  }

  ghost predicate IsRebuilt(x: Archive) {
    x.collection == "legacy_batch_import" || x.rebuilt
  }

  /** `x` is a better archive to keep than `y`. */
  ghost predicate IsBetter(db: Store, x: Id, y: Id)
    requires x in db.archives && y in db.archives
  {
    var a, b := db.archives[x], db.archives[y];
    if CanBeRead(db, x) != CanBeRead(db, y) then CanBeRead(db, x)
    else if IsRebuilt(a) != IsRebuilt(b) then IsRebuilt(b)
    else if a.status != b.status then Level(a.status) > Level(b.status)
    else a.created < b.created
  }

  lemma BetterIs(db: Store, x: Id, y: Id)
    requires Keyed(db) && x in db.archives && y in db.archives
    ensures Beats(ScoreOf(db, x), ScoreOf(db, y)) <==> IsBetter(db, x, y)
  {
    ReadableIs(db, x);
    ReadableIs(db, y);
    hide Readable, CanBeRead;
  }

  /**
   The archive that is kept for a group is the first of the best: one that can be read before
   one that cannot, then one collected before one rebuilt, then the one that has come furthest,
   then the oldest, then the one read first.
   */
  lemma KeptIsBest(db: Store, a: Id, x: Id)
    requires Keyed(db) && Active(db, a) && Active(db, x) && Linked(KeysOf(db), a, x)
    ensures var k := KeptFor(db, a);
            && Active(db, k) && Linked(KeysOf(db), a, k)
            && (x == k || IsBetter(db, k, x) || (!IsBetter(db, x, k) && IsReadBefore(db, k, x)))
  {
    hide Linked, KeysOf, Beats, ScoreOf, IsBetter, Members;
    PeersArchived(db, a);
    PeersExact(db, a, x);
    var members := Peers(db, a);
    var k := KeptFor(db, a);
    PeersExact(db, a, k);
    CanonicalIsBest(db, members, x);
    var i := CanonicalIsFirst(db, members);
    var j :| 0 <= j < |members| && members[j] == x;
    BetterIs(db, x, k);
    BetterIs(db, k, x);
    if i < j {
      PeersInOrder(db, a, i, j);
    }
  }

  /** `x` is read before `y`. */
  ghost predicate IsReadBefore(db: Store, x: Id, y: Id) {
    exists i, j :: 0 <= i < j < |db.order| && db.order[i] == x && db.order[j] == y
  }

  lemma PeersInOrder(db: Store, a: Id, i: nat, j: nat)
    requires Keyed(db) && i < j < |Peers(db, a)|
    ensures IsReadBefore(db, Peers(db, a)[i], Peers(db, a)[j])
  {
    hide Linked, KeysOf;
    var active := (x: Id) => Active(db, x);
    var keys := KeysOf(db);
    var order := ActiveOrder(db);
    MembersAreFiltered(order, keys, a);
    var i', j' := FilterKeepsOrder(order, y => Linked(keys, a, y), i, j);
    var u, v := FilterKeepsOrder(db.order, active, i', j');
  }

  lemma {:induction false} MembersAreFiltered(order: seq<Id>, keys: KeyMap, x: Id)
    ensures Members(order, keys, x) == Filter(order, y => Linked(keys, x, y))
  {
    hide Linked;
    if order == [] {
    } else {
      MembersAreFiltered(order[..|order| - 1], keys, x);
    }
  }

  lemma {:induction false} FilterKeepsOrder<T>(s: seq<T>, p: T -> bool, i: nat, j: nat) returns (u: nat, v: nat)
    requires i < j < |Filter(s, p)|
    ensures u < v < |s| && s[u] == Filter(s, p)[i] && s[v] == Filter(s, p)[j]
  {
    var n := |s| - 1;
    if j < |Filter(s[..n], p)| {
      u, v := FilterKeepsOrder(s[..n], p, i, j);
    } else {
      u := FilterFrom(s[..n], p, i);
      v := n;
    }
  }

  lemma {:induction false} FilterFrom<T>(s: seq<T>, p: T -> bool, i: nat) returns (u: nat)
    requires i < |Filter(s, p)|
    ensures u < |s| && s[u] == Filter(s, p)[i]
  {
    var n := |s| - 1;
    if i < |Filter(s[..n], p)| {
      u := FilterFrom(s[..n], p, i);
    } else {
      u := n;
    }
  }

  // ------------------------------------------------------------ the actions

  /** `a` is withdrawn: another archive is kept, which can be read or repaired. */
  ghost predicate GivesWay(db: Store, a: Id)
    requires Keyed(db) && Active(db, a)
  {
    var k := KeptFor(db, a);
    k != a && (CanBeRead(db, k) || CanBeRepaired(db, k))
  }

  lemma GivesWayIs(db: Store, a: Id)
    requires Keyed(db) && Active(db, a)
    ensures Withdrawn(db, a) <==> GivesWay(db, a)
  {
    hide KeptFor, Recoveries, AllUnique, Readable, CanBeRead, CanBeRepaired;
    var k := KeptFor(db, a);
    ReadableIs(db, k);
    RecoveriesAre(db, k);
  }

  /** What happens to an active archive, and what the report says of it. */
  lemma ActionsAre(db: Store, a: Id)
    requires Keyed(db) && Active(db, a)
    ensures a in Plan(db) <==> GivesWay(db, a) || exists m :: Missing(db, a, m)
    ensures a in Plan(db) ==>
              var x, r := Plan(db)[a], db.archives[a];
              && x.kind == (if GivesWay(db, a) then WithdrawDuplicate
                            else if CanBeRead(db, a) then RemoveRedundantOrphan
                            else if CanBeRepaired(db, a) then RelinkOrphan
                            else ManualReview)
              && x.canonical == (if GivesWay(db, a) then Some(KeptFor(db, a)) else None)
              && x.archive == a && x.title == r.title && x.region == r.region && x.period == r.period
              && x.source == r.source && x.collection == r.collection && RefsRight(db, a, x.refs)
  {
    GivesWayIs(db, a);
    ReadableIs(db, a);
    RecoveriesAre(db, a);
    hide GivesWay, CanBeRead, CanBeRepaired, Missing, RefsRight, Withdrawn, KeptFor, Recoveries, Readable, AllUnique;
  }

  /** Only active archives have actions. */
  lemma ActiveIs(db: Store, a: Id)
    requires Keyed(db)
    ensures Active(db, a) <==> a in db.archives && db.archives[a].costInfo && !db.archives[a].withdrawn
    ensures a in Plan(db) ==> Active(db, a)
  {
    hide PlanFor;
  }

  function ActionName(k: Kind): string {
    match k
    case ManualReview => "manual_review"
    case RelinkOrphan => "relink_orphan"
    case RemoveRedundantOrphan => "remove_redundant_orphan_reference"
    case WithdrawDuplicate => "withdraw_duplicate"
  }

  /** At the first place where the strings differ, or where one ends, the first is less. */
  ghost predicate ComesFirst(s: string, t: string) {
    exists i :: 0 <= i <= |s| && i < |t| && s[..i] == t[..i] && (i == |s| || s[i] < t[i])
  }

  lemma {:induction false} StringLessIs(s: string, t: string)
    ensures StringLess(s, t) <==> ComesFirst(s, t)
    decreases |s|
  {
    assert s[..0] == t[..0];
    if s == [] || t == [] {
    } else {
      StringLessIs(s[1..], t[1..]);
      if s[0] == t[0] && StringLess(s[1..], t[1..]) {
        var i :|
          0 <= i <= |s[1..]| && i < |t[1..]| && s[1..][..i] == t[1..][..i]
          && (i == |s[1..]| || s[1..][i] < t[1..][i]);
        assert s[..i + 1] == [s[0]] + s[1..][..i] && t[..i + 1] == [t[0]] + t[1..][..i];
      }
      if ComesFirst(s, t) {
        var i :| 0 <= i <= |s| && i < |t| && s[..i] == t[..i] && (i == |s| || s[i] < t[i]);
        if i > 0 {
          assert s[..i][0] == t[..i][0];
          assert s[1..][..i - 1] == s[..i][1..] && t[1..][..i - 1] == t[..i][1..];
        } else {
          assert s[0] < t[0];
        }
      }
    }
  }

  /** The listing is in the order of action names, regions, periods and archives. */
  lemma ListingOrderIs(x: Action, y: Action)
    ensures Before(x, y) <==>
            || ComesFirst(ActionName(x.kind), ActionName(y.kind))
            || (x.kind == y.kind && ComesFirst(x.region, y.region))
            || (x.kind == y.kind && x.region == y.region && ComesFirst(x.period, y.period))
            || (x.kind == y.kind && x.region == y.region && x.period == y.period && ComesFirst(x.archive, y.archive))
  {
    StringLessIs(x.region, y.region);
    StringLessIs(x.period, y.period);
    StringLessIs(x.archive, y.archive);
    NamesRise(x.kind, y.kind);
    hide ComesFirst, StringLess;
  }

  lemma NamesRise(k: Kind, l: Kind)
    ensures KindRank(k) < KindRank(l) <==> ComesFirst(ActionName(k), ActionName(l))
  {
    hide ActionName, ComesFirst;
    if KindRank(k) < KindRank(l) {
      NameComesFirst(k, l);
    } else {
      StringLessIs(ActionName(k), ActionName(l));
      StringLessIs(ActionName(l), ActionName(k));
      StringLessTotal(ActionName(k), ActionName(l));
      if k != l {
        NameComesFirst(l, k);
      }
    }
  }

  lemma NameComesFirst(k: Kind, l: Kind)
    requires KindRank(k) < KindRank(l)
    ensures ComesFirst(ActionName(k), ActionName(l))
  {
    var a, b := ActionName(k), ActionName(l);
    if k == RelinkOrphan && l == RemoveRedundantOrphan {
      assert a[..2] == "re" && b[..2] == "re" && a[2] < b[2];
    } else {
      assert a[..0] == b[..0] && a[0] < b[0];
    }
  }

  // ------------------------------------------------------------- applying it

  /** An active archive keeps its place. */
  ghost predicate Stays(db: Store, a: Id)
    requires Keyed(db)
  {
    Active(db, a) && !GivesWay(db, a)
  }

  /** Every row of the database once a report has been applied. */
  lemma OutcomeIs(db: Store, report: Report, actor: string)
    requires Keyed(db) && Verdict(db, report) == None
    ensures var d := After(db, report.actions, actor);
            && d.order == db.order && d.mountOrder == db.mountOrder && d.assets == db.assets && d.events == db.events
            && d.archives.Keys == db.archives.Keys && d.mounts.Keys == db.mounts.Keys
            && (forall a :: a in db.archives ==>
                  d.archives[a] == if Active(db, a) && GivesWay(db, a)
                                   then db.archives[a].(withdrawn := true, current := false) else db.archives[a])
            && (forall m :: m in db.mounts ==> MountOutcome(db, actor, db.mounts[m].archive, m, d.mounts[m]))
  {
    hide GivesWay, Verdict, Withdraws, Relinks, Replacement, Missing;
    var actions := report.actions;
    assert Applicable(db, actions) by { AcceptedIsApplicable(db, report); }
    forall a | a in db.archives
      ensures AfterArchive(db, actions, a)
           == if Active(db, a) && GivesWay(db, a) then db.archives[a].(withdrawn := true, current := false)
              else db.archives[a]
    {
      WithdrawsExact(db, actions, a);
      if Active(db, a) {
        GivesWayIs(db, a);
      }
    }
    forall m | m in db.mounts
      ensures MountOutcome(db, actor, db.mounts[m].archive, m, AfterMount(db, actions, actor, m))
    {
      MountOutcomeIs(db, actions, actor, m);
    }
  }

  lemma AcceptedIsApplicable(db: Store, report: Report)
    requires Keyed(db) && Verdict(db, report) == None
    ensures Applicable(db, report.actions)
  {
  }

  /** A missing file of an archive that stays is replaced by the one that can stand in. */
  ghost predicate MountOutcome(db: Store, actor: string, a: Id, m: Id, now: Mount)
    requires Keyed(db) && m in db.mounts
  {
    if Stays(db, a) && Missing(db, a, m) then
      exists f :: a in db.archives && OneStandsIn(db, db.archives[a], db.mounts[m], f)
                  && now == db.mounts[m].(file := Some(f), linkedBy := actor)
    else now == db.mounts[m]
  }

  lemma MountOutcomeIs(db: Store, actions: seq<Action>, actor: string, m: Id)
    requires Applicable(db, actions) && m in db.mounts
    ensures MountOutcome(db, actor, db.mounts[m].archive, m, AfterMount(db, actions, actor, m))
  {
    hide GivesWay, Candidates, StandsIn, Withdrawn, Listed, Plan, Supported;
    var a := db.mounts[m].archive;
    MountsAre(db, a, m);
    if Active(db, a) && Missing(db, a, m) {
      GivesWayIs(db, a);
      RelinksExact(db, actions, a, m);
      if !GivesWay(db, a) {
        SurvivorMounts(db, actions, actor, a, m);
        UniqueIs(db, db.archives[a], db.mounts[m], Replacement(db, m));
      }
    } else {
      OnlyActiveAreRelinked(db, actions, m);
    }
  }

  lemma OnlyActiveAreRelinked(db: Store, actions: seq<Action>, m: Id)
    requires Applicable(db, actions) && m in db.mounts
    ensures var a := db.mounts[m].archive; Relinks(db, actions, m) ==> Active(db, a) && IsOrphanMount(db, a, m)
  {
    hide Before, MakeAction, PlanFor;
  }

  /** What one planned action logs: the archive that is kept, or the files that stand in. */
  lemma EventsAre(db: Store, report: Report, actor: string, sha: string, i: nat)
    requires Keyed(db) && Verdict(db, report) == None && i < |report.actions|
    ensures var x := report.actions[i];
            && Active(db, x.archive) && (forall r :: r in x.refs ==> r.mount in db.mounts)
            && if x.kind == WithdrawDuplicate then
                 EventsOf(db, x, actor, sha)
                 == [ArchiveWithdrawn(x.archive, actor, db.archives[x.archive].current, KeptFor(db, x.archive), sha)]
               else
                 && |EventsOf(db, x, actor, sha)| == |x.refs|
                 && forall j :: 0 <= j < |x.refs| ==>
                      AttachedRight(db, x.archive, x.refs[j], actor, sha, EventsOf(db, x, actor, sha)[j])
  {
    hide Before, GivesWay, RefsRight, Candidates, StandsIn, Replacement, Withdrawn, KeptFor, Recoveries;
    AcceptedIsApplicable(db, report);
    var x := report.actions[i];
    assert x in report.actions && Supported(x);
    assert x.archive in Plan(db) && Plan(db)[x.archive] == x;
    PlannedIsSane(db, x.archive);
    RefMounts(db, x);
    if x.kind == RelinkOrphan {
      forall j | 0 <= j < |x.refs|
        ensures AttachedRight(db, x.archive, x.refs[j], actor, sha, AttachedEvent(db, x, x.refs[j], actor, sha))
      {
        AttachedIs(db, x, x.refs[j], actor, sha);
      }
    }
  }

  /** The event of a relinked reference: what was there, and the asset that stands in. */
  ghost predicate AttachedRight(db: Store, a: Id, r: Recovery, actor: string, sha: string, e: Logged) {
    && a in db.archives && r.mount in db.mounts
    && exists f ::
         && OneStandsIn(db, db.archives[a], db.mounts[r.mount], f)
         && e == FileAttached(a, actor, r.mount, Some(r.missing), db.mounts[r.mount].linkedBy, f,
                              EvidenceOf(db, db.archives[a], db.mounts[r.mount]), sha)
  }

  lemma AttachedIs(db: Store, x: Action, r: Recovery, actor: string, sha: string)
    requires Keyed(db) && Sane(db, x) && x.kind == RelinkOrphan && r in x.refs && r.mount in db.mounts
    ensures AttachedRight(db, x.archive, r, actor, sha, AttachedEvent(db, x, r, actor, sha))
  {
    hide Candidates, StandsIn, EvidenceOf, Recoveries;
    RefIs(db, x.archive, r);
    var a, m := db.archives[x.archive], db.mounts[r.mount];
    RecoveryIsOrphan(db, x.archive, r);
    UniqueIs(db, a, m, Replacement(db, r.mount));
    assert |r.candidates| == 1;
    var f :| OneStandsIn(db, a, m, f);
    UniqueIs(db, a, m, f);
    assert Replacement(db, r.mount) == f;
  }

  /** The log of several actions is their events one after another. */
  lemma {:induction false} EventsInOrder(db: Store, a: seq<Action>, b: seq<Action>, actor: string, sha: string)
    requires Loggable(db, a + b)
    ensures Loggable(db, a) && Loggable(db, b)
    ensures AllEvents(db, a + b, actor, sha) == AllEvents(db, a, actor, sha) + AllEvents(db, b, actor, sha)
    ensures |a| == 1 ==> AllEvents(db, a, actor, sha) == EventsOf(db, a[0], actor, sha)
  {
    hide EventsOf;
    assert forall x :: x in a || x in b ==> x in a + b;
    if |a| == 1 {
      assert a[..0] == [];
    }
    if b == [] {
      assert a + b == a;
    } else {
      assert (a + b)[..|a + b| - 1] == a + b[..|b| - 1];
      EventsInOrder(db, a, b[..|b| - 1], actor, sha);
    }
  }

  /** The receipt: how many archives were withdrawn, which archives and which references were touched. */
  lemma ReceiptIs(actions: seq<Action>)
    ensures var r := ReceiptFor(actions);
            && r.withdrawals == |set i | 0 <= i < |actions| && actions[i].kind == WithdrawDuplicate|
            && |r.affected| == |actions| && (forall i :: 0 <= i < |actions| ==> r.affected[i] == actions[i].archive)
            && r.relinks == |r.relinked|
            && forall m :: m in r.relinked <==> IsRelinked(actions, m)
  {
    CountWithdrawals(actions);
    ListArchives(actions);
    forall m
      ensures m in RelinkedMounts(actions) <==> IsRelinked(actions, m)
    {
      ListMounts(actions, m);
    }
    hide RelinkedMounts, Withdrawals, ArchivesOf;
  }

  lemma {:induction false} CountWithdrawals(actions: seq<Action>)
    ensures Withdrawals(actions) == |set i | 0 <= i < |actions| && actions[i].kind == WithdrawDuplicate|
  {
    if actions == [] {
    } else {
      var n := |actions| - 1;
      CountWithdrawals(actions[..n]);
      OneMoreWithdrawal(actions, n);
    }
  }

  lemma OneMoreWithdrawal(actions: seq<Action>, n: nat)
    requires n + 1 == |actions|
    ensures |set i | 0 <= i < |actions| && actions[i].kind == WithdrawDuplicate|
         == |set i | 0 <= i < |actions[..n]| && actions[..n][i].kind == WithdrawDuplicate|
            + if actions[n].kind == WithdrawDuplicate then 1 else 0
  {
    var before := set i | 0 <= i < |actions[..n]| && actions[..n][i].kind == WithdrawDuplicate;
    var after := set i | 0 <= i < |actions| && actions[i].kind == WithdrawDuplicate;
    assert after == before + if actions[n].kind == WithdrawDuplicate then {n} else {};
  }

  lemma {:induction false} ListArchives(actions: seq<Action>)
    ensures |ArchivesOf(actions)| == |actions|
    ensures forall i :: 0 <= i < |actions| ==> ArchivesOf(actions)[i] == actions[i].archive
  {
    if actions == [] {
    } else {
      ListArchives(actions[..|actions| - 1]);
    }
  }

  /** `m` is a reference of one of the actions that relink. */
  ghost predicate IsRelinked(actions: seq<Action>, m: Id) {
    exists x :: x in actions && x.kind != WithdrawDuplicate && Refers(x, m)
  }

  ghost predicate Refers(x: Action, m: Id) {
    exists r :: r in x.refs && r.mount == m
  }

  lemma {:induction false} ListMounts(actions: seq<Action>, m: Id)
    ensures m in RelinkedMounts(actions) <==> IsRelinked(actions, m)
  {
    if actions == [] {
    } else {
      var front, x := actions[..|actions| - 1], actions[|actions| - 1];
      ListMounts(front, m);
      MountsOfRefs(x, m);
      hide Refers, MountsOf;
      assert forall y :: y in actions <==> y in front || y == x;
    }
  }

  lemma MountsOfRefs(x: Action, m: Id)
    ensures m in MountsOf(x.refs) <==> Refers(x, m)
  {
    if Refers(x, m) {
      var j :| 0 <= j < |x.refs| && x.refs[j].mount == m;
      assert MountsOf(x.refs)[j] == m;
    }
  }

  ghost predicate TwiceNamed(actions: seq<Action>) {
    exists i, j :: 0 <= i < j < |actions| && actions[i].archive == actions[j].archive
  }

  ghost predicate NamesUnsupported(actions: seq<Action>) {
    exists i :: 0 <= i < |actions| && actions[i].kind != WithdrawDuplicate && actions[i].kind != RelinkOrphan
  }

  /** Action `i` withdraws an archive of another tenant than the one that is kept. */
  ghost predicate LeavesTenant(db: Store, actions: seq<Action>, i: int) {
    && 0 <= i < |actions| && actions[i].kind == WithdrawDuplicate && actions[i].canonical.Some?
    && actions[i].archive in db.archives && actions[i].canonical.value in db.archives
    && db.archives[actions[i].canonical.value].tenant != db.archives[actions[i].archive].tenant
  }

  /** Why a report is refused, each reason only if none before it applies. */
  lemma VerdictIs(db: Store, report: Report) returns (i: nat)
    requires Keyed(db)
    ensures var v, xs := Verdict(db, report), report.actions;
            var dry := report.readOnly && report.mutations == 0;
            && (v == Some(NotADryRun) <==> !dry)
            && (v == Some(NoActions) <==> dry && xs == [])
            && (v == Some(UnsupportedActions) <==> dry && NamesUnsupported(xs))
            && (v == Some(DuplicateArchiveActions) <==> dry && !NamesUnsupported(xs) && TwiceNamed(xs))
            && (v == Some(PlanDrifted) <==>
                  dry && xs != [] && !NamesUnsupported(xs) && !TwiceNamed(xs) && !Listed(xs, Plan(db)))
            && (v.Some? && v.value.TenantMismatch? ==>
                  && dry && !NamesUnsupported(xs) && !TwiceNamed(xs) && Listed(xs, Plan(db))
                  && LeavesTenant(db, xs, i) && v.value.archive == xs[i].archive
                  && forall j :: 0 <= j < i ==> !LeavesTenant(db, xs, j))
            && (v == None ==> forall j :: !LeavesTenant(db, xs, j))
  {
    hide Listed, Plan, LeavesTenant, CrossesTenants, NamesUnsupported, FirstCrossing;
    var xs := report.actions;
    i := 0;
    UnsupportedIs(xs);
    LeavesIs(db, xs);
    if j :| LeavesTenant(db, xs, j) {
      LeavesWithin(db, xs, j);
      i := FirstToLeave(db, xs, j);
      LeavesWithin(db, xs, i);
      FirstCrossingAt(db, xs, i);
    }
  }

  lemma UnsupportedIs(xs: seq<Action>)
    ensures NamesUnsupported(xs) <==> exists x :: x in xs && !Supported(x)
    ensures NamesUnsupported(xs) ==> xs != []
  {
    if NamesUnsupported(xs) {
      var k :| 0 <= k < |xs| && xs[k].kind != WithdrawDuplicate && xs[k].kind != RelinkOrphan;
      assert xs[k] in xs && !Supported(xs[k]);
    }
  }

  lemma LeavesWithin(db: Store, xs: seq<Action>, j: int)
    requires LeavesTenant(db, xs, j)
    ensures 0 <= j < |xs| && xs[j] in xs
  {
  }

  lemma LeavesIs(db: Store, xs: seq<Action>)
    ensures forall j :: 0 <= j < |xs| ==> (LeavesTenant(db, xs, j) <==> CrossesTenants(db, xs[j]))
    ensures FirstCrossing(db, xs).Some? <==> exists j :: LeavesTenant(db, xs, j)
  {
    hide FirstCrossing;
    forall j | 0 <= j < |xs|
      ensures LeavesTenant(db, xs, j) <==> CrossesTenants(db, xs[j])
    {
    }
    if FirstCrossing(db, xs).Some? {
      var x :| x in xs && CrossesTenants(db, x);
      var k :| 0 <= k < |xs| && xs[k] == x;
      assert LeavesTenant(db, xs, k);
    }
  }

  lemma {:induction false} FirstToLeave(db: Store, xs: seq<Action>, j: nat) returns (i: nat)
    requires LeavesTenant(db, xs, j)
    ensures i <= j && LeavesTenant(db, xs, i) && forall k :: 0 <= k < i ==> !LeavesTenant(db, xs, k)
  {
    if k: nat :| k < j && LeavesTenant(db, xs, k) {
      i := FirstToLeave(db, xs, k);
    } else {
      i := j;
    }
  }
}
