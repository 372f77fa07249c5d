/**
 The part of the archive database that the clean-up reads and writes. Titles, periods and
 URLs are held both raw and normalised, since normalisation itself is not modelled; a URL
 of "" and a region of "" stand for a missing value.
 */
module Catalogue {
  type Id = string

  datatype Option<+T> = None | Some(value: T)

  datatype Status = Archived | ReadyForGovernance | Collected | OtherStatus

  datatype Archive = Archive(
    costInfo: bool, withdrawn: bool, current: bool, tenant: string,
    title: string, titleKey: string, region: string, period: string, url: string,
    source: Id, collection: string, rebuilt: bool, status: Status, created: int)

  datatype Mount = Mount(archive: Id, file: Option<Id>, url: string, event: Option<Id>, linkedBy: string)

  // `prefix` is the lower-cased head of the hash.
  datatype Asset = Asset(tenant: string, sha: string, prefix: string)

  // `prefix` is the hash prefix that a manifest-rebuild batch carries in its name.
  datatype Event = Event(file: Id, url: string, prefix: Option<string>)

  datatype Store = Store(
    order: seq<Id>, archives: map<Id, Archive>,
    mountOrder: seq<Id>, mounts: map<Id, Mount>,
    assets: map<Id, Asset>, events: map<Id, Event>)

  ghost predicate NoRepeats<T>(s: seq<T>) {
    forall i, j :: 0 <= i < j < |s| ==> s[i] != s[j]
  }

  /** Primary keys: each archive and each mount is read exactly once. */
  ghost predicate Keyed(db: Store) {
    && NoRepeats(db.order) && NoRepeats(db.mountOrder)
    && (forall a :: a in db.order <==> a in db.archives)
    && (forall m :: m in db.mountOrder <==> m in db.mounts)
  }

  function Filter<T>(s: seq<T>, p: T -> bool): seq<T> {
    if s == [] then [] else Filter(s[..|s| - 1], p) + if p(s[|s| - 1]) then [s[|s| - 1]] else []
  }

  lemma {:induction false} FilterExact<T>(s: seq<T>, p: T -> bool, x: T)
    ensures x in Filter(s, p) <==> x in s && p(x)
  {
    if s == [] {
    } else {
      FilterExact(s[..|s| - 1], p, x);
      assert s == s[..|s| - 1] + [s[|s| - 1]];
    }
  }

  lemma {:induction false} FilterNoRepeats<T>(s: seq<T>, p: T -> bool)
    requires NoRepeats(s)
    ensures NoRepeats(Filter(s, p))
  {
    if s == [] {
    } else {
      FilterNoRepeats(s[..|s| - 1], p);
      FilterExact(s[..|s| - 1], p, s[|s| - 1]);
    }
  }

  lemma {:induction false} FilterCongruent<T>(s: seq<T>, p: T -> bool, q: T -> bool)
    requires forall x :: x in s ==> p(x) == q(x)
    ensures Filter(s, p) == Filter(s, q)
  {
    if s == [] {
    } else {
      FilterCongruent(s[..|s| - 1], p, q);
    }
  }

  function Min(x: nat, y: nat): nat {
    if x < y then x else y
  }

  lemma SubsetSize<T>(a: set<T>, b: set<T>)
    requires a <= b
    ensures |a| <= |b|
    ensures |a| == |b| ==> a == b
  {
    assert b == a + (b - a);
    assert |b| == |a| + |b - a|;
  }

  lemma NamedBefore<T>(s: seq<T>, n: nat, x: T)
    requires 0 < n <= |s| && NoRepeats(s)
    ensures s[n - 1] !in s[..n - 1]
    ensures x in s[..n] <==> x in s[..n - 1] || x == s[n - 1]
  {
    assert s[..n] == s[..n - 1] + [s[n - 1]];
  }

  // ------------------------------------------------------------- archives

  predicate Active(db: Store, a: Id) {
    a in db.archives && db.archives[a].costInfo && !db.archives[a].withdrawn
  }

  function ActiveOrder(db: Store): seq<Id> {
    Filter(db.order, a => Active(db, a))
  }

  // --------------------------------------------------------------- mounts

  /** Mount `m` of archive `a` names a stored file. */
  predicate IsValidMount(db: Store, a: Id, m: Id) {
    && m in db.mounts && db.mounts[m].archive == a
    && db.mounts[m].file.Some? && db.mounts[m].file.value in db.assets
  }

  /** Mount `m` of archive `a` names a file that no longer exists. */
  predicate IsOrphanMount(db: Store, a: Id, m: Id) {
    && m in db.mounts && db.mounts[m].archive == a
    && db.mounts[m].file.Some? && db.mounts[m].file.value != "" && db.mounts[m].file.value !in db.assets
  }

  function ValidMounts(db: Store, a: Id): seq<Id> {
    Filter(db.mountOrder, m => IsValidMount(db, a, m))
  }

  function OrphanMounts(db: Store, a: Id): seq<Id> {
    Filter(db.mountOrder, m => IsOrphanMount(db, a, m))
  }

  predicate Readable(db: Store, a: Id) {
    ValidMounts(db, a) != []
  }

  lemma ReadableExact(db: Store, a: Id)
    requires Keyed(db)
    ensures Readable(db, a) <==> exists m :: IsValidMount(db, a, m)
  {
    var p := (m: Id) => IsValidMount(db, a, m);
    if Readable(db, a) {
      var m := ValidMounts(db, a)[0];
      FilterExact(db.mountOrder, p, m);
      assert IsValidMount(db, a, m);
    }
    if m :| IsValidMount(db, a, m) {
      FilterExact(db.mountOrder, p, m);
    }
  }
}
