/**
 Grouping of archives: two archives belong together when a chain of archives, each
 sharing an identity key with the next, leads from one to the other. `Group` is the
 planner's loop over keys with a union-find; the chains are what it is proved against.
 */
module Components {
  import opened DisjointSets

  type KeyMap = map<Id, set<string>>

  ghost predicate Share(keys: KeyMap, a: Id, b: Id) {
    a in keys && b in keys && exists k :: k in keys[a] && k in keys[b]
  }

  ghost predicate IsChain(keys: KeyMap, p: seq<Id>, a: Id, b: Id) {
    && |p| > 0 && p[0] == a && p[|p| - 1] == b && a in keys
    && forall i {:trigger p[i]} :: 0 < i < |p| ==> Share(keys, p[i - 1], p[i])
  }

  /** A chain of shared identity keys leads from `a` to `b`. */
  ghost predicate Linked(keys: KeyMap, a: Id, b: Id) {
    exists p :: IsChain(keys, p, a, b)
  }

  lemma LinkedReflexive(keys: KeyMap, a: Id)
    requires a in keys
    ensures Linked(keys, a, a)
  {
    assert IsChain(keys, [a], a, a);
  }

  lemma ShareIsLink(keys: KeyMap, a: Id, b: Id)
    requires Share(keys, a, b)
    ensures Linked(keys, a, b)
  {
    assert IsChain(keys, [a, b], a, b);
  }

  lemma LinkedTransitive(keys: KeyMap, a: Id, b: Id, c: Id)
    requires Linked(keys, a, b) && Linked(keys, b, c)
    ensures Linked(keys, a, c)
  {
    var p :| IsChain(keys, p, a, b);
    var q :| IsChain(keys, q, b, c);
    var r := p + q[1..];
    forall i | 0 < i < |r|
      ensures Share(keys, r[i - 1], r[i])
    {
      if i < |p| {
        assert Share(keys, p[i - 1], p[i]);
      } else {
        assert Share(keys, q[i - |p|], q[i - |p| + 1]);
      }
    }
    assert IsChain(keys, r, a, c);
  }

  lemma {:induction false} LinkedSymmetric(keys: KeyMap, a: Id, b: Id)
    requires Linked(keys, a, b)
    ensures Linked(keys, b, a)
  {
    var p :| IsChain(keys, p, a, b);
    ChainReversed(keys, p, a, b);
  }

  lemma {:induction false} ChainReversed(keys: KeyMap, p: seq<Id>, a: Id, b: Id)
    requires IsChain(keys, p, a, b)
    ensures Linked(keys, b, a)
    decreases |p|
  {
    if |p| == 1 {
      LinkedReflexive(keys, a);
    } else {
      var q := p[..|p| - 1];
      assert IsChain(keys, q, a, q[|q| - 1]);
      ChainReversed(keys, q, a, q[|q| - 1]);
      assert Share(keys, p[|p| - 2], p[|p| - 1]);
      assert Share(keys, b, q[|q| - 1]);
      ShareIsLink(keys, b, q[|q| - 1]);
      LinkedTransitive(keys, b, q[|q| - 1], a);
    }
  }

  lemma LinkedStaysInside(keys: KeyMap, a: Id, b: Id)
    requires Linked(keys, a, b)
    ensures a in keys && b in keys
  {
    var p :| IsChain(keys, p, a, b);
    if |p| > 1 {
      assert Share(keys, p[|p| - 2], p[|p| - 1]);
    }
  }

  /** More keys, or more archives, never break a chain. */
  lemma LinkedMonotone(keys: KeyMap, keys': KeyMap, a: Id, b: Id)
    requires keys.Keys <= keys'.Keys
    requires forall x :: x in keys ==> keys[x] <= keys'[x]
    requires Linked(keys, a, b)
    ensures Linked(keys', a, b)
  {
    var p :| IsChain(keys, p, a, b);
    forall i | 0 < i < |p|
      ensures Share(keys', p[i - 1], p[i])
    {
      assert Share(keys, p[i - 1], p[i]);
      var k :| k in keys[p[i - 1]] && k in keys[p[i]];
      assert k in keys'[p[i - 1]] && k in keys'[p[i]];
    }
    assert IsChain(keys', p, a, b);
  }

  // ---------------------------------------------------------------- members

  /** The archives of `order` that belong with `x`, in the order they were read. */
  ghost function Members(order: seq<Id>, keys: KeyMap, x: Id): seq<Id> {
    if order == [] then []
    else if Linked(keys, x, order[|order| - 1]) then
      Members(order[..|order| - 1], keys, x) + [order[|order| - 1]]
    else
      Members(order[..|order| - 1], keys, x)
  }

  lemma {:induction false} MembersExact(order: seq<Id>, keys: KeyMap, x: Id, y: Id)
    ensures y in Members(order, keys, x) <==> y in order && Linked(keys, x, y)
  {
    if order == [] {
    } else {
      MembersExact(order[..|order| - 1], keys, x, y);
    }
  }

  lemma {:induction false} MembersOfLinked(order: seq<Id>, keys: KeyMap, x: Id, y: Id)
    requires Linked(keys, x, y)
    ensures Members(order, keys, x) == Members(order, keys, y)
  {
    if order == [] {
    } else {
      var z := order[|order| - 1];
      MembersOfLinked(order[..|order| - 1], keys, x, y);
      if Linked(keys, x, z) {
        LinkedSymmetric(keys, x, y);
        LinkedTransitive(keys, y, x, z);
      } else if Linked(keys, y, z) {
        LinkedTransitive(keys, x, y, z);
      }
    }
  }

  // ------------------------------------------------------- the planner's loop

  /** The classes of the union-find are the chains through the keys read so far. */
  ghost predicate Exact(rep: map<Id, Id>, keys: KeyMap) {
    && rep.Keys == keys.Keys
    && forall a, b {:trigger Linked(keys, a, b)} ::
         a in keys && b in keys ==> (rep[a] == rep[b] <==> Linked(keys, a, b))
  }

  /** `owner` remembers, for every key read so far, one archive that carries it. */
  ghost predicate Owners(owner: map<string, Id>, keys: KeyMap) {
    && (forall k :: k in owner ==> owner[k] in keys && k in keys[owner[k]])
    && (forall a, k :: a in keys && k in keys[a] ==> k in owner)
  }

  /** Classes that respect every shared key respect every chain. */
  lemma {:induction false} ChainStaysInClass(rep: map<Id, Id>, keys: KeyMap, p: seq<Id>, a: Id, b: Id)
    requires rep.Keys == keys.Keys && IsChain(keys, p, a, b)
    requires forall x, y :: Share(keys, x, y) ==> rep[x] == rep[y]
    ensures b in rep && rep[a] == rep[b]
    decreases |p|
  {
    if |p| > 1 {
      var c := p[|p| - 2];
      assert IsChain(keys, p[..|p| - 1], a, c);
      ChainStaysInClass(rep, keys, p[..|p| - 1], a, c);
      assert Share(keys, p[|p| - 2], p[|p| - 1]);
    }
  }

  /** Reading a key that some archive already carries: one union keeps the classes exact. */
  lemma SharedKeyKeepsExact(rep: map<Id, Id>, keys: KeyMap, x: Id, o: Id, k: string)
    requires Exact(rep, keys) && x in keys && o in keys && k in keys[o]
    ensures Exact(Merged(rep, x, o), keys[x := keys[x] + {k}])
  {
    var keys', rep' := keys[x := keys[x] + {k}], Merged(rep, x, o);
    forall a, b | a in keys' && b in keys'
      ensures rep'[a] == rep'[b] <==> Linked(keys', a, b)
    {
      if rep[a] == rep[b] {
        LinkedMonotone(keys, keys', a, b);
      } else if rep'[a] == rep'[b] {
        assert Share(keys', x, o);
        ShareIsLink(keys', x, o);
        ReachesMerged(rep, keys, keys', x, o, a);
        ReachesMerged(rep, keys, keys', x, o, b);
        LinkedTransitive(keys', a, x, b);
      }
      if Linked(keys', a, b) {
        forall u, v | Share(keys', u, v)
          ensures rep'[u] == rep'[v]
        {
          NewShare(rep, keys, x, o, k, u, v);
        }
        var p :| IsChain(keys', p, a, b);
        ChainStaysInClass(rep', keys', p, a, b);
      }
    }
  }

  /** Whatever the union put into the class of `x` is linked to `x` by the new key. */
  lemma ReachesMerged(rep: map<Id, Id>, keys: KeyMap, keys': KeyMap, x: Id, o: Id, a: Id)
    requires Exact(rep, keys) && x in keys && o in keys && a in keys
    requires keys.Keys == keys'.Keys && forall y :: y in keys ==> keys[y] <= keys'[y]
    requires Linked(keys', x, o)
    requires Merged(rep, x, o)[a] == rep[x]
    ensures Linked(keys', a, x) && Linked(keys', x, a)
  {
    if rep[a] == rep[x] {
      assert Linked(keys, a, x);
      LinkedMonotone(keys, keys', a, x);
    } else {
      assert Linked(keys, a, o);
      LinkedMonotone(keys, keys', a, o);
      LinkedSymmetric(keys', x, o);
      LinkedTransitive(keys', a, o, x);
    }
    LinkedSymmetric(keys', a, x);
  }

  lemma NewShare(rep: map<Id, Id>, keys: KeyMap, x: Id, o: Id, k: string, u: Id, v: Id)
    requires Exact(rep, keys) && x in keys && o in keys && k in keys[o]
    requires Share(keys[x := keys[x] + {k}], u, v)
    ensures u in rep && v in rep && Merged(rep, x, o)[u] == Merged(rep, x, o)[v]
  {
    var keys' := keys[x := keys[x] + {k}];
    var j :| j in keys'[u] && j in keys'[v];
    if Share(keys, u, v) {
      ShareIsLink(keys, u, v);
    } else {
      assert j == k && (u == x || v == x);
      if u == x && v != x {
        assert Share(keys, v, o);
        ShareIsLink(keys, v, o);
      } else if v == x && u != x {
        assert Share(keys, u, o);
        ShareIsLink(keys, u, o);
      }
    }
  }

  /** Reading a key for the first time links nothing. */
  lemma FreshKeyKeepsExact(rep: map<Id, Id>, keys: KeyMap, x: Id, k: string)
    requires Exact(rep, keys) && x in keys
    requires forall a :: a in keys ==> k !in keys[a]
    ensures Exact(rep, keys[x := keys[x] + {k}])
  {
    var keys' := keys[x := keys[x] + {k}];
    forall u, v | Share(keys', u, v)
      ensures rep[u] == rep[v]
    {
      if u != v {
        var j :| j in keys'[u] && j in keys'[v];
        assert j in keys[u] && j in keys[v];
        ShareIsLink(keys, u, v);
      }
    }
    forall a, b | a in keys' && b in keys'
      ensures rep[a] == rep[b] <==> Linked(keys', a, b)
    {
      if rep[a] == rep[b] {
        LinkedMonotone(keys, keys', a, b);
      }
      if Linked(keys', a, b) {
        var p :| IsChain(keys', p, a, b);
        ChainStaysInClass(rep, keys', p, a, b);
      }
    }
  }

  lemma NoKeysIsExact(ids: set<Id>)
    ensures Exact(map x | x in ids :: x, map x | x in ids :: {})
  {
    var keys: KeyMap := map x | x in ids :: {};
    var rep: map<Id, Id> := map x | x in ids :: x;
    forall a, b | a in keys && b in keys
      ensures rep[a] == rep[b] <==> Linked(keys, a, b)
    {
      if a == b {
        LinkedReflexive(keys, a);
      }
      if Linked(keys, a, b) {
        var p :| IsChain(keys, p, a, b);
        assert forall x, y :: !Share(keys, x, y);
        ChainStaysInClass(rep, keys, p, a, b);
      }
    }
  }

  /** What the planner's grouping promises: a partition of the archives into key-linked groups. */
  ghost predicate Grouped(order: seq<Id>, keys: KeyMap, groups: map<Id, seq<Id>>) {
    && (forall r :: r in groups ==> r in order && groups[r] == Members(order, keys, r))
    && (forall x :: x in order ==> exists r :: r in groups && x in groups[r])
    && (forall r, s :: r in groups && s in groups && r != s ==> !Linked(keys, r, s))
  }

  /** The classes, and the first carrier of each key, agree with the keys read so far. */
  ghost predicate ReadSoFar(forest: Forest, owner: map<string, Id>, read: KeyMap)
    reads forest
  {
    forest.Valid() && Exact(forest.rep, read) && Owners(owner, read)
  }

  /** One key of one archive: a union if some archive already carries it. */
  method ReadKey(forest: Forest, owner: map<string, Id>, x: Id, k: string, ghost read: KeyMap)
    returns (owner': map<string, Id>)
    requires ReadSoFar(forest, owner, read) && x in read
    modifies forest
    ensures ReadSoFar(forest, owner', read[x := read[x] + {k}])
  {
    if k in owner {
      SharedKeyKeepsExact(forest.rep, read, x, owner[k], k);
      forest.Union(x, owner[k]);
      owner' := owner;
    } else {
      FreshKeyKeepsExact(forest.rep, read, x, k);
      owner' := owner[k := x];
    }
  }

  /** All the keys of one archive, in whatever order its set yields them. */
  method ReadArchive(forest: Forest, owner: map<string, Id>, x: Id, keysOfX: set<string>, ghost read: KeyMap)
    returns (owner': map<string, Id>)
    requires ReadSoFar(forest, owner, read) && x in read
    modifies forest
    ensures ReadSoFar(forest, owner', read[x := read[x] + keysOfX])
  {
    var todo := keysOfX;
    owner' := owner;
    assert read[x] + (keysOfX - todo) == read[x];
    assert read[x := read[x] + (keysOfX - todo)] == read;
    while todo != {}
      invariant todo <= keysOfX
      invariant ReadSoFar(forest, owner', read[x := read[x] + (keysOfX - todo)])
      decreases todo
    {
      var k :| k in todo;
      ghost var now := read[x := read[x] + (keysOfX - todo)];
      owner' := ReadKey(forest, owner', x, k, now);
      todo := todo - {k};
      assert now[x] + {k} == read[x] + (keysOfX - todo);
      assert now[x := now[x] + {k}] == read[x := read[x] + (keysOfX - todo)];
    }
    assert keysOfX - todo == keysOfX;
  }

  /** The keys of the first `i` archives. */
  ghost function FirstKeys(order: seq<Id>, keys: KeyMap, i: nat): KeyMap
    requires i <= |order| && forall x :: x in order ==> x in keys
  {
    map x | x in keys :: if x in order[..i] then keys[x] else {}
  }

  lemma NextKeys(order: seq<Id>, keys: KeyMap, i: nat)
    requires i < |order| && forall x :: x in order ==> x in keys
    ensures order[i] in keys
    ensures var read := FirstKeys(order, keys, i);
            read[order[i] := read[order[i]] + keys[order[i]]] == FirstKeys(order, keys, i + 1)
  {
    var x, read := order[i], FirstKeys(order, keys, i);
    assert order[..i + 1] == order[..i] + [x];
    assert read[x] + keys[x] == keys[x];
    assert read[x := keys[x]] == FirstKeys(order, keys, i + 1);
  }

  lemma AllKeys(order: seq<Id>, keys: KeyMap)
    requires forall x :: x in order <==> x in keys
    ensures FirstKeys(order, keys, |order|) == keys
    ensures FirstKeys(order, keys, 0) == map x | x in keys.Keys :: {}
  {
    assert order[..|order|] == order;
  }

  /** Reads every key once, with a union for every key seen before. */
  method Classes(order: seq<Id>, keys: KeyMap) returns (forest: Forest)
    requires keys.Keys == set x | x in order
    ensures fresh(forest) && forest.Valid()
    ensures Exact(forest.rep, keys)
  {
    forest := new Forest(set x | x in order);
    var owner: map<string, Id> := map[];
    NoKeysIsExact(keys.Keys);
    AllKeys(order, keys);
    assert forest.rep == map x | x in keys.Keys :: x;
    var i := 0;
    while i < |order|
      invariant 0 <= i <= |order|
      invariant fresh(forest) && ReadSoFar(forest, owner, FirstKeys(order, keys, i))
    {
      var x := order[i];
      ghost var read := FirstKeys(order, keys, i);
      owner := ReadArchive(forest, owner, x, keys[x], read);
      NextKeys(order, keys, i);
      i := i + 1;
    }
  }

  /** `build_cleanup_report`'s components dictionary: root to members in reading order. */
  method Group(order: seq<Id>, keys: KeyMap) returns (groups: map<Id, seq<Id>>)
    requires keys.Keys == set x | x in order
    ensures Grouped(order, keys, groups)
  {
    var forest := Classes(order, keys);
    ghost var rep := forest.rep;
    groups := map[];
    var i := 0;
    while i < |order|
      invariant 0 <= i <= |order|
      invariant forest.Valid() && forest.rep == rep
      invariant GroupedSoFar(order, keys, rep, groups, i)
    {
      var x := order[i];
      var root := forest.Find(x);
      assert LinkOk(forest.parent, rep, forest.rank, forest.top, x);
      assert LinkOk(forest.parent, rep, forest.rank, forest.top, root);
      AppendKeepsGrouped(order, keys, rep, groups, i, root);
      groups := groups[root := (if root in groups then groups[root] else []) + [x]];
      i := i + 1;
    }
    assert order[..i] == order;
    AllGrouped(order, keys, rep, groups);
  }

  lemma AllGrouped(order: seq<Id>, keys: KeyMap, rep: map<Id, Id>, groups: map<Id, seq<Id>>)
    requires order[..|order|] == order && GroupedSoFar(order, keys, rep, groups, |order|)
    ensures Grouped(order, keys, groups)
  {
    forall x | x in order
      ensures exists r :: r in groups && x in groups[r]
    {
      var j :| 0 <= j < |order| && order[j] == x;
      var r := rep[x];
      assert r in groups && Linked(keys, r, x);
      MembersExact(order, keys, r, x);
    }
    forall r, s | r in groups && s in groups && r != s
      ensures !Linked(keys, r, s)
    {
      assert rep[r] != rep[s];
    }
  }

  /** The components dictionary after the first `i` archives have been appended. */
  ghost predicate GroupedSoFar(order: seq<Id>, keys: KeyMap, rep: map<Id, Id>, groups: map<Id, seq<Id>>, i: nat)
    requires i <= |order|
  {
    && Exact(rep, keys) && (forall x :: x in order <==> x in keys)
    && (forall r :: r in groups ==> r in rep && rep[r] == r && groups[r] == Members(order[..i], keys, r))
    && (forall j :: 0 <= j < i ==> rep[order[j]] in groups)
  }

  lemma AppendKeepsGrouped(order: seq<Id>, keys: KeyMap, rep: map<Id, Id>, groups: map<Id, seq<Id>>, i: nat, root: Id)
    requires i < |order| && GroupedSoFar(order, keys, rep, groups, i)
    requires order[i] in rep && root == rep[order[i]] && root in rep && rep[root] == root
    ensures GroupedSoFar(order, keys, rep,
                         groups[root := (if root in groups then groups[root] else []) + [order[i]]], i + 1)
  {
    hide Linked;
    var x := order[i];
    var groups' := groups[root := (if root in groups then groups[root] else []) + [x]];
    assert order[..i + 1][..i] == order[..i];
    assert Linked(keys, root, x);
    if root !in groups {
      NothingLinkedYet(order[..i], keys, rep, root);
    }
    forall r | r in groups'
      ensures r in rep && rep[r] == r && groups'[r] == Members(order[..i + 1], keys, r)
    {
      if r != root {
        assert rep[r] != rep[x];
        assert !Linked(keys, r, x);
      }
    }
  }

  lemma {:induction false} NothingLinkedYet(order: seq<Id>, keys: KeyMap, rep: map<Id, Id>, root: Id)
    requires Exact(rep, keys) && root in keys && rep[root] == root
    requires forall j :: 0 <= j < |order| ==> order[j] in keys && rep[order[j]] != root
    ensures Members(order, keys, root) == []
  {
    if order == [] {
    } else {
      NothingLinkedYet(order[..|order| - 1], keys, rep, root);
      assert !Linked(keys, root, order[|order| - 1]);
    }
  }
}
