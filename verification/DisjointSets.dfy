/**
 The planner's union-find: a dictionary of parents that `find` shortens by path
 halving and that `union` extends by hanging one root below another, with no ranks.
 */
module DisjointSets {
  type Id = string

  /** One element's link is sound: it stays in the dictionary and in its class, and climbs. */
  ghost predicate LinkOk(parent: map<Id, Id>, rep: map<Id, Id>, rank: map<Id, nat>, top: nat, x: Id)
    requires x in parent
  {
    && x in rep && x in rank && parent[x] in parent && rep[x] in parent
    && parent[x] in rep && rep[parent[x]] == rep[x]
    && parent[rep[x]] == rep[x]
    && (parent[x] == x <==> rep[x] == x)
    && rank[x] <= top
    && parent[x] in rank && (parent[x] != x ==> rank[x] < rank[parent[x]])
  }

  ghost predicate Sound(parent: map<Id, Id>, rep: map<Id, Id>, rank: map<Id, nat>, top: nat) {
    && rep.Keys == parent.Keys
    && rank.Keys == parent.Keys
    && forall x {:trigger LinkOk(parent, rep, rank, top, x)} :: x in parent ==> LinkOk(parent, rep, rank, top, x)
  }

  /** Skipping one ancestor keeps every link sound with the same representatives and ranks. */
  lemma HalvingKeepsSound(parent: map<Id, Id>, rep: map<Id, Id>, rank: map<Id, nat>, top: nat, v: Id)
    requires Sound(parent, rep, rank, top)
    requires v in parent && parent[v] != v
    ensures parent[v] in parent && parent[parent[v]] in parent
    ensures Sound(parent[v := parent[parent[v]]], rep, rank, top)
    ensures rank[v] < rank[parent[parent[v]]]
    ensures rep[parent[parent[v]]] == rep[v]
  {
    assert LinkOk(parent, rep, rank, top, v);
    var p := parent[v];
    assert LinkOk(parent, rep, rank, top, p);
    var q := parent[p];
    assert LinkOk(parent, rep, rank, top, q);
    var halved := parent[v := q];
    forall x | x in halved
      ensures LinkOk(halved, rep, rank, top, x)
    {
      assert LinkOk(parent, rep, rank, top, x);
      if x == v {
        assert rep[x] != v;
      }
    }
  }

  /** The links below two roots, seen from one element, after `r` is hung below `l`. */
  lemma LinkOkAfterLinking(parent: map<Id, Id>, rep: map<Id, Id>, rank: map<Id, nat>, top: nat,
                           left: Id, right: Id, l: Id, r: Id, rank': map<Id, nat>, top': nat, x: Id)
    requires rep.Keys == parent.Keys == rank.Keys && left in rep && right in rep
    requires x in parent && LinkOk(parent, rep, rank, top, x)
    requires l in parent && LinkOk(parent, rep, rank, top, l) && parent[l] == l && l == rep[left]
    requires r in parent && LinkOk(parent, rep, rank, top, r) && parent[r] == r && r == rep[right] && l != r
    requires rank' == rank[l := if rank[l] > rank[r] then rank[l] else rank[r] + 1]
    requires top' == if rank'[l] > top then rank'[l] else top
    ensures LinkOk(parent[r := l], Merged(rep, left, right), rank', top', x)
  {
    var rep' := Merged(rep, left, right);
    assert rep'[x] == if rep[x] == r then l else rep[x];
    assert rep'[parent[x]] == if rep[parent[x]] == r then l else rep[parent[x]];
    assert rep'[l] == l;
    hide Merged;
  }

  /** Hanging one root below another keeps every link sound for the merged classes. */
  lemma LinkingKeepsSound(parent: map<Id, Id>, rep: map<Id, Id>, rank: map<Id, nat>, top: nat,
                          left: Id, right: Id, l: Id, r: Id, rank': map<Id, nat>, top': nat)
    requires Sound(parent, rep, rank, top)
    requires left in parent && right in parent && left in rep && right in rep && l in rank && r in rank
    requires l in parent && r in parent && l == rep[left] && r == rep[right] && l != r
    requires parent[l] == l && parent[r] == r
    requires rank' == rank[l := if rank[l] > rank[r] then rank[l] else rank[r] + 1]
    requires top' == if rank'[l] > top then rank'[l] else top
    ensures Sound(parent[r := l], Merged(rep, left, right), rank', top')
  {
    hide LinkOk;
    assert LinkOk(parent, rep, rank, top, l);
    assert LinkOk(parent, rep, rank, top, r);
    var parent', rep' := parent[r := l], Merged(rep, left, right);
    assert rep'.Keys == parent'.Keys && rank'.Keys == parent'.Keys;
    forall x | x in parent'
      ensures LinkOk(parent', rep', rank', top', x)
    {
      assert x in parent;
      assert LinkOk(parent, rep, rank, top, x);
      LinkOkAfterLinking(parent, rep, rank, top, left, right, l, r, rank', top', x);
    }
  }

  lemma InDictionary(parent: map<Id, Id>, rep: map<Id, Id>, rank: map<Id, nat>, top: nat, x: Id)
    requires Sound(parent, rep, rank, top) && x in parent
    ensures x in rep && x in rank && rep[x] in parent && rep[x] in rank && parent[rep[x]] == rep[x]
  {
    assert LinkOk(parent, rep, rank, top, x);
  }

  lemma MergedAlready(rep: map<Id, Id>, left: Id, right: Id)
    requires left in rep && right in rep && rep[left] == rep[right]
    ensures Merged(rep, left, right) == rep
  {
  }

  class Forest {
    var parent: map<Id, Id>

    // Abstract view: the representative that climbing from an element ends at.
    ghost var rep: map<Id, Id>
    // Climbing strictly raises `rank`, which stays within `top`: no cycles.
    ghost var rank: map<Id, nat>
    ghost var top: nat

    ghost predicate Valid()
      reads this
    {
      Sound(parent, rep, rank, top)
    }

    /** Every element starts as its own root. */
    constructor (ids: set<Id>)
      ensures Valid()
      ensures parent.Keys == ids
      ensures rep == map x | x in ids :: x
    {
      parent := map x | x in ids :: x;
      rep := map x | x in ids :: x;
      rank := map x | x in ids :: 0;
      top := 0;
    }

    /**
     The root of `start`. Halving rewrites parents on the way up but moves no
     element to another class, since `rep` is not among what is modified.
     */
    method Find(start: Id) returns (root: Id)
      requires Valid() && start in parent
      modifies this`parent
      ensures Valid()
      ensures parent.Keys == old(parent.Keys)
      ensures root in parent && start in rep && root == rep[start] && parent[root] == root
    {
      var value := start;
      while parent[value] != value
        invariant Valid() && parent.Keys == old(parent.Keys)
        invariant value in parent && start in rep && rep[value] == rep[start]
        decreases top - rank[value]
      {
        HalvingKeepsSound(parent, rep, rank, top, value);
        ghost var halved := parent[value := parent[parent[value]]];
        assert LinkOk(halved, rep, rank, top, value);
        parent := parent[value := parent[parent[value]]];
        value := parent[value];
      }
      assert LinkOk(parent, rep, rank, top, value);
      root := value;
    }

    /** Merges the two classes into one named by the root of `left`. */
    method Union(left: Id, right: Id)
      requires Valid() && left in parent && right in parent
      modifies this
      ensures Valid()
      ensures parent.Keys == old(parent.Keys)
      ensures left in old(rep) && right in old(rep) && rep == Merged(old(rep), left, right)
    {
      hide Sound, Merged;
      var leftRoot := Find(left);
      var rightRoot := Find(right);
      InDictionary(parent, rep, rank, top, left);
      InDictionary(parent, rep, rank, top, right);
      if leftRoot != rightRoot {
        ghost var raised := if rank[leftRoot] > rank[rightRoot] then rank[leftRoot] else rank[rightRoot] + 1;
        ghost var rank' := rank[leftRoot := raised];
        ghost var top' := if rank'[leftRoot] > top then rank'[leftRoot] else top;
        LinkingKeepsSound(parent, rep, rank, top, left, right, leftRoot, rightRoot, rank', top');
        parent := parent[rightRoot := leftRoot];
        rep, rank, top := Merged(rep, left, right), rank', top';
      } else {
        MergedAlready(rep, left, right);
      }
    }
  }

  /** The representatives after the class of `right` has joined that of `left`. */
  ghost function Merged(rep: map<Id, Id>, left: Id, right: Id): (r: map<Id, Id>)
    requires left in rep && right in rep
  {
    map x | x in rep :: if rep[x] == rep[right] then rep[left] else rep[x]
  }

  /** `n` steps up the parent map (staying put once outside it). */
  ghost function Climb(parent: map<Id, Id>, x: Id, n: nat): Id
    decreases n
  {
    if n == 0 || x !in parent then x else Climb(parent, parent[x], n - 1)
  }

  /**
   The abstract view is what climbing computes: from every element some number of
   steps reaches its representative, and no further step leaves it.
   */
  lemma {:induction false} ClimbReachesRep(f: Forest, x: Id) returns (n: nat)
    requires f.Valid() && x in f.parent
    ensures x in f.rep && Climb(f.parent, x, n) == f.rep[x]
    ensures Climb(f.parent, f.rep[x], 1) == f.rep[x]
    decreases f.top - f.rank[x]
  {
    assert LinkOk(f.parent, f.rep, f.rank, f.top, x);
    if f.parent[x] == x {
      n := 0;
    } else {
      assert LinkOk(f.parent, f.rep, f.rank, f.top, f.parent[x]);
      var m := ClimbReachesRep(f, f.parent[x]);
      n := m + 1;
    }
  }
}
