/**
 What holds of every file, whether all, some or none of its blocks have a management-fee row:
 the index of blank rows is right at every moment, so no continuation falls back to being
 appended at the end, and no row is lost or doubled, wherever it lands.
 */
module MixedFiles {
  import opened Catalogue
  import opened Materials
  import opened CrossPageJoin
  import opened JoinedBlocks
  import opened JoinedFiles
  import opened FeeVerification
  import opened QuotaFile

  // ------------------------------------------------------- the index is right

  /**
   After any pages: the projects seen are those with an entry in the index, and each entry is
   a blank row whose nearest head above is its own project. So a continuation that comes next
   finds an entry for each of its projects.
   */
  lemma {:induction false} IndexIsRight(p: Profile, pages: seq<Page>)
    requires AllWellRead(pages)
    ensures Anchored(WriteAll(TablesOf(p, pages))) && WriteAll(TablesOf(p, pages)).seen == SeenBy(p, pages)
    ensures forall c: Content, x :: Continues(p, SeenBy(p, pages), c) && x in c.quota.pids ==>
                                      x in WriteAll(TablesOf(p, pages)).blanks
  {
    if pages == [] {
    } else {
      hide Anchored, Write, TableOf;
      var front, page := pages[..|pages| - 1], pages[|pages| - 1];
      IndexIsRight(p, front);
      assert page in pages;
      var s := WriteAll(TablesOf(p, front));
      var t := TableOf(p, SeenBy(p, front), page);
      assert (TablesOf(p, front) + [t])[..|TablesOf(p, front)|] == TablesOf(p, front);
      AnchoredInBounds(s);
      SeenAfterPage(p, s, page);
      PageKeepsAnchored(p, s, page);
    }
    AnchoredHasAll(WriteAll(TablesOf(p, pages)));
  }

  lemma AnchoredHasAll(s: Sheet)
    requires Anchored(s)
    ensures s.blanks.Keys == s.seen
  {
  }

  lemma PageKeepsAnchored(p: Profile, s: Sheet, page: Page)
    requires AllWellRead([page]) && Anchored(s)
    ensures Anchored(Write(s, TableOf(p, s.seen, page)))
  {
    hide Anchored, Emit, JoinAll, ContinuationRows, AllBlocks, WellRead, Flat, AllInner, Closed;
    var t := TableOf(p, s.seen, page);
    var s' := s.(rows := s.rows + t.headings);
    HeadingsKeepAnchored(s, page.headings);
    assert page in [page];
    match t {
      case Main(_, blocks) =>
        BlocksAreFresh(p, MainQuotas(p, s.seen, page.content));
        NothingIsClosed();
        BlocksAreClosed([], blocks);
        assert [] + Flat(Projects(blocks)) == Flat(Projects(blocks));
        EmitKeepsAnchored(s', Flat(Projects(blocks)));
      case Continuation(_, pids, rows, deltas) =>
        ContinuationIsGood(page.content.continued.value, pids, p.cents);
        JoinAllKeepsAnchored(s', pids, rows, deltas, |pids|);
    }
  }

  lemma HeadingsKeepAnchored(s: Sheet, hs: seq<(string, string)>)
    requires Anchored(s)
    ensures Anchored(s.(rows := s.rows + Headings(hs)))
  {
    hide IsBlank, HeadBefore;
    var rows := s.rows + Headings(hs);
    forall x | x in s.blanks
      ensures ClosesProject(rows, s.blanks[x], x)
    {
      assert ClosesProject(s.rows, s.blanks[x], x);
      HeadBeforePrefix(rows, s.rows, s.blanks[x]);
    }
  }

  /** In blocks laid end to end, every head is closed by its own block's blank row. */
  lemma {:induction false} BlocksAreClosed(front: seq<Row>, blocks: seq<Block>)
    requires forall i :: 0 <= i < |blocks| ==> GoodBlock(blocks[i])
    requires Closed(front)
    ensures Closed(front + Flat(Projects(blocks)))
    decreases |blocks|
  {
    hide GoodBlock, BlockRows, Closed;
    if blocks == [] {
      assert front + Flat(Projects(blocks)) == front;
    } else {
      var rest := Flat(Projects(blocks[1..]));
      FrontFlat(blocks);
      OneMoreClosed(front, blocks[0]);
      BlocksAreClosed(front + BlockRows(blocks[0]), blocks[1..]);
      assert front + Flat(Projects(blocks)) == front + BlockRows(blocks[0]) + rest;
    }
  }

  lemma NothingIsClosed()
    ensures Closed([])
  {
  }

  lemma OneMoreClosed(front: seq<Row>, b: Block)
    requires GoodBlock(b) && Closed(front)
    ensures Closed(front + BlockRows(b))
  {
    BlockShape(front, b, []);
    HeadsOfBlock(b);
    HeadIsQuota(b);
    BlankIsBlank(b);
    hide GoodBlock, BlockRows, IsBlank, IsQuota, HeadBefore;
    var rows := front + BlockRows(b);
    assert rows == front + BlockRows(b) + [];
    var last := |rows| - 1;
    HeadCloses(rows, |front|, last);
    forall x | x in Heads(rows)
      ensures exists j :: ClosesProject(rows, j, x)
    {
      if x == b.head.pid {
        assert ClosesProject(rows, last, x);
      } else {
        HeadsConcat(front, BlockRows(b));
        var j :| ClosesProject(front, j, x);
        HeadBeforePrefix(rows, front, j);
        assert ClosesProject(rows, j, x);
      }
    }
  }

  lemma BlankIsBlank(b: Block)
    requires GoodBlock(b)
    ensures IsBlank(b.blank)
  {
  }

  lemma HeadCloses(rows: seq<Row>, h: nat, last: nat)
    requires h < last < |rows| && IsQuota(rows[h]) && rows[h].pid != "" && IsBlank(rows[last])
    requires forall k :: h < k < last ==> IsInner(rows[k])
    ensures ClosesProject(rows, last, rows[h].pid)
  {
    HeadBeforeOver(rows, h, last);
  }

  lemma HeadsConcat(a: seq<Row>, b: seq<Row>)
    ensures Heads(a + b) == Heads(a) + Heads(b)
  {
  }

  // ---------------------------------------------------------- no row is lost

  /** A row without the verification total, which continuations raise on heads. */
  function Untotalled(r: Row): Row {
    if IsQuota(r) then r.(value := None) else r
  }

  /** All the rows, in any order. */
  ghost function Bag(rows: seq<Row>): multiset<Row> {
    if rows == [] then multiset{} else Bag(rows[..|rows| - 1]) + multiset{Untotalled(rows[|rows| - 1])}
  }

  /** What a table has to leave in the list. */
  ghost function Poured(t: Table): multiset<Row> {
    Bag(t.headings) + match t
                      case Main(_, blocks) => Bag(Flat(Projects(blocks)))
                      case Continuation(_, _, rows, _) => Bag(Cleared(rows))
  }

  ghost function PouredAll(tables: seq<Table>): multiset<Row> {
    if tables == [] then multiset{} else PouredAll(tables[..|tables| - 1]) + Poured(tables[|tables| - 1])
  }

  /**
   In the end the list holds the headings, the rows of the emitted tables and the continuation
   rows, each as often as it was read, and nothing else - even if continuation rows landed in
   another project's block.
   */
  lemma {:induction false} NoRowIsLost(p: Profile, pages: seq<Page>)
    requires AllWellRead(pages)
    ensures Bag(WriteAll(TablesOf(p, pages)).rows) == PouredAll(TablesOf(p, pages))
  {
    if pages == [] {
    } else {
      hide Anchored, Write, TableOf, Bag, Poured;
      var front, page := pages[..|pages| - 1], pages[|pages| - 1];
      NoRowIsLost(p, front);
      IndexIsRight(p, front);
      assert page in pages;
      var s := WriteAll(TablesOf(p, front));
      var t := TableOf(p, SeenBy(p, front), page);
      assert (TablesOf(p, front) + [t])[..|TablesOf(p, front)|] == TablesOf(p, front);
      PageLosesNothing(p, s, page);
    }
  }

  lemma PageLosesNothing(p: Profile, s: Sheet, page: Page)
    requires AllWellRead([page]) && Anchored(s)
    ensures var t := TableOf(p, s.seen, page); Bag(Write(s, t).rows) == Bag(s.rows) + Poured(t)
  {
    hide Anchored, JoinAll, ContinuationRows, AllBlocks, Flat, Bag, Record, Heads, Headings, NoRepeats, Continues;
    var t := TableOf(p, s.seen, page);
    var s' := s.(rows := s.rows + t.headings);
    BagConcat(s.rows, t.headings);
    assert page in [page];
    match t {
      case Main(_, blocks) =>
        BagConcat(s'.rows, Flat(Projects(blocks)));
        Associative(Bag(s.rows), Bag(t.headings), Bag(Flat(Projects(blocks))));
      case Continuation(_, pids, rows, deltas) =>
        AnchoredInBounds(s);
        HeadingsInBounds(s, t.headings);
        JoinAllBag(s', pids, rows, deltas, |pids|);
        RowsOfPage(p, s.seen, page);
        SharesAreAll(pids, rows);
        Associative(Bag(s.rows), Bag(t.headings), Bag(Cleared(rows)));
    }
  }

  lemma {:induction false} BagConcat(a: seq<Row>, b: seq<Row>)
    ensures Bag(a + b) == Bag(a) + Bag(b)
  {
    hide Bag;
    if b == [] {
      assert a + b == a;
      BagOfNone();
    } else {
      var front, r := b[..|b| - 1], b[|b| - 1];
      assert b == front + [r] && a + b == (a + front) + [r];
      hide *;
      BagConcat(a, front);
      BagOfMore(a + front, r);
      BagOfMore(front, r);
      Associative(Bag(a), Bag(front), Bag([r]));
    }
  }

  lemma BagOfMore(rows: seq<Row>, r: Row)
    ensures Bag(rows + [r]) == Bag(rows) + Bag([r])
  {
    hide Untotalled;
    BagOfOne(r);
    assert (rows + [r])[..|rows|] == rows;
  }

  lemma Associative<T>(x: multiset<T>, y: multiset<T>, z: multiset<T>)
    ensures x + y + z == x + (y + z)
  {
  }

  /** Rows in the middle count the same at the end. */
  lemma BagOfSpliced(a: seq<Row>, b: seq<Row>, c: seq<Row>)
    ensures Bag(a + b + c) == Bag(a + c) + Bag(b)
  {
    hide Bag;
    BagConcat(a + b, c);
    BagConcat(a, b);
    BagConcat(a, c);
    Commutes(Bag(a), Bag(b), Bag(c));
  }

  lemma Commutes<T>(x: multiset<T>, y: multiset<T>, z: multiset<T>)
    ensures x + y + z == x + z + y
  {
  }

  lemma {:induction false} BagOfRaised(rows: seq<Row>, i: nat, pid: string, delta: int)
    requires i <= |rows|
    ensures Bag(AddToHead(rows, i, pid, delta)) == Bag(rows)
  {
    hide Bag;
    if i == 0 {
    } else if IsQuota(rows[i - 1]) && rows[i - 1].pid == pid {
      BagOfReplaced(rows, i - 1, rows[i - 1].(value := Some(Cents(rows[i - 1]) + delta)));
    } else {
      BagOfRaised(rows, i - 1, pid, delta);
    }
  }

  lemma BagOfReplaced(rows: seq<Row>, i: nat, r: Row)
    requires i < |rows| && Untotalled(r) == Untotalled(rows[i])
    ensures Bag(rows[i := r]) == Bag(rows)
  {
    BagOfOne(r);
    BagOfOne(rows[i]);
    Reassembles(rows, i, r);
    hide *;
    BagOfSpliced(rows[..i], [r], rows[i + 1..]);
    BagOfSpliced(rows[..i], [rows[i]], rows[i + 1..]);
  }

  lemma Reassembles(rows: seq<Row>, i: nat, r: Row)
    requires i < |rows|
    ensures rows[i := r] == rows[..i] + [r] + rows[i + 1..] && rows == rows[..i] + [rows[i]] + rows[i + 1..]
  {
  }

  lemma BagOfOne(r: Row)
    ensures Bag([r]) == multiset{Untotalled(r)}
  {
    assert [r][..0] == [];
  }

  lemma BagOfInserted(rows: seq<Row>, k: nat, ins: seq<Row>)
    requires k <= |rows|
    ensures Bag(rows[..k] + ins + rows[k..]) == Bag(rows) + Bag(ins)
  {
    hide *;
    BagOfSpliced(rows[..k], ins, rows[k..]);
    assert rows == rows[..k] + rows[k..];
  }

  lemma JoinOneBag(s: Sheet, pid: string, ins: seq<Row>, delta: int)
    requires InBounds(s)
    ensures Bag(JoinOne(s, pid, ins, delta).rows) == Bag(s.rows) + Bag(Cleared(ins))
  {
    if ins == [] {
      assert Cleared(ins) == [];
    } else if pid !in s.blanks {
      BagConcat(s.rows, Cleared(ins));
    } else {
      hide Bag;
      var k := InsertIndex(s.rows, s.blanks[pid], s.blanks[pid]);
      BagOfInserted(s.rows, k, Cleared(ins));
      BagOfRaised(s.rows[..k] + Cleared(ins) + s.rows[k..], k, pid, delta);
    }
  }

  /** What the first `n` projects get out of some rows. */
  ghost function Shares(pids: seq<string>, rows: seq<Row>, n: nat): multiset<Row>
    requires n <= |pids|
  {
    if n == 0 then multiset{} else Shares(pids, rows, n - 1) + Bag(Cleared(RowsOf(rows, pids[n - 1])))
  }

  lemma {:induction false} JoinAllBag(s: Sheet, pids: seq<string>, rows: seq<Row>, deltas: map<string, int>, n: nat)
    requires InBounds(s) && n <= |pids|
    ensures Bag(JoinAll(s, pids, rows, deltas, n).rows) == Bag(s.rows) + Shares(pids, rows, n)
    decreases n
  {
    hide JoinOne, RowsOf, InBounds, Bag;
    if n == 0 {
    } else {
      var x := pids[n - 1];
      var d := if x in deltas then deltas[x] else 0;
      JoinOneInBounds(s, x, RowsOf(rows, x), d);
      JoinOneBag(s, x, RowsOf(rows, x), d);
      JoinAllBag(JoinOne(s, x, RowsOf(rows, x), d), pids, rows, deltas, n - 1);
    }
  }

  lemma RowsOfPage(p: Profile, seen: set<string>, page: Page)
    requires AllWellRead([page])
    ensures var t := TableOf(p, seen, page);
            t.Continuation? ==> NoRepeats(t.pids) && forall r :: r in t.rows ==> r.pid in t.pids
  {
    hide ContinuationRows, AllBlocks, Headings;
    assert page in [page];
    var c := page.content;
    if Continues(p, seen, c) && c.continued.Some? {
      RowsHaveProjects(c.continued.value, c.quota.pids, p.cents);
    }
  }

  lemma {:induction false} RowsHaveProjects(items: seq<Item>, pids: seq<string>, cents: Rounding)
    ensures forall r :: r in ContinuationRows(items, pids, cents) ==> r.pid in pids
  {
    if items == [] {
    } else {
      RowsHaveProjects(items[..|items| - 1], pids, cents);
    }
  }

  lemma {:induction false} SharesAreAll(pids: seq<string>, rows: seq<Row>)
    requires NoRepeats(pids) && forall r :: r in rows ==> r.pid in pids
    ensures Shares(pids, rows, |pids|) == Bag(Cleared(rows))
    decreases |rows|
  {
    hide NoRepeats, Bag;
    BagOfNone();
    if rows == [] {
      assert Cleared(rows) == [];
      SharesOfNone(pids, |pids|);
    } else {
      var front, r := rows[..|rows| - 1], rows[|rows| - 1];
      assert rows == front + [r] && r in rows;
      SharesAreAll(pids, front);
      SharesOfMore(pids, front, r, |pids|);
      assert r.pid in pids[..|pids|] by { assert pids[..|pids|] == pids; }
      assert Cleared(rows) == Cleared(front) + Cleared([r]);
      hide *;
      BagConcat(Cleared(front), Cleared([r]));
    }
  }

  lemma BagOfNone()
    ensures Bag([]) == multiset{}
  {
  }

  lemma {:induction false} SharesOfNone(pids: seq<string>, n: nat)
    requires n <= |pids|
    ensures Shares(pids, [], n) == multiset{}
  {
    if n == 0 {
    } else {
      SharesOfNone(pids, n - 1);
      assert Cleared(RowsOf([], pids[n - 1])) == [];
      BagOfNone();
    }
  }

  /** One row more is one project's row more. */
  lemma {:induction false} SharesOfMore(pids: seq<string>, rows: seq<Row>, r: Row, n: nat)
    requires n <= |pids| && NoRepeats(pids)
    ensures Shares(pids, rows + [r], n)
         == Shares(pids, rows, n) + if r.pid in pids[..n] then Bag(Cleared([r])) else multiset{}
  {
    hide NoRepeats, Bag, RowsOf;
    if n == 0 {
    } else {
      var x := pids[n - 1];
      SharesOfMore(pids, rows, r, n - 1);
      NamedBefore(pids, n, r.pid);
      ShareOfMore(rows, r, x);
      var shares, share, more := Shares(pids, rows, n - 1), Bag(Cleared(RowsOf(rows, x))), Bag(Cleared([r]));
      Commutes(shares, more, share);
      Associative(shares, share, more);
    }
  }

  lemma ShareOfMore(rows: seq<Row>, r: Row, x: string)
    ensures Bag(Cleared(RowsOf(rows + [r], x)))
         == Bag(Cleared(RowsOf(rows, x))) + if r.pid == x then Bag(Cleared([r])) else multiset{}
  {
    hide Bag;
    assert (rows + [r])[..|rows|] == rows;
    if r.pid == x {
      assert Cleared(RowsOf(rows, x) + [r]) == Cleared(RowsOf(rows, x)) + Cleared([r]);
      BagConcat(Cleared(RowsOf(rows, x)), Cleared([r]));
    } else {
      assert RowsOf(rows, x) + [] == RowsOf(rows, x);
    }
  }

  // ------------------------------------------------------------ flawed parts

  function PartsOf(c: Content): seq<Part> {
    match c
    case Single(q, _, _, flawed) => [Part(q, flawed)]
    case Composite(parts) => parts
  }

  /** A page's sound quota tables are all emitted, unless a flawed one stands beside them in the same table. */
  lemma SoundPartsExactly(p: Profile, seen: set<string>, c: Content)
    requires !Continues(p, seen, c)
    ensures (forall part :: part in PartsOf(c) && !part.flawed ==> part.quota in MainQuotas(p, seen, c)) <==>
            || (forall part :: part in PartsOf(c) ==> !part.flawed)
            || (forall part :: part in PartsOf(c) ==> part.flawed)
  {
    if Flawed(c) {
      assert MainQuotas(p, seen, c) == [];
    } else {
      forall part | part in PartsOf(c)
        ensures part.quota in QuotasOf(c)
      {
        var i :| 0 <= i < |PartsOf(c)| && PartsOf(c)[i] == part;
        assert QuotasOf(c)[i] == part.quota;
      }
    }
  }

  /** A sound quota table that leaves no row behind, because of its flawed neighbour. */
  lemma FlawHidesNeighbour(p: Profile)
    ensures var c := Composite([Part(Short("A", []), false), Part(Short("B", []), true)]);
            AllWellRead([Page([], c)]) && WriteAll(TablesOf(p, [Page([], c)])) == Sheet([], map[], {})
  {
    var c := Composite([Part(Short("A", []), false), Part(Short("B", []), true)]);
    assert Flawed(c) by { assert c.parts[1] in c.parts; }
    assert Headings([]) == [];
    assert TableOf(p, {}, Page([], c)) == Main([], AllBlocks(p, []));
    hide AllBlocks, Emit, Flat, WellRead, TableOf, WriteAll, TablesOf;
    OnePage(p, Page([], c));
    EmitNothing(Sheet([], map[], {}));
    FirstTable(Main([], AllBlocks(p, [])));
  }

  lemma OnePage(p: Profile, page: Page)
    ensures TablesOf(p, [page]) == [TableOf(p, {}, page)]
  {
    hide TableOf;
    assert [page][..0] == [] && TablesOf(p, []) == [];
  }

  lemma FirstTable(t: Table)
    requires t.Main? && t.headings == []
    ensures WriteAll([t]) == Emit(Sheet([], map[], {}), Flat(Projects(t.blocks)))
  {
    hide Emit, Flat;
    assert [t][..0] == [] && WriteAll([]) == Sheet([], map[], {});
    assert Sheet([], map[], {}).rows + [] == [];
  }
}
