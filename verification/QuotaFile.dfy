/**
 A whole markdown file, from what is read off its tables to the final row list: which tables
 are continuations follows from the projects seen so far, main tables are emitted with their
 totals, continuations are spliced in. The end result is stated on the input alone.
 */
module QuotaFile {
  import opened Catalogue
  import opened Materials
  import opened CrossPageJoin
  import opened JoinedBlocks
  import opened JoinedFiles
  import opened FeeVerification

  // A quota table as read; a flawed one has a material row without unit or with missing quantities.
  datatype Part = Part(quota: Quota, flawed: bool)

  // What is read off one <table>: a single table, or several quota tables in one. `hasBase`
  // is a base-price row, `continued` the materials from the first category label on, if there
  // is one.
  datatype Content =
    | Single(quota: Quota, hasBase: bool, continued: Option<seq<Item>>, flawed: bool)
    | Composite(parts: seq<Part>)

  // The headings before a table, as (code, name), and the table.
  datatype Page = Page(headings: seq<(string, string)>, content: Content)

  /** Project numbers are not empty, and each is listed once. */
  ghost predicate WellRead(q: Quota) {
    NoRepeats(q.pids) && forall i :: 0 <= i < |q.pids| ==> q.pids[i] != ""
  }

  ghost predicate AllWellRead(pages: seq<Page>) {
    forall page :: page in pages ==>
      match page.content
      case Single(q, _, _, _) => WellRead(q)
      case Composite(parts) => forall part :: part in parts ==> WellRead(part.quota)
  }

  // -------------------------------------------------------------- specification

  function Headings(hs: seq<(string, string)>): (rows: seq<Row>)
    ensures |rows| == |hs| && forall i :: 0 <= i < |rows| ==> rows[i] == Row(HEADING, hs[i].0, hs[i].1, None)
  {
    seq(|hs|, i requires 0 <= i < |hs| => Row(HEADING, hs[i].0, hs[i].1, None))
  }

  /** All its projects have been seen, and it has no base price: it goes on from an earlier page. */
  predicate Continues(p: Profile, seen: set<string>, c: Content) {
    && c.Single? && p.joinsPages && seen != {} && c.quota.pids != [] && !c.hasBase
    && forall x :: x in c.quota.pids ==> x in seen
  }

  /** A composite table is as flawed as the worst of its parts. */
  predicate Flawed(c: Content) {
    match c
    case Single(_, _, _, flawed) => flawed
    case Composite(parts) => exists part :: part in parts && part.flawed
  }

  function QuotasOf(c: Content): (qs: seq<Quota>)
    ensures c.Composite? ==> |qs| == |c.parts| && forall i :: 0 <= i < |qs| ==> qs[i] == c.parts[i].quota
  {
    match c
    case Single(q, _, _, _) => [q]
    case Composite(parts) => seq(|parts|, i requires 0 <= i < |parts| => parts[i].quota)
  }

  /** The quota tables that are emitted; the parts of a composite table are never continuations. */
  function MainQuotas(p: Profile, seen: set<string>, c: Content): seq<Quota> {
    if Continues(p, seen, c) || Flawed(c) then [] else QuotasOf(c)
  }

  ghost function PidsIn(qs: seq<Quota>): set<string> {
    set q, x | q in qs && x in q.pids :: x
  }

  /** The projects seen after some pages. */
  ghost function SeenBy(p: Profile, pages: seq<Page>): set<string> {
    if pages == [] then {}
    else
      var seen := SeenBy(p, pages[..|pages| - 1]);
      seen + PidsIn(MainQuotas(p, seen, pages[|pages| - 1].content))
  }

  ghost function AllBlocks(p: Profile, qs: seq<Quota>): seq<Block> {
    if qs == [] then [] else BlocksOf(p, qs[0], |qs[0].pids|) + AllBlocks(p, qs[1..])
  }

  function Deltas(rows: seq<Row>, pids: seq<string>): map<string, int> {
    map x | x in pids :: Total(RowsOf(rows, x))
  }

  /** What a page comes to, given the projects seen before it. */
  ghost function TableOf(p: Profile, seen: set<string>, page: Page): Table {
    var c := page.content;
    if Continues(p, seen, c) && c.continued.Some? then
      var rows := ContinuationRows(c.continued.value, c.quota.pids, p.cents);
      Continuation(Headings(page.headings), c.quota.pids, rows, Deltas(rows, c.quota.pids))
    else Main(Headings(page.headings), AllBlocks(p, MainQuotas(p, seen, c)))
  }

  ghost function TablesOf(p: Profile, pages: seq<Page>): seq<Table> {
    if pages == [] then []
    else
      var front := pages[..|pages| - 1];
      TablesOf(p, front) + [TableOf(p, SeenBy(p, front), pages[|pages| - 1])]
  }

  // -------------------------------------------------------------- the file loop

  /** One quota table after another. */
  method EmitAll(p: Profile, qs: seq<Quota>) returns (rows: seq<Row>)
    requires forall q :: q in qs ==> WellRead(q)
    ensures rows == Flat(Projects(AllBlocks(p, qs)))
  {
    hide TableRows, Flat;
    rows := [];
    NoBlocks();
    var k := 0;
    while k < |qs|
      invariant 0 <= k <= |qs|
      invariant rows + Flat(Projects(AllBlocks(p, qs[k..]))) == Flat(Projects(AllBlocks(p, qs)))
    {
      var more := EmitTable(p, qs[k]);
      assert WellRead(qs[k]);
      TableEmitsFreshBlocks(p, qs[k], |qs[k].pids|);
      FrontBlocks(p, qs[k..]);
      assert qs[k..][1..] == qs[k + 1..];
      rows := rows + more;
      k := k + 1;
    }
    assert qs[k..] == [];
  }

  lemma NoBlocks()
    ensures Flat(Projects([])) == []
  {
  }

  lemma FrontBlocks(p: Profile, qs: seq<Quota>)
    requires qs != []
    ensures Flat(Projects(AllBlocks(p, qs)))
         == Flat(Projects(BlocksOf(p, qs[0], |qs[0].pids|))) + Flat(Projects(AllBlocks(p, qs[1..])))
  {
    hide Flat, Projects, BlocksOf;
    var a, b := BlocksOf(p, qs[0], |qs[0].pids|), AllBlocks(p, qs[1..]);
    ProjectsConcat(a, b);
    FlatConcat(Projects(a), Projects(b));
  }

  lemma ProjectsConcat(a: seq<Block>, b: seq<Block>)
    ensures Projects(a + b) == Projects(a) + Projects(b)
  {
  }

  /** One page: headings first, then the table as what it turns out to be. */
  method WritePage(book: Book, p: Profile, page: Page)
    requires InBounds(book.View()) && AllWellRead([page])
    modifies book
    ensures book.View() == Write(old(book.View()), TableOf(p, old(book.seen), page)) && InBounds(book.View())
  {
    hide Emit, JoinAll, Flat, ContinuationRows, AllBlocks, InBounds, WellRead;
    ghost var t := TableOf(p, book.seen, page);
    WriteInBounds(book.View(), t);
    assert page in [page];
    book.AppendHeadings(Headings(page.headings));
    var c := page.content;
    if Continues(p, book.seen, c) {
      if c.continued.Some? {
        var rows, deltas := ReadContinuation(c.continued.value, c.quota.pids, p.cents);
        assert deltas == Deltas(rows, c.quota.pids);
        book.Join(c.quota.pids, rows, deltas);
      } else {
        EmitNothing(book.View());
      }
    } else if Flawed(c) {
      EmitNothing(book.View());
    } else {
      var qs := QuotasOf(c);
      assert forall q :: q in qs ==> WellRead(q);
      var rows := EmitAll(p, qs);
      book.AppendMain(rows);
    }
  }

  lemma EmitNothing(s: Sheet)
    ensures forall p: Profile :: Emit(s, Flat(Projects(AllBlocks(p, [])))) == s
  {
    assert Heads([]) == {};
    assert s.rows + [] == s.rows;
    NoBlocks();
  }

  /** `process_md_file`: the loop over the tables of a file. */
  method ProcessFile(p: Profile, pages: seq<Page>) returns (book: Book)
    requires AllWellRead(pages)
    ensures fresh(book) && book.View() == WriteAll(TablesOf(p, pages)) && book.seen == SeenBy(p, pages)
  {
    hide Write, TableOf, InBounds;
    book := new Book();
    NothingInBounds();
    var k := 0;
    while k < |pages|
      invariant 0 <= k <= |pages|
      invariant fresh(book) && InBounds(book.View())
      invariant book.View() == WriteAll(TablesOf(p, pages[..k])) && book.seen == SeenBy(p, pages[..k])
    {
      ghost var before := book.View();
      assert pages[..k + 1][..k] == pages[..k];
      assert pages[k] in pages;
      WritePage(book, p, pages[k]);
      ghost var tables := TablesOf(p, pages[..k]);
      assert TablesOf(p, pages[..k + 1]) == tables + [TableOf(p, before.seen, pages[k])];
      assert (tables + [TableOf(p, before.seen, pages[k])])[..|tables|] == tables;
      SeenAfterPage(p, before, pages[k]);
      k := k + 1;
    }
    assert pages[..k] == pages;
  }

  lemma NothingInBounds()
    ensures InBounds(Sheet([], map[], {}))
  {
  }

  /** A continuation is followed by the same projects seen, a main table adds its own. */
  lemma SeenAfterPage(p: Profile, s: Sheet, page: Page)
    requires AllWellRead([page])
    requires InBounds(s)
    ensures Write(s, TableOf(p, s.seen, page)).seen == s.seen + PidsIn(MainQuotas(p, s.seen, page.content))
  {
    hide Record, Heads, ContinuationRows, AllBlocks, WellRead, Flat, InBounds, JoinAll, PidsIn;
    var t := TableOf(p, s.seen, page);
    var s' := s.(rows := s.rows + t.headings);
    HeadingsInBounds(s, t.headings);
    match t {
      case Main(_, blocks) =>
        assert page in [page];
        PidsOfBlocks(p, MainQuotas(p, s.seen, page.content));
        BlocksAreFresh(p, MainQuotas(p, s.seen, page.content));
        HeadsOfBlocks(blocks);
      case Continuation(_, pids, rows, deltas) =>
        JoinKeepsSeen(s', pids, rows, deltas, |pids|);
        NoPids();
    }
  }

  lemma NoPids()
    ensures PidsIn([]) == {} && PidsOf([]) == {}
  {
  }

  lemma HeadingsInBounds(s: Sheet, headings: seq<Row>)
    requires InBounds(s)
    ensures InBounds(s.(rows := s.rows + headings))
  {
  }

  lemma {:induction false} JoinKeepsSeen(s: Sheet, pids: seq<string>, rows: seq<Row>, deltas: map<string, int>, n: nat)
    requires InBounds(s) && n <= |pids|
    ensures JoinAll(s, pids, rows, deltas, n).seen == s.seen
    decreases n
  {
    hide JoinOne, RowsOf, InBounds;
    if n == 0 {
    } else {
      var x := pids[n - 1];
      var d := if x in deltas then deltas[x] else 0;
      JoinOneInBounds(s, x, RowsOf(rows, x), d);
      JoinKeepsSeen(JoinOne(s, x, RowsOf(rows, x), d), pids, rows, deltas, n - 1);
    }
  }

  lemma {:induction false} BlocksAreFresh(p: Profile, qs: seq<Quota>)
    requires forall q :: q in qs ==> WellRead(q)
    ensures forall i :: 0 <= i < |AllBlocks(p, qs)| ==> Fresh(AllBlocks(p, qs)[i])
  {
    if qs == [] {
    } else {
      hide Fresh, FreshOf;
      assert WellRead(qs[0]);
      BlocksAreFresh(p, qs[1..]);
      TableEmitsFreshBlocks(p, qs[0], |qs[0].pids|);
    }
  }

  lemma {:induction false} PidsOfBlocks(p: Profile, qs: seq<Quota>)
    requires forall q :: q in qs ==> WellRead(q)
    ensures PidsOf(AllBlocks(p, qs)) == PidsIn(qs)
  {
    hide PidsOf, PidsIn, BlocksOf;
    NoPids();
    if qs == [] {
    } else {
      assert WellRead(qs[0]);
      PidsOfBlocks(p, qs[1..]);
      PidsOfTable(p, qs[0]);
      PidsConcat(BlocksOf(p, qs[0], |qs[0].pids|), AllBlocks(p, qs[1..]));
      PidsInFront(qs);
    }
  }

  lemma PidsOfTable(p: Profile, q: Quota)
    requires WellRead(q)
    ensures PidsOf(BlocksOf(p, q, |q.pids|)) == set x | x in q.pids
  {
    hide FreshOf;
    var blocks := BlocksOf(p, q, |q.pids|);
    forall i | 0 <= i < |blocks|
      ensures blocks[i].head.pid == q.pids[i]
    {
      EmitsFreshBlocks(p, q, q.pids[i]);
    }
    forall x | x in q.pids
      ensures x in PidsOf(blocks)
    {
      var i :| 0 <= i < |q.pids| && q.pids[i] == x;
      assert blocks[i] in blocks;
    }
  }

  lemma PidsConcat(a: seq<Block>, b: seq<Block>)
    ensures PidsOf(a + b) == PidsOf(a) + PidsOf(b)
  {
  }

  lemma PidsInFront(qs: seq<Quota>)
    requires qs != []
    ensures PidsIn(qs) == (set x | x in qs[0].pids) + PidsIn(qs[1..])
  {
    assert forall q :: q in qs <==> q == qs[0] || q in qs[1..];
  }

  // ---------------------------------------------------------- the end result

  /** All main tables have a management-fee row, or none has. */
  ghost predicate UniformFile(p: Profile, pages: seq<Page>, managed: bool) {
    pages == [] ||
    (var front := pages[..|pages| - 1];
     && UniformFile(p, front, managed)
     && forall q :: q in MainQuotas(p, SeenBy(p, front), pages[|pages| - 1].content) && q.pids != [] ==>
          Managed(q) == managed)
  }

  /** The continuation rows that a project is owed, from the input alone: what it got since it was last emitted. */
  ghost function OwedRows(p: Profile, pages: seq<Page>, pid: string): seq<Row> {
    if pages == [] then []
    else
      var front, c := pages[..|pages| - 1], pages[|pages| - 1].content;
      var owed := OwedRows(p, front, pid);
      if Continues(p, SeenBy(p, front), c) then
        owed
        + if c.continued.Some? && pid in c.quota.pids then Cleared(OwnRows(c.continued.value, pid, p.cents)) else []
      else if pid in PidsIn(MainQuotas(p, SeenBy(p, front), c)) then []
      else owed
  }

  function QuotaWith(qs: seq<Quota>, pid: string): Option<Quota> {
    if qs == [] then None else if pid in qs[0].pids then Some(qs[0]) else QuotaWith(qs[1..], pid)
  }

  /** The table that a project was last emitted from. */
  ghost function LastQuota(p: Profile, pages: seq<Page>, pid: string): Option<Quota> {
    if pages == [] then None
    else
      var front := pages[..|pages| - 1];
      var here := QuotaWith(MainQuotas(p, SeenBy(p, front), pages[|pages| - 1].content), pid);
      if here.Some? then here else LastQuota(p, front, pid)
  }

  /**
   From the tables to the row list. If all main tables of a file have a management-fee row, or
   none has, then in the end every project that was seen has one block in the list: the rows of
   the table it was last emitted from, in their order, with all its continuation rows since
   then between them, and a total that is the sum of exactly what the strategy counts plus
   the sum of those continuation rows. The list is the blocks and headings end to end.
   */
  lemma FileInTheEnd(p: Profile, pages: seq<Page>, managed: bool, pid: string) returns (chunks: seq<Chunk>, a: nat)
    requires AllWellRead(pages) && UniformFile(p, pages, managed) && pid in SeenBy(p, pages)
    ensures WriteAll(TablesOf(p, pages)).rows == Flat(chunks) && IsBlockOf(chunks, a, pid)
    ensures LastQuota(p, pages, pid).Some?
    ensures var q, b, added := LastQuota(p, pages, pid).value, chunks[a].block, OwedRows(p, pages, pid);
            && b.pre + b.post == RowsIn(Inner(p, q, pid)) && b.added == added
            && Cents(b.head) == (if p.fees == NoFees then 0 else CountedTotal(p, Inner(p, q, pid))) + Total(added)
  {
    hide *;
    var tables := TablesOf(p, pages);
    UniformTables(p, pages, managed);
    UniformFileLands(tables, managed);
    SeenIsEmitted(p, pages);
    NamedOnceInFile(p, pages);
    FileRows(tables);
    chunks, a := LayAll(tables).chunks, LayAll(tables).anchors[pid];
    var b := BlockInTheEnd(tables, pid);
    BlockIsOf(chunks, a, b, pid);
    LatestIsLastQuota(p, pages, pid);
    OwedIsOwed(p, pages, pid);
    LastQuotaHasPid(p, pages, pid);
    EmitsFreshBlocks(p, LastQuota(p, pages, pid).value, pid);
  }

  lemma FileRows(tables: seq<Table>)
    requires LandsAll(tables)
    ensures WriteAll(tables).rows == Flat(LayAll(tables).chunks)
  {
    hide LandsAll, WriteAll, LayAll, Flat;
    FileRefinesBlocks(tables);
  }

  lemma BlockIsOf(chunks: seq<Chunk>, a: nat, b: Block, pid: string)
    requires a < |chunks| && chunks[a] == Project(b) && b.head.pid == pid
    ensures IsBlockOf(chunks, a, pid)
  {
  }

  lemma {:induction false} SeenIsEmitted(p: Profile, pages: seq<Page>)
    requires AllWellRead(pages)
    ensures PidsEmitted(TablesOf(p, pages)) == SeenBy(p, pages)
  {
    if pages == [] {
    } else {
      hide AllBlocks, PidsOf, PidsIn, ContinuationRows, Deltas, Headings, WellRead;
      var front, page := pages[..|pages| - 1], pages[|pages| - 1];
      SeenIsEmitted(p, front);
      var t := TableOf(p, SeenBy(p, front), page);
      assert (TablesOf(p, front) + [t])[..|TablesOf(p, front)|] == TablesOf(p, front);
      assert page in pages;
      PidsOfBlocks(p, MainQuotas(p, SeenBy(p, front), page.content));
      NoPids();
    }
  }

  lemma {:induction false} ContinuationIsGood(items: seq<Item>, pids: seq<string>, cents: Rounding)
    ensures AllInner(ContinuationRows(items, pids, cents)) && NoManagement(ContinuationRows(items, pids, cents))
  {
    if items == [] {
    } else {
      ContinuationIsGood(items[..|items| - 1], pids, cents);
    }
  }

  lemma {:induction false} AllBlocksOfKind(p: Profile, qs: seq<Quota>, managed: bool)
    requires forall q :: q in qs ==> WellRead(q) && (q.pids != [] ==> Managed(q) == managed)
    ensures forall i :: 0 <= i < |AllBlocks(p, qs)| ==> OfKind(AllBlocks(p, qs)[i], managed)
  {
    if qs == [] {
    } else {
      hide FreshOf, Managed;
      var q := qs[0];
      assert q in qs && WellRead(q);
      AllBlocksOfKind(p, qs[1..], managed);
      forall i | 0 <= i < |q.pids|
        ensures OfKind(BlocksOf(p, q, |q.pids|)[i], managed)
      {
        EmitsFreshBlocks(p, q, q.pids[i]);
      }
    }
  }

  lemma HeadingsAreLoose(hs: seq<(string, string)>)
    ensures AllInner(Headings(hs)) && NoManagement(Headings(hs))
  {
  }

  /** What one page comes to is what a uniform file asks of it. */
  lemma UniformTable(p: Profile, seen: set<string>, page: Page, managed: bool)
    requires AllWellRead([page])
    requires forall q :: q in MainQuotas(p, seen, page.content) && q.pids != [] ==> Managed(q) == managed
    ensures var t := TableOf(p, seen, page);
            && AllInner(t.headings) && NoManagement(t.headings)
            && (t.Main? ==> forall i :: 0 <= i < |t.blocks| ==> Fresh(t.blocks[i]) && OfKind(t.blocks[i], managed))
            && (t.Continuation? ==> GoodContinuation(t.pids, t.rows, t.deltas) && forall i :: 0 <= i < |t.pids| ==>
                 t.pids[i] in seen)
  {
    hide AllBlocks, Fresh, OfKind, AllInner, NoManagement, Managed, WellRead, Headings, ContinuationRows;
    assert page in [page];
    var c := page.content;
    var qs := MainQuotas(p, seen, c);
    assert forall q :: q in qs ==> WellRead(q);
    HeadingsAreLoose(page.headings);
    BlocksAreFresh(p, qs);
    AllBlocksOfKind(p, qs, managed);
    if c.Single? && c.continued.Some? {
      ContinuationIsGood(c.continued.value, c.quota.pids, p.cents);
    }
  }

  lemma {:induction false} UniformTables(p: Profile, pages: seq<Page>, managed: bool)
    requires AllWellRead(pages) && UniformFile(p, pages, managed)
    ensures Uniform(TablesOf(p, pages), managed)
  {
    if pages == [] {
    } else {
      hide TableOf, Fresh, OfKind, AllInner, NoManagement, Managed, GoodContinuation, MainQuotas;
      var front, page := pages[..|pages| - 1], pages[|pages| - 1];
      assert page in pages;
      UniformTables(p, front, managed);
      SeenIsEmitted(p, front);
      var t := TableOf(p, SeenBy(p, front), page);
      assert (TablesOf(p, front) + [t])[..|TablesOf(p, front)|] == TablesOf(p, front);
      UniformTable(p, SeenBy(p, front), page, managed);
    }
  }

  lemma {:induction false} NamedOnceInFile(p: Profile, pages: seq<Page>)
    requires AllWellRead(pages)
    ensures NamedOnce(TablesOf(p, pages))
  {
    if pages == [] {
    } else {
      hide AllBlocks, ContinuationRows, Headings;
      assert pages[|pages| - 1] in pages;
      NamedOnceInFile(p, pages[..|pages| - 1]);
    }
  }

  lemma {:induction false} OwedIsOwed(p: Profile, pages: seq<Page>, pid: string)
    requires AllWellRead(pages)
    ensures Owed(TablesOf(p, pages), pid) == OwedRows(p, pages, pid)
  {
    if pages == [] {
    } else {
      hide AllBlocks, PidsOf, PidsIn, ContinuationRows, Deltas, Headings, OwnRows, RowsOf, Cleared, NoRepeats;
      var front, page := pages[..|pages| - 1], pages[|pages| - 1];
      OwedIsOwed(p, front, pid);
      var seen, c := SeenBy(p, front), page.content;
      var t := TableOf(p, seen, page);
      assert (TablesOf(p, front) + [t])[..|TablesOf(p, front)|] == TablesOf(p, front);
      assert page in pages;
      PidsOfBlocks(p, MainQuotas(p, seen, c));
      NoPids();
      if t.Continuation? && pid in c.quota.pids {
        EachGetsItsRows(c.continued.value, c.quota.pids, p.cents, pid);
      }
    }
  }

  lemma FirstOfTable(p: Profile, q: Quota, pid: string)
    requires WellRead(q)
    ensures FirstOf(BlocksOf(p, q, |q.pids|), pid) == if pid in q.pids then Some(FreshOf(p, q, pid)) else None
  {
    hide FreshOf, FirstOf;
    var blocks := BlocksOf(p, q, |q.pids|);
    forall i | 0 <= i < |blocks|
      ensures blocks[i].head.pid == q.pids[i]
    {
      EmitsFreshBlocks(p, q, q.pids[i]);
    }
    if pid in q.pids {
      var i :| 0 <= i < |q.pids| && q.pids[i] == pid;
      FirstIsOnly(blocks, i, pid);
    } else {
      FirstIsNone(blocks, pid);
    }
  }

  lemma {:induction false} FirstOfIsQuotaWith(p: Profile, qs: seq<Quota>, pid: string)
    requires forall q :: q in qs ==> WellRead(q)
    ensures var q := QuotaWith(qs, pid);
            FirstOf(AllBlocks(p, qs), pid) == if q.Some? then Some(FreshOf(p, q.value, pid)) else None
  {
    hide FreshOf, BlocksOf, WellRead;
    if qs == [] {
    } else {
      FirstOfIsQuotaWith(p, qs[1..], pid);
      assert WellRead(qs[0]);
      hide FirstOf;
      FirstOfTable(p, qs[0], pid);
      FirstInFront(BlocksOf(p, qs[0], |qs[0].pids|), AllBlocks(p, qs[1..]), pid);
    }
  }

  lemma {:induction false} FirstInFront(a: seq<Block>, b: seq<Block>, pid: string)
    ensures FirstOf(a + b, pid) == if FirstOf(a, pid).Some? then FirstOf(a, pid) else FirstOf(b, pid)
    decreases |a|
  {
    if a == [] {
      assert a + b == b;
    } else {
      FirstInFront(a[1..], b, pid);
      assert (a + b)[1..] == a[1..] + b;
    }
  }

  lemma {:induction false} FirstIsOnly(blocks: seq<Block>, i: nat, pid: string)
    requires i < |blocks| && blocks[i].head.pid == pid
    requires forall j, k :: 0 <= j < k < |blocks| ==> blocks[j].head.pid != blocks[k].head.pid
    ensures FirstOf(blocks, pid) == Some(blocks[i])
    decreases |blocks|
  {
    if i == 0 {
    } else {
      FirstIsOnly(blocks[1..], i - 1, pid);
    }
  }

  lemma {:induction false} FirstIsNone(blocks: seq<Block>, pid: string)
    requires forall j :: 0 <= j < |blocks| ==> blocks[j].head.pid != pid
    ensures FirstOf(blocks, pid) == None
    decreases |blocks|
  {
    if blocks == [] {
    } else {
      FirstIsNone(blocks[1..], pid);
    }
  }

  lemma {:induction false} LatestIsLastQuota(p: Profile, pages: seq<Page>, pid: string)
    requires AllWellRead(pages)
    ensures var q := LastQuota(p, pages, pid);
            Latest(TablesOf(p, pages), pid) == if q.Some? then Some(FreshOf(p, q.value, pid)) else None
  {
    if pages == [] {
    } else {
      hide AllBlocks, PidsOf, PidsIn, ContinuationRows, Deltas, Headings, FreshOf, FirstOf, QuotaWith, WellRead;
      var front, page := pages[..|pages| - 1], pages[|pages| - 1];
      LatestIsLastQuota(p, front, pid);
      var seen := SeenBy(p, front);
      var qs, t := MainQuotas(p, seen, page.content), TableOf(p, seen, page);
      assert (TablesOf(p, front) + [t])[..|TablesOf(p, front)|] == TablesOf(p, front);
      assert page in pages;
      PidsOfBlocks(p, qs);
      FirstOfIsQuotaWith(p, qs, pid);
      QuotaWithExact(qs, pid);
      NoPids();
    }
  }

  lemma {:induction false} QuotaWithExact(qs: seq<Quota>, pid: string)
    ensures QuotaWith(qs, pid).Some? <==> pid in PidsIn(qs)
    ensures QuotaWith(qs, pid).Some? ==> pid in QuotaWith(qs, pid).value.pids && QuotaWith(qs, pid).value in qs
  {
    if qs == [] {
    } else {
      QuotaWithExact(qs[1..], pid);
      PidsInFront(qs);
    }
  }

  lemma {:induction false} LastQuotaHasPid(p: Profile, pages: seq<Page>, pid: string)
    requires AllWellRead(pages)
    ensures LastQuota(p, pages, pid).Some? <==> pid in SeenBy(p, pages)
    ensures LastQuota(p, pages, pid).Some? ==> pid != ""
  {
    if pages == [] {
    } else {
      hide PidsIn, QuotaWith;
      assert pages[|pages| - 1] in pages;
      LastQuotaHasPid(p, pages[..|pages| - 1], pid);
      QuotaWithExact(MainQuotas(p, SeenBy(p, pages[..|pages| - 1]), pages[|pages| - 1].content), pid);
    }
  }

  // ---------------------------------------------------------- a file gone astray

  function Short(pid: string, summaries: seq<(string, Amounts)>): Quota {
    Quota([pid], [], None, None, None, summaries, {}, {})
  }

  const STEEL := Item(Priced, "steel", false, false, false, false, false, 2.0, map["B" := 1.0])

  /** Project A with a management fee, project B without one, and a page that goes on with B. */
  const STRAY: seq<Page> := [
    Page([], Single(Short("A", [(MANAGEMENT, map["A" := 1000])]), true, None, false)),
    Page([], Single(Short("B", []), true, None, false)),
    Page([], Single(Short("B", []), false, Some([STEEL]), false))]

  lemma BareManaged(p: Profile)
    requires p.fees != NoFees
    ensures FreshOf(p, Short("A", [(MANAGEMENT, map["A" := 1000])]), "A") == Bare("A", 1000, true)
  {
    hide FreshOf, Inner, MainRows, DetailRows;
    var q := Short("A", [(MANAGEMENT, map["A" := 1000])]);
    var e := SummaryOf(q.summaries[0], "A");
    FreshShape(p, q, "A");
    NoMaterials(p, q, "A");
    OneSummary(q, e);
    OneCounted(p, e);
    assert RowsIn([e]) == [e.row] && LastManagement([e.row], 1) == 0;
  }

  lemma OneSummary(q: Quota, e: FeeVerification.Emitted)
    requires |q.summaries| == 1 && e == SummaryOf(q.summaries[0], "A")
    ensures SummaryRows(q.summaries, "A") == [e]
  {
    assert q.summaries[..0] == [] && SummaryRows([], "A") == [];
  }

  lemma OneCounted(p: Profile, e: FeeVerification.Emitted)
    ensures CountedTotal(p, [e]) == if Counted(p, e.origin) then Cents(e.row) else 0
  {
    assert [e][..0] == [] && CountedTotal(p, []) == 0;
  }

  lemma BareUnmanaged(p: Profile)
    requires p.fees != NoFees
    ensures FreshOf(p, Short("B", []), "B") == Bare("B", 0, false)
  {
    hide FreshOf, Inner, MainRows, DetailRows;
    var q := Short("B", []);
    FreshShape(p, q, "B");
    NoMaterials(p, q, "B");
    assert SummaryRows(q.summaries, "B") == [] && CountedTotal(p, []) == 0;
    assert RowsIn([]) == [] && LastManagement([], 0) == 0;
  }

  lemma NoMaterials(p: Profile, q: Quota, pid: string)
    requires q == Short(pid, q.summaries)
    ensures Inner(p, q, pid) == SummaryRows(q.summaries, pid)
  {
    hide SummaryRows;
    assert Ordered(p, []) == [] by {
      var f := (i: Item) => true;
      assert forall keep: Item -> bool :: Filter([], keep) == [];
    }
    assert !EmitsMaterialFee(p, q, pid);
  }

  /** B's continuation row is in A's block in the end, and B's total is without it. */
  lemma StrayFile(p: Profile)
    requires p.joinsPages && p.fees != NoFees
    ensures AllWellRead(STRAY)
    ensures WriteAll(TablesOf(p, STRAY)).rows ==
            [Row(QUOTA, "A", "", Some(1000)), Row("料", "", "steel", Some(p.cents(2.0))),
                Row(SUMMARY, "", MANAGEMENT, Some(1000)), BLANK,
             Row(QUOTA, "B", "", Some(0)), BLANK]
  {
    hide *;
    StrayIsWellRead();
    SteelRow(p.cents);
    BareParts();
    var r := ContinuedRow(STEEL, "B", p.cents);
    StrayTablesOf(p, r);
    StrayTables(1000, 0, r);
  }

  lemma StrayIsWellRead()
    ensures AllWellRead(STRAY)
  {
  }

  lemma SteelRow(cents: Rounding)
    ensures ContinuedRow(STEEL, "B", cents) == Row("料", "B", "steel", Some(cents(2.0)))
  {
  }

  lemma BareParts()
    ensures var a, b := Bare("A", 1000, true), Bare("B", 0, false);
            && a.head == Row(QUOTA, "A", "", Some(1000)) && a.post == [Row(SUMMARY, "", MANAGEMENT, Some(1000))]
               && a.blank == BLANK
            && b.head == Row(QUOTA, "B", "", Some(0)) && b.blank == BLANK
  {
  }

  lemma StrayTablesOf(p: Profile, r: Row)
    requires p.joinsPages && p.fees != NoFees && r == ContinuedRow(STEEL, "B", p.cents)
    ensures TablesOf(p, STRAY) ==
            [Main([], [Bare("A", 1000, true)]), Main([], [Bare("B", 0, false)]),
                Continuation([], ["B"], [r], map["B" := Cents(r)])]
  {
    var q1, q2 := Short("A", [(MANAGEMENT, map["A" := 1000])]), Short("B", []);
    OneBlock(p, q1, "A");
    OneBlock(p, q2, "B");
    BareManaged(p);
    BareUnmanaged(p);
    OneContinuedRow(p, r);
    hide FreshOf, Bare, AllBlocks, ContinuationRows, ContinuedRow, Deltas, Short;
    PagesOneByOne(p, q1, q2);
  }

  lemma OneBlock(p: Profile, q: Quota, pid: string)
    requires q.pids == [pid]
    ensures AllBlocks(p, [q]) == [FreshOf(p, q, pid)]
  {
    hide FreshOf;
    assert [q][1..] == [] && AllBlocks(p, []) == [];
    assert BlocksOf(p, q, 1) == [FreshOf(p, q, pid)];
  }

  lemma OneContinuedRow(p: Profile, r: Row)
    requires r == ContinuedRow(STEEL, "B", p.cents)
    ensures ContinuationRows([STEEL], ["B"], p.cents) == [r] && Deltas([r], ["B"]) == map["B" := Cents(r)]
  {
    SteelRow(p.cents);
    SteelRows(p.cents);
    OneRowTotal(r);
    hide ContinuationRows, ContinuedRow, RowsOf, Total;
    assert forall x :: x in ["B"] <==> x == "B";
  }

  lemma SteelRows(cents: Rounding)
    ensures ContinuationRows([STEEL], ["B"], cents) == [ContinuedRow(STEEL, "B", cents)]
  {
    hide ContinuedRow;
    assert [STEEL][..0] == [] && ItemRows(STEEL, ["B"], cents) == [ContinuedRow(STEEL, "B", cents)];
  }

  lemma OneRowTotal(r: Row)
    ensures r.pid == "B" ==> RowsOf([r], "B") == [r]
    ensures Total([r]) == Cents(r)
  {
    assert [r][..0] == [];
  }

  lemma PidsInOne(q: Quota, pid: string)
    requires q.pids == [pid]
    ensures PidsIn([q]) == {pid}
  {
    PidsInFront([q]);
    NoPids();
    assert [q][1..] == [];
  }

  lemma PagesOneByOne(p: Profile, q1: Quota, q2: Quota)
    requires p.joinsPages && q1.pids == ["A"] && q2.pids == ["B"]
    requires q1 == Short("A", [(MANAGEMENT, map["A" := 1000])]) && q2 == Short("B", [])
    ensures var rows := ContinuationRows([STEEL], ["B"], p.cents);
            TablesOf(p, STRAY) ==
            [Main([], AllBlocks(p, [q1])), Main([], AllBlocks(p, [q2])),
                Continuation([], ["B"], rows, Deltas(rows, ["B"]))]
  {
    hide AllBlocks, ContinuationRows, Deltas;
    var one, two := STRAY[..1], STRAY[..2];
    assert STRAY[..0] == [] && two[..1] == one && one[..0] == [];
    assert MainQuotas(p, {}, STRAY[0].content) == [q1];
    assert SeenBy(p, one) == {"A"} by { PidsInOne(q1, "A"); }
    assert MainQuotas(p, {"A"}, STRAY[1].content) == [q2];
    assert SeenBy(p, two) == {"A", "B"} by { PidsInOne(q2, "B"); }
    assert Headings([]) == [];
    assert TablesOf(p, one) == [Main([], AllBlocks(p, [q1]))];
    assert TablesOf(p, two) == [Main([], AllBlocks(p, [q1])), Main([], AllBlocks(p, [q2]))];
    assert Continues(p, {"A", "B"}, STRAY[2].content);
  }
}
