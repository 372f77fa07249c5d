/**
 A whole file of tables, main ones and continuations, on the flat list and on blocks. As long
 as every continuation lands in its own block, the list is the blocks end to end, each with
 the continuation rows owed to it.
 */
module JoinedFiles {
  import opened Catalogue
  import opened CrossPageJoin
  import opened JoinedBlocks

  // One table of a file: its section headings, then a main table or a continuation.
  datatype Table =
    | Main(headings: seq<Row>, blocks: seq<Block>)
    | Continuation(headings: seq<Row>, pids: seq<string>, rows: seq<Row>, deltas: map<string, int>)

  datatype Layout = Layout(chunks: seq<Chunk>, anchors: Anchors)

  /** The file on blocks. */
  ghost function Lay(l: Layout, t: Table): Layout {
    var chunks := l.chunks + Looses(t.headings);
    match t
    case Main(_, blocks) => Layout(chunks + Projects(blocks), AnchorsAfter(l.anchors, |chunks|, blocks))
    case Continuation(_, pids, rows, _) =>
      if AnchorsHold(chunks, l.anchors) && forall i :: 0 <= i < |pids| ==> pids[i] in l.anchors then
        Layout(JoinAllBlocks(chunks, l.anchors, pids, rows, |pids|), l.anchors)
      else l
  }

  ghost function LayAll(tables: seq<Table>): Layout {
    if tables == [] then Layout([], map[]) else Lay(LayAll(tables[..|tables| - 1]), tables[|tables| - 1])
  }

  /** What a table has to be for its rows to land in their own blocks. */
  ghost predicate Lands(l: Layout, t: Table) {
    && AllInner(t.headings) && NoManagement(t.headings)
    && match t
       case Main(_, blocks) => forall i :: 0 <= i < |blocks| ==> Fresh(blocks[i])
       case Continuation(_, pids, rows, deltas) =>
         && GoodContinuation(pids, rows, deltas)
         && AllOwn(l.chunks + Looses(t.headings), l.anchors, pids)
  }

  ghost predicate LandsAll(tables: seq<Table>) {
    tables == [] || (LandsAll(tables[..|tables| - 1]) && Lands(LayAll(tables[..|tables| - 1]), tables[|tables| - 1]))
  }

  /** The file on the flat list, with the operations of `Book`. */
  ghost function Write(s: Sheet, t: Table): Sheet {
    var s' := s.(rows := s.rows + t.headings);
    match t
    case Main(_, blocks) => Emit(s', Flat(Projects(blocks)))
    case Continuation(_, pids, rows, deltas) =>
      if InBounds(s') then JoinAll(s', pids, rows, deltas, |pids|) else s'
  }

  ghost function WriteAll(tables: seq<Table>): Sheet {
    if tables == [] then Sheet([], map[], {}) else Write(WriteAll(tables[..|tables| - 1]), tables[|tables| - 1])
  }

  lemma WriteRefines(s: Sheet, l: Layout, t: Table)
    requires Refines(s, l.chunks, l.anchors) && Lands(l, t)
    ensures Refines(Write(s, t), Lay(l, t).chunks, Lay(l, t).anchors)
  {
    hide Flat, JoinAll, Emit, AllOwn, GoodContinuation, GoodBlock, AllInner, NoManagement;
    LooseRefines(s, l.chunks, l.anchors, t.headings);
    var s', chunks := s.(rows := s.rows + t.headings), l.chunks + Looses(t.headings);
    match t {
      case Main(_, blocks) => EmitRefines(s', chunks, l.anchors, blocks);
      case Continuation(_, pids, rows, deltas) =>
        OwnAnchored(chunks, l.anchors, pids);
        JoinAllRefines(s', chunks, l.anchors, pids, rows, deltas, |pids|);
    }
  }

  lemma OwnAnchored(chunks: seq<Chunk>, anchors: Anchors, pids: seq<string>)
    requires AllOwn(chunks, anchors, pids)
    ensures forall i :: 0 <= i < |pids| ==> pids[i] in anchors
  {
  }

  /**
   A whole file: if every continuation's projects have blocks that the scan stays in, the
   flat list is the blocks end to end, each with its continuation rows in page order behind
   its own, and the total of every block is the one first emitted plus the sum of the
   verification column over the rows added to it.
   */
  lemma {:induction false} FileRefinesBlocks(tables: seq<Table>)
    requires LandsAll(tables)
    ensures var s, l := WriteAll(tables), LayAll(tables);
            && Refines(s, l.chunks, l.anchors)
            && forall i :: 0 <= i < |l.chunks| && l.chunks[i].Project? ==>
                 Cents(l.chunks[i].block.head) == l.chunks[i].block.base + Total(l.chunks[i].block.added)
  {
    if tables == [] {
    } else {
      hide Refines, Lay, Write, Lands;
      FileRefinesBlocks(tables[..|tables| - 1]);
      WriteRefines(WriteAll(tables[..|tables| - 1]), LayAll(tables[..|tables| - 1]), tables[|tables| - 1]);
    }
    TotalsConserved(WriteAll(tables), LayAll(tables));
  }

  lemma TotalsConserved(s: Sheet, l: Layout)
    requires Refines(s, l.chunks, l.anchors)
    ensures forall i :: 0 <= i < |l.chunks| && l.chunks[i].Project? ==>
              Cents(l.chunks[i].block.head) == l.chunks[i].block.base + Total(l.chunks[i].block.added)
  {
    forall i | 0 <= i < |l.chunks| && l.chunks[i].Project?
      ensures Cents(l.chunks[i].block.head) == l.chunks[i].block.base + Total(l.chunks[i].block.added)
    {
      assert Good(l.chunks[i]);
    }
  }

  /** All emitted main rows, in order, as if there had been no continuation. */
  ghost function MainOnly(tables: seq<Table>): seq<Chunk> {
    if tables == [] then []
    else
      var t := tables[|tables| - 1];
      MainOnly(tables[..|tables| - 1]) + Looses(t.headings) + (if t.Main? then Projects(t.blocks) else [])
  }

  ghost predicate SameFrames(a: seq<Chunk>, b: seq<Chunk>) {
    |a| == |b| && forall i :: 0 <= i < |a| ==> SameFrame(a[i], b[i])
  }

  lemma SameFramesTransitive(a: seq<Chunk>, b: seq<Chunk>, c: seq<Chunk>)
    requires SameFrames(a, b) && SameFrames(b, c)
    ensures SameFrames(a, c)
  {
    forall i | 0 <= i < |a|
      ensures SameFrame(a[i], c[i])
    {
      assert SameFrame(a[i], b[i]) && SameFrame(b[i], c[i]);
    }
  }

  lemma SameFramesLonger(a: seq<Chunk>, b: seq<Chunk>, c: seq<Chunk>)
    requires SameFrames(a, b)
    ensures SameFrames(a + c, b + c)
  {
    assert forall x: Chunk :: SameFrame(x, x);
  }

  lemma FramesStay(s: Sheet, l: Layout, t: Table)
    requires Refines(s, l.chunks, l.anchors) && Lands(l, t)
    ensures SameFrames(l.chunks + Looses(t.headings) + (if t.Main? then Projects(t.blocks) else []), Lay(l, t).chunks)
  {
    hide Flat, GoodBlock, AllInner, NoManagement, GoodContinuation, Fresh;
    var chunks := l.chunks + Looses(t.headings);
    assert forall x: Chunk :: SameFrame(x, x);
    if t.Continuation? {
      OwnAnchored(chunks, l.anchors, t.pids);
      AnchorsLonger(s, l.chunks, l.anchors, t.headings);
      assert chunks + [] == chunks;
    }
  }

  /** Continuations add rows to blocks and raise totals; the main rows stay, all of them, in order. */
  lemma {:induction false} MainRowsStay(tables: seq<Table>)
    requires LandsAll(tables)
    ensures SameFrames(MainOnly(tables), LayAll(tables).chunks)
  {
    if tables == [] {
    } else {
      hide Refines, Lands, Lay, SameFrames, Looses, Projects, WriteAll;
      var front, t := tables[..|tables| - 1], tables[|tables| - 1];
      MainRowsStay(front);
      FileRefinesBlocks(front);
      var l := LayAll(front);
      var more := if t.Main? then Projects(t.blocks) else [];
      FramesStay(WriteAll(front), l, t);
      SameFramesLonger(MainOnly(front), l.chunks, Looses(t.headings));
      SameFramesLonger(MainOnly(front) + Looses(t.headings), l.chunks + Looses(t.headings), more);
      SameFramesTransitive(MainOnly(tables), l.chunks + Looses(t.headings) + more, Lay(l, t).chunks);
    }
  }

  lemma AnchorsLonger(s: Sheet, chunks: seq<Chunk>, anchors: Anchors, headings: seq<Row>)
    requires Refines(s, chunks, anchors)
    ensures AnchorsHold(chunks + Looses(headings), anchors)
  {
    forall q | q in anchors
      ensures IsBlockOf(chunks + Looses(headings), anchors[q], q)
    {
      assert IsBlockOf(chunks, anchors[q], q);
    }
  }

  // ------------------------------------------- whole files, stated on the tables

  /** The projects that a file has emitted. */
  function PidsEmitted(tables: seq<Table>): set<string> {
    if tables == [] then {}
    else
      PidsEmitted(tables[..|tables| - 1]) + match tables[|tables| - 1]
                                        case Main(_, blocks) => PidsOf(blocks)
                                        case Continuation(_, _, _, _) => {}
  }

  /** A block with a management row, or one without. */
  ghost predicate OfKind(b: Block, managed: bool) {
    (b.post != []) == managed
  }

  /** Blocks are fresh and of one kind; continuations speak of projects already emitted. */
  ghost predicate Uniform(tables: seq<Table>, managed: bool) {
    tables == [] ||
    (var front, t := tables[..|tables| - 1], tables[|tables| - 1];
     && Uniform(front, managed)
     && AllInner(t.headings) && NoManagement(t.headings)
     && match t
        case Main(_, blocks) => forall i :: 0 <= i < |blocks| ==> Fresh(blocks[i]) && OfKind(blocks[i], managed)
        case Continuation(_, pids, rows, deltas) =>
          GoodContinuation(pids, rows, deltas) && forall i :: 0 <= i < |pids| ==> pids[i] in PidsEmitted(front))
  }

  ghost predicate AllOfKind(chunks: seq<Chunk>, managed: bool) {
    forall i :: 0 <= i < |chunks| && chunks[i].Project? ==> OfKind(chunks[i].block, managed)
  }

  lemma AnchorsAfterKeys(anchors: Anchors, base: nat, blocks: seq<Block>)
    ensures AnchorsAfter(anchors, base, blocks).Keys == anchors.Keys + PidsOf(blocks)
    decreases |blocks|
  {
    if blocks != [] {
      AnchorsAfterKeys(anchors, base + 1, blocks[1..]);
      PidsFront(blocks);
    }
  }

  lemma FramesKeepKind(chunks: seq<Chunk>, chunks': seq<Chunk>, managed: bool)
    requires |chunks'| == |chunks| && forall i :: 0 <= i < |chunks| ==> SameFrame(chunks[i], chunks'[i])
    requires AllOfKind(chunks, managed)
    ensures AllOfKind(chunks', managed)
  {
    forall i | 0 <= i < |chunks'| && chunks'[i].Project?
      ensures OfKind(chunks'[i].block, managed)
    {
      assert SameFrame(chunks[i], chunks'[i]);
    }
  }

  /** One table more of a uniform file. */
  lemma UniformStep(s: Sheet, l: Layout, t: Table, managed: bool)
    requires Refines(s, l.chunks, l.anchors) && AllOfKind(l.chunks, managed) && Lands(l, t)
    requires t.Main? ==> forall i :: 0 <= i < |t.blocks| ==> OfKind(t.blocks[i], managed)
    ensures AllOfKind(Lay(l, t).chunks, managed)
    ensures Lay(l, t).anchors.Keys == l.anchors.Keys + if t.Main? then PidsOf(t.blocks) else {}
  {
    hide Flat, GoodBlock, AllInner, NoManagement, GoodContinuation, OfKind;
    var chunks := l.chunks + Looses(t.headings);
    match t {
      case Main(_, blocks) => AnchorsAfterKeys(l.anchors, |chunks|, blocks);
      case Continuation(_, pids, rows, _) =>
        OwnAnchored(chunks, l.anchors, pids);
        AnchorsLonger(s, l.chunks, l.anchors, t.headings);
        FramesKeepKind(chunks, JoinAllBlocks(chunks, l.anchors, pids, rows, |pids|), managed);
    }
  }

  /** Every block of the file has its own management row, or none has: then all rows land in their own blocks. */
  lemma {:induction false} UniformFileLands(tables: seq<Table>, managed: bool)
    requires Uniform(tables, managed)
    ensures LandsAll(tables)
    ensures AllOfKind(LayAll(tables).chunks, managed) && LayAll(tables).anchors.Keys == PidsEmitted(tables)
  {
    if tables == [] {
    } else {
      hide Refines, Lay, OfKind, GoodContinuation, AllInner, NoManagement, Fresh;
      var front, t := tables[..|tables| - 1], tables[|tables| - 1];
      UniformFileLands(front, managed);
      FileRefinesBlocks(front);
      var l := LayAll(front);
      if t.Continuation? {
        KnownProjectsOwn(WriteAll(front), l, t.headings, t.pids, managed);
      }
      UniformStep(WriteAll(front), l, t, managed);
    }
  }

  lemma KnownProjectsOwn(s: Sheet, l: Layout, headings: seq<Row>, pids: seq<string>, managed: bool)
    requires Refines(s, l.chunks, l.anchors) && AllOfKind(l.chunks, managed)
    requires forall i :: 0 <= i < |pids| ==> pids[i] in l.anchors
    ensures AllOwn(l.chunks + Looses(headings), l.anchors, pids)
  {
    AnchorsLonger(s, l.chunks, l.anchors, headings);
  }

  // ------------------------------------------------ what each block ends up with

  /** What a project is owed after one table more: a new block owes nothing, a continuation adds its rows. */
  function OwedAfter(owed: seq<Row>, t: Table, p: string): seq<Row> {
    match t
    case Main(_, blocks) => if p in PidsOf(blocks) then [] else owed
    case Continuation(_, pids, rows, _) => if p in pids then owed + Cleared(RowsOf(rows, p)) else owed
  }

  /** The continuation rows a project is owed: those after its last emission, page by page. */
  function Owed(tables: seq<Table>, p: string): seq<Row> {
    if tables == [] then [] else OwedAfter(Owed(tables[..|tables| - 1], p), tables[|tables| - 1], p)
  }

  /** A continuation names each of its projects once, as `find_projects` returns them. */
  ghost predicate NamedOnce(tables: seq<Table>) {
    forall t :: t in tables && t.Continuation? ==> NoRepeats(t.pids)
  }

  lemma {:induction false} JoinAllAdds(chunks: seq<Chunk>, anchors: Anchors, pids: seq<string>, rows: seq<Row>,
                                       n: nat, p: string)
    requires n <= |pids| && AnchorsHold(chunks, anchors) && (forall i :: 0 <= i < |pids| ==> pids[i] in anchors)
    requires NoRepeats(pids) && p in anchors
    ensures IsBlockOf(chunks, anchors[p], p) && IsBlockOf(JoinAllBlocks(chunks, anchors, pids, rows, n), anchors[p], p)
    ensures JoinAllBlocks(chunks, anchors, pids, rows, n)[anchors[p]].block.added
         == chunks[anchors[p]].block.added + if p in pids[..n] then Cleared(RowsOf(rows, p)) else []
    decreases n
  {
    assert IsBlockOf(chunks, anchors[p], p);
    if n == 0 {
    } else {
      NamedBefore(pids, n, p);
      hide NoRepeats, SameFrame, RowsOf, Cleared, Total, AnchorsHold, IsBlockOf, JoinBlock;
      var q := pids[n - 1];
      var a := anchors[q];
      var b := JoinBlock(chunks[a].block, RowsOf(rows, q), Total(RowsOf(rows, q)));
      AnchorsKept(chunks, anchors, a, b);
      var chunks' := chunks[a := Project(b)];
      JoinAllAdds(chunks', anchors, pids, rows, n - 1, p);
      assert JoinAllBlocks(chunks, anchors, pids, rows, n) == JoinAllBlocks(chunks', anchors, pids, rows, n - 1);
    }
  }

  lemma {:induction false} AnchorsAfterExact(anchors: Anchors, base: nat, blocks: seq<Block>, p: string)
    requires p in AnchorsAfter(anchors, base, blocks)
    ensures var a := AnchorsAfter(anchors, base, blocks)[p];
            if p in PidsOf(blocks) then base <= a < base + |blocks| else p in anchors && a == anchors[p]
    decreases |blocks|
  {
    if blocks == [] {
    } else {
      PidsFront(blocks);
      if p != blocks[0].head.pid {
        AnchorsAfterExact(anchors, base + 1, blocks[1..], p);
      }
    }
  }

  /** One table more: the block a project is known by holds what the project is owed. */
  lemma OwedStep(s: Sheet, l: Layout, t: Table, p: string, rest: seq<Row>)
    requires Refines(s, l.chunks, l.anchors) && Lands(l, t) && p in Lay(l, t).anchors
    requires t.Continuation? ==> NoRepeats(t.pids)
    requires p in l.anchors ==> IsBlockOf(l.chunks, l.anchors[p], p) && l.chunks[l.anchors[p]].block.added == rest
    ensures var a := Lay(l, t).anchors[p];
            && a < |Lay(l, t).chunks| && Lay(l, t).chunks[a].Project?
            && Lay(l, t).chunks[a].block.added == OwedAfter(rest, t, p)
  {
    hide Flat, GoodBlock, AllInner, NoManagement, GoodContinuation, RowsOf, Cleared, StaysOwn, SameFrame, PidsOf;
    var chunks := l.chunks + Looses(t.headings);
    match t {
      case Main(_, blocks) => AnchorsAfterExact(l.anchors, |chunks|, blocks, p);
      case Continuation(_, pids, rows, _) =>
        OwnAnchored(chunks, l.anchors, pids);
        AnchorsLonger(s, l.chunks, l.anchors, t.headings);
        JoinAllAdds(chunks, l.anchors, pids, rows, |pids|, p);
        assert pids[..|pids|] == pids;
    }
  }

  /** The rows added to a project's block are the ones owed to it: none lost, none doubled, in page order. */
  lemma {:induction false} BlocksHoldWhatIsOwed(tables: seq<Table>, p: string)
    requires LandsAll(tables) && NamedOnce(tables) && p in LayAll(tables).anchors
    ensures IsBlockOf(LayAll(tables).chunks, LayAll(tables).anchors[p], p)
    ensures LayAll(tables).chunks[LayAll(tables).anchors[p]].block.added == Owed(tables, p)
  {
    FileRefinesBlocks(tables);
    assert IsBlockOf(LayAll(tables).chunks, LayAll(tables).anchors[p], p);
    if tables == [] {
    } else {
      hide Refines, Lay, Lands;
      var front := tables[..|tables| - 1];
      FileRefinesBlocks(front);
      if p in LayAll(front).anchors {
        BlocksHoldWhatIsOwed(front, p);
      }
      OwedStep(WriteAll(front), LayAll(front), tables[|tables| - 1], p, Owed(front, p));
    }
  }

  // ------------------------------------------------------- where it all comes from

  /** The first of the blocks that is `p`'s. */
  function FirstOf(blocks: seq<Block>, p: string): Option<Block>
    decreases |blocks|
  {
    if blocks == [] then None else if blocks[0].head.pid == p then Some(blocks[0]) else FirstOf(blocks[1..], p)
  }

  /** The block last emitted for `p`. */
  function Latest(tables: seq<Table>, p: string): Option<Block> {
    if tables == [] then None
    else
      var t := tables[|tables| - 1];
      if t.Main? && p in PidsOf(t.blocks) then FirstOf(t.blocks, p) else Latest(tables[..|tables| - 1], p)
  }

  lemma {:induction false} AnchoredAtFirst(anchors: Anchors, base: nat, blocks: seq<Block>, p: string)
    requires p in PidsOf(blocks)
    ensures p in AnchorsAfter(anchors, base, blocks)
    ensures var a := AnchorsAfter(anchors, base, blocks)[p];
            base <= a < base + |blocks| && FirstOf(blocks, p) == Some(blocks[a - base])
    decreases |blocks|
  {
    PidsFront(blocks);
    if blocks[0].head.pid != p {
      AnchoredAtFirst(anchors, base + 1, blocks[1..], p);
    }
  }

  lemma {:induction false} AnchoredAtLatest(tables: seq<Table>, p: string)
    requires LandsAll(tables) && p in LayAll(tables).anchors
    ensures LayAll(tables).anchors[p] < |MainOnly(tables)|
    ensures Latest(tables, p).Some? && MainOnly(tables)[LayAll(tables).anchors[p]] == Project(Latest(tables, p).value)
  {
    if tables == [] {
    } else {
      hide Refines, Lay, Lands, WriteAll, SameFrame, FirstOf, PidsOf, Looses, Projects;
      var front, t := tables[..|tables| - 1], tables[|tables| - 1];
      MainRowsStay(front);
      FileRefinesBlocks(front);
      if p in LayAll(front).anchors {
        AnchoredAtLatest(front, p);
      }
      LatestStep(WriteAll(front), LayAll(front), MainOnly(front), t, p, Latest(front, p));
    }
  }

  lemma LatestStep(s: Sheet, l: Layout, mains: seq<Chunk>, t: Table, p: string, before: Option<Block>)
    requires Refines(s, l.chunks, l.anchors) && Lands(l, t) && |mains| == |l.chunks| && p in Lay(l, t).anchors
    requires p in l.anchors ==> l.anchors[p] < |mains| && before.Some? && mains[l.anchors[p]] == Project(before.value)
    ensures var mains' := mains + Looses(t.headings) + (if t.Main? then Projects(t.blocks) else []);
            var now := if t.Main? && p in PidsOf(t.blocks) then FirstOf(t.blocks, p) else before;
            Lay(l, t).anchors[p] < |mains'| && now.Some? && mains'[Lay(l, t).anchors[p]] == Project(now.value)
  {
    hide Refines, Lands, PidsOf, FirstOf, AnchorsAfter;
    match t {
      case Main(headings, blocks) =>
        AnchorsAfterExact(l.anchors, |l.chunks| + |headings|, blocks, p);
        if p in PidsOf(blocks) {
          AnchoredAtFirst(l.anchors, |l.chunks| + |headings|, blocks, p);
        }
      case Continuation(_, _, _, _) =>
        StillAnchored(s, l, t);
    }
  }

  lemma StillAnchored(s: Sheet, l: Layout, t: Table)
    requires Refines(s, l.chunks, l.anchors) && Lands(l, t) && t.Continuation?
    ensures Lay(l, t).anchors == l.anchors
  {
    hide Flat, GoodBlock, AllInner, NoManagement, GoodContinuation;
    OwnAnchored(l.chunks + Looses(t.headings), l.anchors, t.pids);
    AnchorsLonger(s, l.chunks, l.anchors, t.headings);
  }

  /**
   What a project's block looks like in the end: the rows it was last emitted with, in their
   place, the continuation rows owed to it since, and a total raised by what they come to.
   */
  lemma BlockInTheEnd(tables: seq<Table>, p: string) returns (b: Block)
    requires LandsAll(tables) && NamedOnce(tables) && p in LayAll(tables).anchors
    ensures Latest(tables, p).Some? && b.head.pid == p
    ensures LayAll(tables).anchors[p] < |LayAll(tables).chunks|
    ensures LayAll(tables).chunks[LayAll(tables).anchors[p]] == Project(b)
    ensures var e := Latest(tables, p).value;
            && b.pre == e.pre && b.post == e.post && b.added == Owed(tables, p)
            && Cents(b.head) == e.base + Total(Owed(tables, p))
  {
    hide Refines, LandsAll, LayAll, WriteAll, MainOnly, Latest, Owed, NamedOnce, Total;
    BlocksHoldWhatIsOwed(tables, p);
    b := LayAll(tables).chunks[LayAll(tables).anchors[p]].block;
    FileRefinesBlocks(tables);
    MainRowsStay(tables);
    AnchoredAtLatest(tables, p);
    assert SameFrame(MainOnly(tables)[LayAll(tables).anchors[p]], Project(b));
  }

  // --------------------------------------------------------- rows gone astray

  /** One block without materials, with or without a management row. */
  function Bare(pid: string, total: int, managed: bool): Block {
    Block(Row(QUOTA, pid, "", Some(total)), [], [],
          if managed then [Row(SUMMARY, "", MANAGEMENT, Some(total))] else [], Row("", "", "", None), total)
  }

  lemma EmitBare(s: Sheet, pid: string, total: int, managed: bool)
    requires pid != ""
    ensures var rows := BlockRows(Bare(pid, total, managed));
            && |rows| == (if managed then 3 else 2)
            && Emit(s, Flat(Projects([Bare(pid, total, managed)])))
            == Sheet(s.rows + rows, s.blanks[pid := |s.rows| + |rows| - 1], s.seen + {pid})
  {
    var b := Bare(pid, total, managed);
    hide Record, Heads, BlockRows, Bare, GoodBlock;
    BareIsGood(pid, total, managed);
    OneBlockFlat(b);
    RecordFromStart(BlockRows(b), |s.rows|, s.blanks, [b]);
    HeadsOfBlocks([b]);
    OneBlockBooked(b, |s.rows|, s.blanks);
  }

  lemma BareIsGood(pid: string, total: int, managed: bool)
    requires pid != ""
    ensures var b := Bare(pid, total, managed);
            GoodBlock(b) && b.head.pid == pid && |BlockRows(b)| == if managed then 3 else 2
  {
    assert Total([]) == 0;
  }

  lemma OneBlockFlat(b: Block)
    ensures Flat(Projects([b])) == BlockRows(b)
  {
    hide BlockRows;
    assert Projects([b])[..0] == [] && Flat([]) == [];
  }

  lemma OneBlockBooked(b: Block, base: nat, blanks: map<string, nat>)
    ensures BlanksAfter(blanks, base, [b]) == blanks[b.head.pid := base + |BlockRows(b)| - 1]
    ensures PidsOf([b]) == {b.head.pid}
  {
    hide BlockRows;
    assert [b][1..] == [] && BlanksAfter(blanks, base + |BlockRows(b)|, []) == blanks;
    assert b in [b];
  }

  /**
   Project A has a management row, project B has none, and one row continues B: it lands in
   A's block, in front of the management row, and B's total stays without it.
   */
  lemma StrayTables(x: int, y: int, r: Row)
    requires r.pid == "B"
    ensures var a, b := Bare("A", x, true), Bare("B", y, false);
            var tables := [Main([], [a]), Main([], [b]), Continuation([], ["B"], [r], map["B" := Cents(r)])];
            WriteAll(tables).rows == [a.head, r.(pid := ""), a.post[0], a.blank, b.head, b.blank]
  {
    hide *;
    var a, b := Bare("A", x, true), Bare("B", y, false);
    BareRows("A", x, true);
    BareRows("B", y, false);
    var s0, s1 := Sheet([], map[], {}), Sheet([a.head, a.post[0], a.blank], map["A" := 2], {"A"});
    var s2 := Sheet([a.head, a.post[0], a.blank, b.head, b.blank], map["A" := 2, "B" := 4], {"A", "B"});
    WriteBare(s0, "A", x, true);
    assert Write(s0, Main([], [a])) == s1;
    WriteBare(s1, "B", y, false);
    assert Write(s1, Main([], [b])) == s2;
    StraysFromB(s2, r, a, b);
    ThreeTables(Main([], [a]), Main([], [b]), Continuation([], ["B"], [r], map["B" := Cents(r)]));
  }

  lemma BareRows(pid: string, total: int, managed: bool)
    ensures var b := Bare(pid, total, managed);
            && b.head.kind == QUOTA && b.head.pid == pid && IsBlank(b.blank)
            && (if managed then |b.post| == 1 && IsManagement(b.post[0]) && BlockRows(b) == [b.head, b.post[0], b.blank]
                else b.post == [] && BlockRows(b) == [b.head, b.blank])
  {
  }

  lemma WriteBare(s: Sheet, pid: string, total: int, managed: bool)
    requires pid != ""
    ensures var rows := BlockRows(Bare(pid, total, managed));
            Write(s, Main([], [Bare(pid, total, managed)]))
            == Sheet(s.rows + rows, s.blanks[pid := |s.rows| + |rows| - 1], s.seen + {pid})
  {
    hide Emit, Flat, Projects, BlockRows, Bare;
    NoHeadings(s);
    EmitBare(s, pid, total, managed);
  }

  lemma ThreeTables(t: Table, u: Table, v: Table)
    ensures WriteAll([t, u, v]) == Write(Write(Write(Sheet([], map[], {}), t), u), v)
  {
    hide Write;
    var s0 := Sheet([], map[], {});
    assert [t][..0] == [] && WriteAll([]) == s0;
    assert [t, u][..1] == [t] && [t, u, v][..2] == [t, u];
    assert WriteAll([t]) == Write(s0, t);
    assert WriteAll([t, u]) == Write(Write(s0, t), u);
  }

  lemma NoHeadings(s: Sheet)
    ensures s.(rows := s.rows + []) == s
  {
  }

  lemma StraysFromB(s: Sheet, r: Row, a: Block, b: Block)
    requires r.pid == "B" && a.head.kind == b.head.kind == QUOTA && a.head.pid == "A" && b.head.pid == "B"
    requires a.post != [] && IsManagement(a.post[0]) && IsBlank(a.blank) && IsBlank(b.blank)
    requires s == Sheet([a.head, a.post[0], a.blank, b.head, b.blank], map["A" := 2, "B" := 4], {"A", "B"})
    ensures Write(s, Continuation([], ["B"], [r], map["B" := Cents(r)])).rows
         == [a.head, r.(pid := ""), a.post[0], a.blank, b.head, b.blank]
  {
    var deltas := map["B" := Cents(r)];
    assert [r][..0] == [] && RowsOf([r], "B") == [r];
    assert InsertIndex(s.rows, 4, 2) == 1;
    assert InsertIndex(s.rows, 4, 3) == 1;
    assert InsertIndex(s.rows, 4, 4) == 1;
    JoinOneAt(s, "B", [r], Cents(r));
    var spliced := s.rows[..1] + Cleared([r]) + s.rows[1..];
    assert spliced == [a.head, r.(pid := ""), a.post[0], a.blank, b.head, b.blank];
    assert AddToHead(spliced, 0, "B", Cents(r)) == spliced;
    assert AddToHead(spliced, 1, "B", Cents(r)) == spliced;
    hide JoinOne, RowsOf;
    var s' := JoinOne(s, "B", [r], Cents(r));
    assert s'.rows == spliced;
    JoinOneInBounds(s, "B", [r], Cents(r));
    assert JoinAll(s', ["B"], [r], deltas, 0) == s';
    assert JoinAll(s, ["B"], [r], deltas, 1) == s';
    NoHeadings(s);
  }

  // -------------------------------------------------------- bounds of the index map

  lemma {:induction false} RecordInBounds(rows: seq<Row>, base: nat, blanks: map<string, nat>, i: nat)
    requires i <= |rows| && forall p :: p in blanks ==> blanks[p] < base + |rows|
    ensures forall p :: p in Record(rows, base, blanks, i) ==> Record(rows, base, blanks, i)[p] < base + |rows|
    decreases |rows| - i
  {
    if i < |rows| {
      RecordInBounds(rows, base, blanks, i + 1);
    }
  }

  lemma {:induction false} JoinAllInBounds(s: Sheet, pids: seq<string>, rows: seq<Row>, deltas: map<string, int>,
                                           n: nat)
    requires InBounds(s) && n <= |pids|
    ensures InBounds(JoinAll(s, pids, rows, deltas, n))
    decreases n
  {
    hide JoinOne, RowsOf, InBounds;
    if n == 0 {
    } else {
      var p := pids[n - 1];
      var d := if p in deltas then deltas[p] else 0;
      JoinOneInBounds(s, p, RowsOf(rows, p), d);
      JoinAllInBounds(JoinOne(s, p, RowsOf(rows, p), d), pids, rows, deltas, n - 1);
    }
  }

  lemma WriteInBounds(s: Sheet, t: Table)
    requires InBounds(s)
    ensures InBounds(s.(rows := s.rows + t.headings)) && InBounds(Write(s, t))
  {
    hide Record, JoinAll;
    var s' := s.(rows := s.rows + t.headings);
    match t {
      case Main(_, blocks) => RecordInBounds(Flat(Projects(blocks)), |s'.rows|, s'.blanks, 0);
      case Continuation(_, pids, rows, deltas) => JoinAllInBounds(s', pids, rows, deltas, |pids|);
    }
  }
}
