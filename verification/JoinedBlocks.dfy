/**
 The spliced flat list as a list of blocks: one block per emitted project, with its
 continuation rows in a place of their own. The flat list and its index map refine this
 view as long as each continuation lands in its own block.
 */
module JoinedBlocks {
  import opened Catalogue
  import opened CrossPageJoin

  // `post` starts at the block's last management-fee row; `base` is the total first emitted.
  datatype Block = Block(head: Row, pre: seq<Row>, added: seq<Row>, post: seq<Row>, blank: Row, base: int)

  datatype Chunk = Loose(row: Row) | Project(block: Block)

  ghost predicate NoManagement(rows: seq<Row>) {
    forall i :: 0 <= i < |rows| ==> !IsManagement(rows[i])
  }

  ghost predicate GoodBlock(b: Block) {
    && IsQuota(b.head) && b.head.pid != "" && IsBlank(b.blank)
    && AllInner(b.pre) && AllInner(b.added) && AllInner(b.post) && NoManagement(b.added)
    && (if b.post == [] then NoManagement(b.pre) else IsManagement(b.post[0]) && NoManagement(b.post[1..]))
    && Cents(b.head) == b.base + Total(b.added)
  }

  ghost predicate Good(c: Chunk) {
    match c
    case Loose(r) => IsInner(r) && !IsManagement(r)
    case Project(b) => GoodBlock(b)
  }

  function BlockRows(b: Block): seq<Row> {
    [b.head] + b.pre + b.added + b.post + [b.blank]
  }

  function ChunkRows(c: Chunk): seq<Row> {
    match c
    case Loose(r) => [r]
    case Project(b) => BlockRows(b)
  }

  function Flat(chunks: seq<Chunk>): seq<Row> {
    if chunks == [] then [] else Flat(chunks[..|chunks| - 1]) + ChunkRows(chunks[|chunks| - 1])
  }

  lemma {:induction false} FlatConcat(a: seq<Chunk>, b: seq<Chunk>)
    ensures Flat(a + b) == Flat(a) + Flat(b)
  {
    hide ChunkRows;
    if b == [] {
      assert a + b == a;
    } else {
      FlatConcat(a, b[..|b| - 1]);
      assert (a + b)[..|a + b| - 1] == a + b[..|b| - 1];
    }
  }

  lemma FlatAround(chunks: seq<Chunk>, a: nat)
    requires a < |chunks|
    ensures Flat(chunks) == Flat(chunks[..a]) + ChunkRows(chunks[a]) + Flat(chunks[a + 1..])
    ensures Flat(chunks[..a + 1]) == Flat(chunks[..a]) + ChunkRows(chunks[a])
  {
    hide ChunkRows, Flat;
    FlatNext(chunks, a);
    assert chunks == chunks[..a + 1] + chunks[a + 1..];
    FlatConcat(chunks[..a + 1], chunks[a + 1..]);
  }

  lemma FlatNext(chunks: seq<Chunk>, a: nat)
    requires a < |chunks|
    ensures Flat(chunks[..a + 1]) == Flat(chunks[..a]) + ChunkRows(chunks[a])
  {
    hide ChunkRows;
    assert chunks[..a + 1][..a] == chunks[..a];
  }

  lemma FlatGrows(chunks: seq<Chunk>, i: nat, j: nat)
    requires i <= j <= |chunks|
    ensures |Flat(chunks[..i])| <= |Flat(chunks[..j])|
  {
    assert chunks[..j] == chunks[..i] + chunks[i..j];
    FlatConcat(chunks[..i], chunks[i..j]);
  }

  type Anchors = map<string, nat>

  /** Where the blank row of chunk `a` stands in the flat list. */
  ghost function BlankAt(chunks: seq<Chunk>, a: nat): int
    requires a < |chunks|
  {
    |Flat(chunks[..a + 1])| - 1
  }

  ghost predicate AnchorsHold(chunks: seq<Chunk>, anchors: Anchors) {
    && (forall p :: p in anchors ==> IsBlockOf(chunks, anchors[p], p))
    && (forall i :: 0 <= i < |chunks| && chunks[i].Project? ==> chunks[i].block.head.pid in anchors)
  }

  ghost predicate IsBlockOf(chunks: seq<Chunk>, a: nat, p: string) {
    a < |chunks| && chunks[a].Project? && chunks[a].block.head.pid == p
  }

  /** The flat list is the blocks laid end to end, and the index map points at their blanks. */
  ghost predicate Refines(s: Sheet, chunks: seq<Chunk>, anchors: Anchors) {
    && (forall i :: 0 <= i < |chunks| ==> Good(chunks[i]))
    && AnchorsHold(chunks, anchors)
    && s.rows == Flat(chunks)
    && s.blanks.Keys == anchors.Keys && s.seen == anchors.Keys
    && forall p :: p in anchors ==> s.blanks[p] == BlankAt(chunks, anchors[p])
  }

  /** The backward scan stays in block `a`: it has a management row, or no block before it has. */
  ghost predicate StaysOwn(chunks: seq<Chunk>, a: nat)
    requires a < |chunks| && chunks[a].Project?
  {
    chunks[a].block.post != [] || forall i :: 0 <= i < a && chunks[i].Project? ==> chunks[i].block.post == []
  }

  // -------------------------------------------------------------- one join

  function Raised(head: Row, delta: int): Row {
    if delta == 0 then head else head.(value := Some(Cents(head) + delta))
  }

  /** Joining on blocks: the rows go behind those already added, the total goes up. */
  function JoinBlock(b: Block, ins: seq<Row>, delta: int): Block {
    b.(head := Raised(b.head, delta), added := b.added + Cleared(ins))
  }

  lemma {:induction false} ScanFinds(rows: seq<Row>, b: nat, i: nat, k: nat)
    requires k < i <= b <= |rows| && IsManagement(rows[k])
    requires forall j :: k < j < i ==> !IsManagement(rows[j])
    ensures InsertIndex(rows, b, i) == k
  {
    if i - 1 > k {
      ScanFinds(rows, b, i - 1, k);
    }
  }

  lemma {:induction false} ScanFindsNone(rows: seq<Row>, b: nat, i: nat)
    requires i <= b <= |rows| && forall j :: 0 <= j < i ==> !IsManagement(rows[j])
    ensures InsertIndex(rows, b, i) == b
  {
    if i == 0 {
    } else {
      ScanFindsNone(rows, b, i - 1);
    }
  }

  lemma {:induction false} ScanStops(rows: seq<Row>, b: nat, i: nat, k: nat)
    requires k < i <= b <= |rows| && IsManagement(rows[k])
    ensures k <= InsertIndex(rows, b, i) < i
  {
    if !IsManagement(rows[i - 1]) {
      ScanStops(rows, b, i - 1, k);
    }
  }

  lemma {:induction false} HeadFound(rows: seq<Row>, i: nat, h: nat, pid: string, delta: int)
    requires h < i <= |rows| && IsQuota(rows[h]) && rows[h].pid == pid
    requires forall j :: h < j < i ==> !IsQuota(rows[j])
    ensures AddToHead(rows, i, pid, delta) == rows[h := rows[h].(value := Some(Cents(rows[h]) + delta))]
  {
    if i - 1 > h {
      HeadFound(rows, i - 1, h, pid, delta);
    }
  }

  lemma {:induction false} NoManagementBefore(chunks: seq<Chunk>)
    requires forall i :: 0 <= i < |chunks| ==> Good(chunks[i])
    requires forall i :: 0 <= i < |chunks| && chunks[i].Project? ==> chunks[i].block.post == []
    ensures NoManagement(Flat(chunks))
  {
    if chunks == [] {
    } else {
      hide ChunkRows, IsManagement;
      NoManagementBefore(chunks[..|chunks| - 1]);
      ChunkHasNone(chunks[|chunks| - 1]);
    }
  }

  lemma ChunkHasNone(c: Chunk)
    requires Good(c) && (c.Project? ==> c.block.post == [])
    ensures NoManagement(ChunkRows(c))
  {
  }

  lemma OwnHasNoneBefore(chunks: seq<Chunk>, a: nat)
    requires a < |chunks| && chunks[a].Project? && StaysOwn(chunks, a) && chunks[a].block.post == []
    requires forall i :: 0 <= i < |chunks| ==> Good(chunks[i])
    ensures NoManagement(Flat(chunks[..a]))
  {
    hide Good, NoManagement;
    NoManagementBefore(chunks[..a]);
  }

  /** Where the rows go when the scan stays in the block: right behind the rows already added. */
  lemma InsertsOwn(A: seq<Row>, b: Block, C: seq<Row>)
    requires GoodBlock(b) && (b.post != [] || NoManagement(A))
    ensures var rows := A + BlockRows(b) + C;
            var blank := |A| + |BlockRows(b)| - 1;
            InsertIndex(rows, blank, blank) == |A| + 1 + |b.pre| + |b.added|
  {
    var rows := A + BlockRows(b) + C;
    var blank := |A| + |BlockRows(b)| - 1;
    var k := |A| + 1 + |b.pre| + |b.added|;
    if b.post == [] {
      forall j | 0 <= j < blank
        ensures !IsManagement(rows[j])
      {
      }
      ScanFindsNone(rows, blank, blank);
    } else {
      forall j | k < j < blank
        ensures !IsManagement(rows[j])
      {
        assert rows[j] == b.post[1..][j - k - 1];
      }
      ScanFinds(rows, blank, blank, k);
    }
  }

  /** A block's rows up to the place where continuations are inserted, and from there on. */
  ghost function Upper(b: Block): seq<Row> { [b.head] + b.pre + b.added }

  ghost function Lower(b: Block): seq<Row> { b.post + [b.blank] }

  lemma BlockSplits(A: seq<Row>, b: Block, C: seq<Row>)
    ensures A + BlockRows(b) + C == (A + Upper(b)) + (Lower(b) + C)
  {
    assert BlockRows(b) == Upper(b) + Lower(b);
    hide Upper, Lower, BlockRows;
    assert A + (Upper(b) + Lower(b)) + C == (A + Upper(b)) + (Lower(b) + C);
  }

  lemma UpperGrows(A: seq<Row>, b: Block, I: seq<Row>)
    ensures A + Upper(b.(added := b.added + I)) == A + Upper(b) + I
  {
  }

  /** The flat rows after a join that stays in its block. */
  lemma SplicesOwn(A: seq<Row>, b: Block, C: seq<Row>, ins: seq<Row>, delta: int)
    requires GoodBlock(b)
    ensures var rows := A + BlockRows(b) + C;
            var k := |A| + 1 + |b.pre| + |b.added|;
            var spliced := rows[..k] + Cleared(ins) + rows[k..];
            (if delta != 0 then AddToHead(spliced, k, b.head.pid, delta) else spliced)
            == A + BlockRows(JoinBlock(b, ins, delta)) + C
  {
    hide BlockRows, AddToHead;
    var I := Cleared(ins);
    var k := |A| + 1 + |b.pre| + |b.added|;
    var grown := b.(added := b.added + I);
    BlockSplits(A, b, C);
    BlockSplits(A, grown, C);
    UpperGrows(A, b, I);
    var spliced := (A + Upper(grown)) + (Lower(b) + C);
    assert spliced == A + BlockRows(grown) + C;
    if delta != 0 {
      assert spliced == (A + Upper(b)) + (I + (Lower(b) + C));
      HeadFound(spliced, k, |A|, b.head.pid, delta);
      BlockSplits(A, JoinBlock(b, ins, delta), C);
    }
  }

  lemma JoinKeepsGood(b: Block, ins: seq<Row>, delta: int)
    requires GoodBlock(b) && AllInner(ins) && NoManagement(ins) && delta == Total(ins)
    ensures GoodBlock(JoinBlock(b, ins, delta))
  {
    TotalConcat(b.added, Cleared(ins));
    TotalCleared(ins);
  }

  lemma GrownLength(b: Block, ins: seq<Row>, delta: int)
    ensures |BlockRows(b)| == 2 + |b.pre| + |b.added| + |b.post|
    ensures |BlockRows(JoinBlock(b, ins, delta))| == |BlockRows(b)| + |ins|
  {
  }

  lemma ChunkNotEmpty(c: Chunk)
    ensures |ChunkRows(c)| > 0
  {
  }

  lemma BlanksShift(chunks: seq<Chunk>, anchors: Anchors, a: nat, ins: seq<Row>, delta: int, k: nat, q: string)
    requires AnchorsHold(chunks, anchors) && a < |chunks| && chunks[a].Project?
    requires chunks[a].block.head.pid in anchors && anchors[chunks[a].block.head.pid] == a
    requires k == |Flat(chunks[..a])| + 1 + |chunks[a].block.pre| + |chunks[a].block.added|
    requires q in anchors
    ensures var chunks' := chunks[a := Project(JoinBlock(chunks[a].block, ins, delta))];
            && anchors[q] < |chunks| && 0 <= BlankAt(chunks, anchors[q])
            && BlankAt(chunks', anchors[q]) ==
               BlankAt(chunks, anchors[q]) + if BlankAt(chunks, anchors[q]) >= k then |ins| else 0
  {
    hide BlockRows, Flat;
    var b := JoinBlock(chunks[a].block, ins, delta);
    GrownLength(chunks[a].block, ins, delta);
    var chunks' := chunks[a := Project(b)];
    var c := anchors[q];
    assert IsBlockOf(chunks, c, q);
    FlatAround(chunks, c);
    ChunkNotEmpty(chunks[c]);
    if c < a {
      assert chunks'[..c + 1] == chunks[..c + 1];
      FlatGrows(chunks, c + 1, a);
    } else {
      FlatAround(chunks, a);
      FlatAround(chunks', a);
      assert chunks'[..a] == chunks[..a];
      assert chunks[..c + 1] == chunks[..a + 1] + chunks[a + 1..c + 1];
      assert chunks'[..c + 1] == chunks'[..a + 1] + chunks[a + 1..c + 1];
      FlatConcat(chunks[..a + 1], chunks[a + 1..c + 1]);
      FlatConcat(chunks'[..a + 1], chunks[a + 1..c + 1]);
      FlatGrows(chunks, a + 1, c + 1);
    }
  }

  /** The place in the flat list where block `a` takes its continuation rows. */
  ghost function JoinAt(chunks: seq<Chunk>, a: nat): nat
    requires a < |chunks| && chunks[a].Project?
  {
    |Flat(chunks[..a])| + 1 + |chunks[a].block.pre| + |chunks[a].block.added|
  }

  lemma JoinOneAt(s: Sheet, pid: string, ins: seq<Row>, delta: int)
    requires InBounds(s) && pid in s.blanks && ins != []
    ensures 0 <= s.blanks[pid] < |s.rows|
    ensures var k := InsertIndex(s.rows, s.blanks[pid], s.blanks[pid]);
            var spliced := s.rows[..k] + Cleared(ins) + s.rows[k..];
            JoinOne(s, pid, ins, delta) ==
            Sheet(if delta != 0 then AddToHead(spliced, k, pid, delta) else spliced,
                  Shifted(s.blanks, k, |ins|), s.seen)
  {
    hide InsertIndex, AddToHead, Cleared, Shifted;
  }

  lemma JoinOneOnRows(s: Sheet, A: seq<Row>, b: Block, C: seq<Row>, ins: seq<Row>, delta: int)
    requires InBounds(s)
    requires s.rows == A + BlockRows(b) + C && GoodBlock(b) && (b.post != [] || NoManagement(A)) && ins != []
    requires b.head.pid in s.blanks && s.blanks[b.head.pid] == |A| + |BlockRows(b)| - 1
    ensures JoinOne(s, b.head.pid, ins, delta) ==
            Sheet(A + BlockRows(JoinBlock(b, ins, delta)) + C,
                Shifted(s.blanks, |A| + 1 + |b.pre| + |b.added|, |ins|), s.seen)
  {
    hide *;
    var k := |A| + 1 + |b.pre| + |b.added|;
    assert InsertIndex(s.rows, s.blanks[b.head.pid], s.blanks[b.head.pid]) == k by {
      InsertsOwn(A, b, C);
    }
    var spliced := s.rows[..k] + Cleared(ins) + s.rows[k..];
    assert (if delta != 0 then AddToHead(spliced, k, b.head.pid, delta) else spliced)
        == A + BlockRows(JoinBlock(b, ins, delta)) + C by {
      SplicesOwn(A, b, C, ins, delta);
    }
    JoinOneAt(s, b.head.pid, ins, delta);
  }

  lemma JoinOneRows(s: Sheet, chunks: seq<Chunk>, anchors: Anchors, p: string, ins: seq<Row>, delta: int)
    requires Refines(s, chunks, anchors) && p in anchors && IsBlockOf(chunks, anchors[p], p)
             && StaysOwn(chunks, anchors[p])
    requires ins != []
    ensures InBounds(s)
    ensures var a := anchors[p];
            && JoinOne(s, p, ins, delta).rows == Flat(chunks[a := Project(JoinBlock(chunks[a].block, ins, delta))])
            && JoinOne(s, p, ins, delta).blanks == Shifted(s.blanks, JoinAt(chunks, a), |ins|)
            && JoinOne(s, p, ins, delta).seen == s.seen
  {
    hide JoinOne, Total, BlockRows, Flat, GoodBlock, StaysOwn, Shifted, JoinBlock, NoManagement;
    var a, b := anchors[p], chunks[anchors[p]].block;
    BlanksInBounds(s, chunks, anchors);
    FlatAround(chunks, a);
    assert Good(chunks[a]);
    if b.post == [] {
      OwnHasNoneBefore(chunks, a);
    }
    JoinOneOnRows(s, Flat(chunks[..a]), b, Flat(chunks[a + 1..]), ins, delta);
    var chunks' := chunks[a := Project(JoinBlock(b, ins, delta))];
    FlatAround(chunks', a);
    assert chunks'[..a] == chunks[..a] && chunks'[a + 1..] == chunks[a + 1..];
  }

  /** A join that stays in its block refines the join on blocks. */
  lemma JoinOneRefines(s: Sheet, chunks: seq<Chunk>, anchors: Anchors, p: string, ins: seq<Row>, delta: int)
    requires Refines(s, chunks, anchors) && p in anchors && IsBlockOf(chunks, anchors[p], p)
             && StaysOwn(chunks, anchors[p])
    requires AllInner(ins) && NoManagement(ins) && delta == Total(ins)
    ensures InBounds(s)
    ensures var a := anchors[p];
            Refines(JoinOne(s, p, ins, delta), chunks[a := Project(JoinBlock(chunks[a].block, ins, delta))], anchors)
  {
    hide JoinOne, Total, Flat, BlankAt, GoodBlock, StaysOwn, JoinBlock, AllInner, NoManagement, AnchorsHold;
    var a, b := anchors[p], chunks[anchors[p]].block;
    BlanksInBounds(s, chunks, anchors);
    assert Good(chunks[a]);
    JoinKeepsGood(b, ins, delta);
    SamePid(b, ins, delta);
    var chunks' := chunks[a := Project(JoinBlock(b, ins, delta))];
    AnchorsKept(chunks, anchors, a, JoinBlock(b, ins, delta));
    if ins == [] {
      EmptyJoin(b, delta);
      assert chunks' == chunks;
      assert JoinOne(s, p, ins, delta) == s by {
        JoinNothing(s, p, delta);
      }
    } else {
      JoinOneRows(s, chunks, anchors, p, ins, delta);
      forall q | q in anchors
        ensures JoinOne(s, p, ins, delta).blanks[q] == BlankAt(chunks', anchors[q])
      {
        BlanksShift(chunks, anchors, a, ins, delta, JoinAt(chunks, a), q);
      }
    }
  }

  lemma JoinNothing(s: Sheet, p: string, delta: int)
    requires InBounds(s)
    ensures JoinOne(s, p, [], delta) == s
  {
  }

  lemma AnchorsKept(chunks: seq<Chunk>, anchors: Anchors, a: nat, b: Block)
    requires AnchorsHold(chunks, anchors) && a < |chunks| && chunks[a].Project?
             && b.head.pid == chunks[a].block.head.pid
    ensures AnchorsHold(chunks[a := Project(b)], anchors)
    ensures forall q :: q in anchors ==> IsBlockOf(chunks, anchors[q], q) && anchors[q] < |chunks|
  {
    forall q | q in anchors
      ensures IsBlockOf(chunks[a := Project(b)], anchors[q], q)
    {
      assert IsBlockOf(chunks, anchors[q], q);
    }
  }

  lemma SamePid(b: Block, ins: seq<Row>, delta: int)
    ensures JoinBlock(b, ins, delta).head.pid == b.head.pid && JoinBlock(b, ins, delta).post == b.post
  {
  }

  lemma EmptyJoin(b: Block, delta: int)
    requires delta == Total([])
    ensures JoinBlock(b, [], delta) == b
  {
    assert b.added + Cleared([]) == b.added;
  }

  lemma BlanksInBounds(s: Sheet, chunks: seq<Chunk>, anchors: Anchors)
    requires Refines(s, chunks, anchors)
    ensures InBounds(s)
  {
    hide Good, Flat, ChunkRows;
    forall q | q in s.blanks
      ensures s.blanks[q] < |s.rows|
    {
      assert q in anchors && IsBlockOf(chunks, anchors[q], q);
      FlatAround(chunks, anchors[q]);
    }
  }

  /** Exactly when the rows land in their own block. */
  lemma LandsOwnExactly(s: Sheet, chunks: seq<Chunk>, anchors: Anchors, p: string)
    requires Refines(s, chunks, anchors) && p in anchors
    ensures anchors[p] < |chunks| && chunks[anchors[p]].Project? && s.blanks[p] < |s.rows|
    ensures StaysOwn(chunks, anchors[p])
            <==> InsertIndex(s.rows, s.blanks[p], s.blanks[p]) >= |Flat(chunks[..anchors[p]])|
  {
    hide InsertIndex, Flat, GoodBlock, BlockRows, IsManagement;
    assert IsBlockOf(chunks, anchors[p], p);
    var a, b := anchors[p], chunks[anchors[p]].block;
    BlanksInBounds(s, chunks, anchors);
    FlatAround(chunks, a);
    assert Good(chunks[a]);
    var A, C := Flat(chunks[..a]), Flat(chunks[a + 1..]);
    if StaysOwn(chunks, a) {
      if b.post == [] {
        OwnHasNoneBefore(chunks, a);
      }
      InsertsOwn(A, b, C);
    } else {
      var i :| 0 <= i < a && chunks[i].Project? && chunks[i].block.post != [];
      StrayScan(s.rows, chunks, a, i);
    }
  }

  /** With no management row of its own, a block's rows go to an earlier block that has one. */
  lemma StrayScan(rows: seq<Row>, chunks: seq<Chunk>, a: nat, i: nat)
    requires rows == Flat(chunks) && i < a < |chunks| && chunks[a].Project? && chunks[i].Project?
    requires Good(chunks[a]) && Good(chunks[i])
    requires chunks[a].block.post == [] && chunks[i].block.post != []
    ensures 0 <= BlankAt(chunks, a) <= |rows|
    ensures InsertIndex(rows, BlankAt(chunks, a), BlankAt(chunks, a)) < |Flat(chunks[..a])|
  {
    hide Flat, InsertIndex, GoodBlock, BlockRows, IsManagement;
    var A, C, b := Flat(chunks[..a]), Flat(chunks[a + 1..]), chunks[a].block;
    FlatAround(chunks, a);
    FlatAround(chunks[..a], i);
    assert chunks[..a][..i] == chunks[..i];
    var blank := |A| + |BlockRows(b)| - 1;
    var h := |Flat(chunks[..i])| + 1 + |chunks[i].block.pre| + |chunks[i].block.added|;
    ManagementRow(Flat(chunks[..i]), chunks[i].block, Flat(chunks[..a][i + 1..]));
    assert A[h] == rows[h];
    BlockHasNone(A, b, C);
    ScanDown(rows, blank, blank, |A|);
    ScanStops(rows, blank, |A|, h);
  }

  lemma ManagementRow(A: seq<Row>, b: Block, C: seq<Row>)
    requires b.post != [] && GoodBlock(b)
    ensures IsManagement(b.post[0])
    ensures |A| + 1 + |b.pre| + |b.added| < |A| + |BlockRows(b)|
    ensures (A + BlockRows(b) + C)[|A| + 1 + |b.pre| + |b.added|] == b.post[0]
  {
  }

  lemma BlockHasNone(A: seq<Row>, b: Block, C: seq<Row>)
    requires GoodBlock(b) && b.post == []
    ensures |BlockRows(b)| >= 2
    ensures forall j :: |A| <= j < |A| + |BlockRows(b)| - 1 ==> !IsManagement((A + BlockRows(b) + C)[j])
  {
  }

  lemma {:induction false} AddsOnlyAbove(rows: seq<Row>, i: nat, pid: string, delta: int)
    requires i <= |rows|
    ensures AddToHead(rows, i, pid, delta) == AddToHead(rows[..i], i, pid, delta) + rows[i..]
  {
    AddsInPrefix(rows, i, i, pid, delta);
  }

  lemma {:induction false} AddsInPrefix(rows: seq<Row>, n: nat, i: nat, pid: string, delta: int)
    requires i <= n <= |rows|
    ensures AddToHead(rows, i, pid, delta) == AddToHead(rows[..n], i, pid, delta) + rows[n..]
  {
    assert rows == rows[..n] + rows[n..];
    if i > 0 && !(IsQuota(rows[i - 1]) && rows[i - 1].pid == pid) {
      AddsInPrefix(rows, n, i - 1, pid, delta);
    }
  }

  /** A list that got `ins` at `k`, and whose rows from there on are the old ones. */
  ghost predicate LandedAt(rows: seq<Row>, rows': seq<Row>, k: nat, ins: seq<Row>) {
    && k <= |rows| && |rows'| == |rows| + |ins|
    && rows'[k..k + |ins|] == Cleared(ins) && rows'[k + |ins|..] == rows[k..]
  }

  /**
   A join that does not stay: the rows land above their own block, in front of a management
   row of an earlier one. From there on nothing else changes, so the project's own total
   stays what it was; if an earlier block of the project stands above, that one is raised.
   */
  lemma StrayJoinLosesTotal(s: Sheet, chunks: seq<Chunk>, anchors: Anchors, p: string, ins: seq<Row>, delta: int)
    requires Refines(s, chunks, anchors) && p in anchors && IsBlockOf(chunks, anchors[p], p)
             && !StaysOwn(chunks, anchors[p])
    requires ins != []
    ensures InBounds(s)
    ensures var k, h := InsertIndex(s.rows, s.blanks[p], s.blanks[p]), |Flat(chunks[..anchors[p]])|;
            && k < h < |s.rows| && IsManagement(s.rows[k]) && s.rows[h] == chunks[anchors[p]].block.head
            && LandedAt(s.rows, JoinOne(s, p, ins, delta).rows, k, ins)
            && JoinOne(s, p, ins, delta).rows[..k]
               == if delta == 0 then s.rows[..k] else AddToHead(s.rows[..k], k, p, delta)
  {
    hide *;
    WhereBlockStands(s, chunks, anchors, p);
    LandsOwnExactly(s, chunks, anchors, p);
    BlockHead(s, chunks, anchors[p]);
    SpliceLands(s, p, ins, delta);
  }

  lemma WhereBlockStands(s: Sheet, chunks: seq<Chunk>, anchors: Anchors, p: string)
    requires Refines(s, chunks, anchors) && p in anchors
    ensures InBounds(s) && s.rows == Flat(chunks) && p in s.blanks && anchors[p] < |chunks|
            && chunks[anchors[p]].Project?
    ensures |Flat(chunks[..anchors[p]])| <= s.blanks[p] < |s.rows|
  {
    hide Flat, Good;
    BlanksInBounds(s, chunks, anchors);
    assert IsBlockOf(chunks, anchors[p], p);
    FlatAround(chunks, anchors[p]);
  }

  /** Wherever the rows land, what is behind them stays, and above them at most a total is raised. */
  lemma SpliceLands(s: Sheet, p: string, ins: seq<Row>, delta: int)
    requires InBounds(s) && p in s.blanks && ins != []
    ensures 0 <= s.blanks[p] < |s.rows|
    ensures var k := InsertIndex(s.rows, s.blanks[p], s.blanks[p]);
            && LandedAt(s.rows, JoinOne(s, p, ins, delta).rows, k, ins)
            && JoinOne(s, p, ins, delta).rows[..k]
               == if delta == 0 then s.rows[..k] else AddToHead(s.rows[..k], k, p, delta)
  {
    hide InsertIndex, AddToHead, JoinOne;
    var k := InsertIndex(s.rows, s.blanks[p], s.blanks[p]);
    var spliced := s.rows[..k] + Cleared(ins) + s.rows[k..];
    JoinOneAt(s, p, ins, delta);
    AddsOnlyAbove(spliced, k, p, delta);
    assert spliced[..k] == s.rows[..k] && spliced[k..] == Cleared(ins) + s.rows[k..];
  }

  lemma BlockHead(s: Sheet, chunks: seq<Chunk>, a: nat)
    requires s.rows == Flat(chunks) && a < |chunks| && chunks[a].Project?
    ensures var h := |Flat(chunks[..a])|; h < |s.rows| && s.rows[h] == chunks[a].block.head
  {
    FlatAround(chunks, a);
    hide Flat;
  }

  /** A join with an amount to book raises its own project's total exactly when it stays in the block. */
  lemma OwnTotalRaisedExactly(s: Sheet, chunks: seq<Chunk>, anchors: Anchors, p: string, ins: seq<Row>, delta: int)
    requires Refines(s, chunks, anchors) && p in anchors && IsBlockOf(chunks, anchors[p], p)
    requires ins != [] && delta != 0
    ensures InBounds(s)
    ensures var head, rows := chunks[anchors[p]].block.head, JoinOne(s, p, ins, delta).rows;
            var k, h := InsertIndex(s.rows, s.blanks[p], s.blanks[p]), |Flat(chunks[..anchors[p]])|;
            var h' := if k < h then h + |ins| else h;
            && h' < |rows| && (rows[h'] == head || rows[h'] == Raised(head, delta))
            && (rows[h'] == Raised(head, delta) <==> StaysOwn(chunks, anchors[p]))
  {
    hide *;
    WhereBlockStands(s, chunks, anchors, p);
    LandsOwnExactly(s, chunks, anchors, p);
    RaisedDiffers(chunks[anchors[p]].block.head, delta);
    if StaysOwn(chunks, anchors[p]) {
      OwnHeadRaised(s, chunks, anchors, p, ins, delta);
    } else {
      StrayJoinLosesTotal(s, chunks, anchors, p, ins, delta);
      var k, h := InsertIndex(s.rows, s.blanks[p], s.blanks[p]), |Flat(chunks[..anchors[p]])|;
      RowBehind(s.rows, JoinOne(s, p, ins, delta).rows, k, ins, h);
    }
  }

  lemma RaisedDiffers(head: Row, delta: int)
    requires delta != 0
    ensures Raised(head, delta) != head
  {
  }

  lemma RowBehind(rows: seq<Row>, rows': seq<Row>, k: nat, ins: seq<Row>, h: nat)
    requires LandedAt(rows, rows', k, ins) && k <= h < |rows|
    ensures h + |ins| < |rows'| && rows'[h + |ins|] == rows[h]
  {
    assert rows'[k + |ins|..][h - k] == rows[k..][h - k];
  }

  lemma OwnHeadRaised(s: Sheet, chunks: seq<Chunk>, anchors: Anchors, p: string, ins: seq<Row>, delta: int)
    requires Refines(s, chunks, anchors) && p in anchors && IsBlockOf(chunks, anchors[p], p)
             && StaysOwn(chunks, anchors[p])
    requires ins != []
    ensures InBounds(s)
    ensures var h, rows := |Flat(chunks[..anchors[p]])|, JoinOne(s, p, ins, delta).rows;
            h < |rows| && rows[h] == Raised(chunks[anchors[p]].block.head, delta)
  {
    hide JoinOne, Refines, StaysOwn, Flat, Shifted;
    var a := anchors[p];
    JoinOneRows(s, chunks, anchors, p, ins, delta);
    var chunks' := chunks[a := Project(JoinBlock(chunks[a].block, ins, delta))];
    assert chunks'[..a] == chunks[..a];
    BlockHead(JoinOne(s, p, ins, delta), chunks', a);
  }

  lemma {:induction false} ScanDown(rows: seq<Row>, blank: nat, i: nat, n: nat)
    requires n <= i <= blank <= |rows| && forall j :: n <= j < i ==> !IsManagement(rows[j])
    ensures InsertIndex(rows, blank, i) == InsertIndex(rows, blank, n)
  {
    if i > n {
      ScanDown(rows, blank, i - 1, n);
    }
  }

  // ------------------------------------------------------- whole continuations

  /** The blocks after the first `n` projects of a continuation have been joined, last first. */
  ghost function JoinAllBlocks(chunks: seq<Chunk>, anchors: Anchors, pids: seq<string>, rows: seq<Row>,
                               n: nat): (r: seq<Chunk>)
    requires n <= |pids| && AnchorsHold(chunks, anchors) && forall i :: 0 <= i < |pids| ==> pids[i] in anchors
    ensures |r| == |chunks| && AnchorsHold(r, anchors)
    ensures forall i :: 0 <= i < |chunks| ==> SameFrame(chunks[i], r[i])
    decreases n
  {
    if n == 0 then chunks
    else
      var p := pids[n - 1];
      var a := anchors[p];
      assert IsBlockOf(chunks, a, p);
      var b := JoinBlock(chunks[a].block, RowsOf(rows, p), Total(RowsOf(rows, p)));
      AnchorsKept(chunks, anchors, a, b);
      JoinAllBlocks(chunks[a := Project(b)], anchors, pids, rows, n - 1)
  }

  /** The two chunks are the same main rows, whatever has been added to them. */
  ghost predicate SameFrame(c: Chunk, d: Chunk) {
    match c
    case Loose(r) => d == c
    case Project(b) => d.Project? && d.block.(added := [], head := b.head) == b.(added := [])
                       && d.block.head.(value := None) == b.head.(value := None)
  }

  lemma FramesKeepOwn(chunks: seq<Chunk>, chunks': seq<Chunk>, a: nat)
    requires |chunks'| == |chunks| && forall i :: 0 <= i < |chunks| ==> SameFrame(chunks[i], chunks'[i])
    requires a < |chunks| && chunks[a].Project? && StaysOwn(chunks, a)
    ensures chunks'[a].Project? && StaysOwn(chunks', a)
  {
    assert SameFrame(chunks[a], chunks'[a]);
    if chunks[a].block.post == [] {
      forall i | 0 <= i < a && chunks'[i].Project?
        ensures chunks'[i].block.post == []
      {
        assert SameFrame(chunks[i], chunks'[i]);
      }
    }
  }

  lemma {:induction false} RowsOfNoManagement(rows: seq<Row>, p: string)
    requires NoManagement(rows)
    ensures NoManagement(RowsOf(rows, p))
  {
    if rows == [] {
    } else {
      RowsOfNoManagement(rows[..|rows| - 1], p);
    }
  }

  /** The projects of a continuation all have a block that the scan does not leave. */
  ghost predicate AllOwn(chunks: seq<Chunk>, anchors: Anchors, pids: seq<string>) {
    forall i :: 0 <= i < |pids| ==>
          pids[i] in anchors && IsBlockOf(chunks, anchors[pids[i]], pids[i]) && StaysOwn(chunks, anchors[pids[i]])
  }

  ghost predicate GoodContinuation(pids: seq<string>, rows: seq<Row>, deltas: map<string, int>) {
    && AllInner(rows) && NoManagement(rows)
    && forall i :: 0 <= i < |pids| ==> pids[i] in deltas && deltas[pids[i]] == Total(RowsOf(rows, pids[i]))
  }

  lemma {:induction false} JoinAllRefines(s: Sheet, chunks: seq<Chunk>, anchors: Anchors, pids: seq<string>,
                                          rows: seq<Row>,
                                          deltas: map<string, int>, n: nat)
    requires Refines(s, chunks, anchors) && AllOwn(chunks, anchors, pids) && GoodContinuation(pids, rows, deltas)
             && n <= |pids|
    ensures InBounds(s)
    ensures Refines(JoinAll(s, pids, rows, deltas, n), JoinAllBlocks(chunks, anchors, pids, rows, n), anchors)
    decreases n
  {
    hide Refines, StaysOwn, JoinOne, JoinBlock, Total, RowsOf, AllInner, NoManagement, SameFrame;
    BlanksInBounds(s, chunks, anchors);
    if n == 0 {
    } else {
      var p := pids[n - 1];
      var a := anchors[p];
      var ins := RowsOf(rows, p);
      assert IsBlockOf(chunks, a, p);
      RowsOfInner(rows, p);
      RowsOfNoManagement(rows, p);
      JoinOneRefines(s, chunks, anchors, p, ins, Total(ins));
      JoinFrame(chunks[a].block, ins, Total(ins));
      var chunks' := chunks[a := Project(JoinBlock(chunks[a].block, ins, Total(ins)))];
      forall i | 0 <= i < |pids|
        ensures IsBlockOf(chunks', anchors[pids[i]], pids[i]) && StaysOwn(chunks', anchors[pids[i]])
      {
        FramesKeepOwn(chunks, chunks', anchors[pids[i]]);
      }
      JoinAllRefines(JoinOne(s, p, ins, Total(ins)), chunks', anchors, pids, rows, deltas, n - 1);
    }
  }

  lemma JoinFrame(b: Block, ins: seq<Row>, delta: int)
    ensures SameFrame(Project(b), Project(JoinBlock(b, ins, delta)))
    ensures JoinBlock(b, ins, delta).head.pid == b.head.pid
    ensures forall c: Chunk :: SameFrame(c, c)
  {
  }

  // ------------------------------------------------------------- emission

  function Projects(blocks: seq<Block>): (r: seq<Chunk>)
    ensures |r| == |blocks| && forall i :: 0 <= i < |blocks| ==> r[i] == Project(blocks[i])
  {
    seq(|blocks|, i requires 0 <= i < |blocks| => Project(blocks[i]))
  }

  function AnchorsAfter(anchors: Anchors, base: nat, blocks: seq<Block>): Anchors
    decreases |blocks|
  {
    if blocks == [] then anchors else AnchorsAfter(anchors, base + 1, blocks[1..])[blocks[0].head.pid := base]
  }

  function BlanksAfter(blanks: map<string, nat>, base: nat, blocks: seq<Block>): map<string, nat>
    decreases |blocks|
  {
    if blocks == [] then blanks
    else
      var end := base + |BlockRows(blocks[0])|;
      BlanksAfter(blanks, end, blocks[1..])[blocks[0].head.pid := end - 1]
  }

  lemma {:induction false} RecordSkips(rows: seq<Row>, base: nat, blanks: map<string, nat>, i: nat, j: nat)
    requires i <= j <= |rows| && forall k :: i <= k < j ==> !IsBlank(rows[k])
    ensures Record(rows, base, blanks, i) == Record(rows, base, blanks, j)
    decreases j - i
  {
    if i < j {
      RecordSkips(rows, base, blanks, i + 1, j);
    }
  }

  lemma {:induction false} HeadBeforeOver(rows: seq<Row>, h: nat, i: nat)
    requires h < i <= |rows| && IsQuota(rows[h]) && rows[h].pid != "" && forall k :: h < k < i ==> !IsQuota(rows[k])
    ensures HeadBefore(rows, i) == Some(rows[h].pid)
    decreases i
  {
    if i - 1 > h {
      HeadBeforeOver(rows, h, i - 1);
    }
  }

  /** A block's rows, wherever they stand: its head, inner rows, its blank. */
  lemma BlockShape(F: seq<Row>, b: Block, R: seq<Row>)
    requires GoodBlock(b)
    ensures var rows, last := F + BlockRows(b) + R, |F| + |BlockRows(b)| - 1;
            && |F| < last < |rows| && rows[|F|] == b.head && rows[last] == b.blank
            && forall k :: |F| < k < last ==> IsInner(rows[k])
  {
    var rows, last := F + BlockRows(b) + R, |F| + |BlockRows(b)| - 1;
    forall k | |F| < k < last
      ensures IsInner(rows[k])
    {
      var j := k - |F| - 1;
      if j < |b.pre| {
        assert rows[k] == b.pre[j];
      } else if j < |b.pre| + |b.added| {
        assert rows[k] == b.added[j - |b.pre|];
      } else {
        assert rows[k] == b.post[j - |b.pre| - |b.added|];
      }
    }
  }

  lemma RecordBlock(F: seq<Row>, b: Block, R: seq<Row>, base: nat, blanks: map<string, nat>)
    requires GoodBlock(b)
    ensures var rows, last := F + BlockRows(b) + R, |F| + |BlockRows(b)| - 1;
            && 0 <= last < |rows|
            && Record(rows, base, blanks, |F|) == Record(rows, base, blanks, last + 1)[b.head.pid := base + last]
  {
    hide BlockRows, Total;
    BlockShape(F, b, R);
    var rows, last := F + BlockRows(b) + R, |F| + |BlockRows(b)| - 1;
    RecordSkips(rows, base, blanks, |F|, last);
    HeadBeforeOver(rows, |F|, last);
  }

  lemma {:induction false} RecordBlocks(F: seq<Row>, blocks: seq<Block>, base: nat, blanks: map<string, nat>)
    requires forall i :: 0 <= i < |blocks| ==> GoodBlock(blocks[i])
    ensures Record(F + Flat(Projects(blocks)), base, blanks, |F|) == BlanksAfter(blanks, base + |F|, blocks)
    decreases |blocks|
  {
    hide BlockRows, GoodBlock, Record;
    if blocks == [] {
      assert F + Flat(Projects(blocks)) == F;
      RecordEnd(F, base, blanks);
    } else {
      var b, rest := blocks[0], blocks[1..];
      FrontFlat(blocks);
      var G := F + BlockRows(b);
      assert F + Flat(Projects(blocks)) == G + Flat(Projects(rest));
      RecordBlock(F, b, Flat(Projects(rest)), base, blanks);
      RecordBlocks(G, rest, base, blanks);
    }
  }

  lemma RecordEnd(rows: seq<Row>, base: nat, blanks: map<string, nat>)
    ensures Record(rows, base, blanks, |rows|) == blanks
  {
  }

  lemma FrontFlat(blocks: seq<Block>)
    requires blocks != []
    ensures Flat(Projects(blocks)) == BlockRows(blocks[0]) + Flat(Projects(blocks[1..]))
  {
    hide BlockRows;
    var c := Project(blocks[0]);
    assert Projects(blocks) == [c] + Projects(blocks[1..]);
    FlatConcat([c], Projects(blocks[1..]));
    assert [c][..0] == [] && Flat([]) == [];
    assert Flat([c]) == BlockRows(blocks[0]);
  }

  function PidsOf(blocks: seq<Block>): set<string> {
    set b | b in blocks :: b.head.pid
  }

  /** Chunk `a` is a block of `q` and its blank row stands at `b`. */
  ghost predicate Points(chunks: seq<Chunk>, a: nat, b: int, q: string) {
    IsBlockOf(chunks, a, q) && b == BlankAt(chunks, a)
  }

  ghost predicate Follows(chunks: seq<Chunk>, anchors: Anchors, blanks: map<string, nat>) {
    blanks.Keys == anchors.Keys && forall q :: q in anchors ==> Points(chunks, anchors[q], blanks[q], q)
  }

  lemma PointsLonger(chunks: seq<Chunk>, more: seq<Chunk>, a: nat, b: int, q: string)
    requires Points(chunks, a, b, q)
    ensures Points(chunks + more, a, b, q)
  {
    hide Flat;
    assert (chunks + more)[..a + 1] == chunks[..a + 1];
  }

  lemma PointsAtLast(chunks: seq<Chunk>, b: Block)
    ensures |BlockRows(b)| >= 2
    ensures Points(chunks + [Project(b)], |chunks|, |Flat(chunks)| + |BlockRows(b)| - 1, b.head.pid)
    ensures Flat(chunks + [Project(b)]) == Flat(chunks) + BlockRows(b)
  {
    GrownLength(b, [], 0);
    hide BlockRows, Flat;
    var next := chunks + [Project(b)];
    assert next[..|chunks|] == chunks && next[..|next|] == next;
    FlatNext(next, |chunks|);
  }

  /** Anchors and blanks move together while blocks are appended. */
  lemma {:induction false} BlanksFollow(chunks: seq<Chunk>, anchors: Anchors, blanks: map<string, nat>,
                                        blocks: seq<Block>)
    requires Follows(chunks, anchors, blanks)
    ensures Follows(chunks + Projects(blocks), AnchorsAfter(anchors, |chunks|, blocks),
            BlanksAfter(blanks, |Flat(chunks)|, blocks))
    ensures AnchorsAfter(anchors, |chunks|, blocks).Keys == anchors.Keys + PidsOf(blocks)
    decreases |blocks|
  {
    hide BlockRows, Flat, Points, PidsOf, Follows;
    PidsFront(blocks);
    if blocks == [] {
      assert chunks + Projects(blocks) == chunks;
    } else {
      var b, rest := blocks[0], blocks[1..];
      var next := chunks + [Project(b)];
      NextFollows(chunks, anchors, blanks, b);
      BlanksFollow(next, anchors, blanks, rest);
      assert next + Projects(rest) == chunks + Projects(blocks);
      PointsAtLast(chunks, b);
      var end: nat := |Flat(chunks)| + |BlockRows(b)| - 1;
      PointsLonger(next, Projects(rest), |chunks|, end, b.head.pid);
      FollowsPut(chunks + Projects(blocks), AnchorsAfter(anchors, |next|, rest),
                 BlanksAfter(blanks, |Flat(next)|, rest), |chunks|, end, b.head.pid);
    }
  }

  lemma FollowsPut(chunks: seq<Chunk>, anchors: Anchors, blanks: map<string, nat>, a: nat, b: nat, q: string)
    requires Follows(chunks, anchors, blanks) && Points(chunks, a, b, q)
    ensures Follows(chunks, anchors[q := a], blanks[q := b])
  {
    hide Points;
  }

  lemma PidsFront(blocks: seq<Block>)
    ensures PidsOf(blocks) == if blocks == [] then {} else {blocks[0].head.pid} + PidsOf(blocks[1..])
  {
    if blocks != [] {
      assert blocks == [blocks[0]] + blocks[1..];
    }
  }

  lemma NextFollows(chunks: seq<Chunk>, anchors: Anchors, blanks: map<string, nat>, b: Block)
    requires Follows(chunks, anchors, blanks)
    ensures Follows(chunks + [Project(b)], anchors, blanks)
    ensures |Flat(chunks + [Project(b)])| == |Flat(chunks)| + |BlockRows(b)|
  {
    hide BlockRows, Flat, Points;
    PointsAtLast(chunks, b);
    forall q | q in anchors
      ensures Points(chunks + [Project(b)], anchors[q], blanks[q], q)
    {
      PointsLonger(chunks, [Project(b)], anchors[q], blanks[q], q);
    }
  }

  /** A freshly emitted block: nothing added yet. */
  ghost predicate Fresh(b: Block) {
    GoodBlock(b) && b.added == []
  }

  lemma HeadIsQuota(b: Block)
    requires GoodBlock(b)
    ensures IsQuota(b.head) && b.head.pid != "" && !IsQuota(b.blank)
  {
  }

  lemma HeadsOfBlock(b: Block)
    requires GoodBlock(b)
    ensures Heads(BlockRows(b)) == {b.head.pid}
  {
    BlockShape([], b, []);
    HeadIsQuota(b);
    hide BlockRows, GoodBlock;
    var rows := [] + BlockRows(b) + [];
    assert rows == BlockRows(b);
    assert rows[0] in rows;
    forall r | r in rows && IsQuota(r)
      ensures r == b.head
    {
      var k :| 0 <= k < |rows| && rows[k] == r;
    }
  }

  lemma {:induction false} HeadsOfBlocks(blocks: seq<Block>)
    requires forall i :: 0 <= i < |blocks| ==> GoodBlock(blocks[i])
    ensures Heads(Flat(Projects(blocks))) == PidsOf(blocks)
    decreases |blocks|
  {
    hide BlockRows, GoodBlock;
    if blocks == [] {
      assert Flat(Projects(blocks)) == [];
    } else {
      var b, rest := blocks[0], blocks[1..];
      FrontFlat(blocks);
      HeadsOfBlock(b);
      HeadsOfBlocks(rest);
      PidsFront(blocks);
    }
  }

  /** Emitting blocks appends them, and moves the anchors of their projects. */
  lemma EmitRefines(s: Sheet, chunks: seq<Chunk>, anchors: Anchors, blocks: seq<Block>)
    requires Refines(s, chunks, anchors) && forall i :: 0 <= i < |blocks| ==> GoodBlock(blocks[i])
    ensures Refines(Emit(s, Flat(Projects(blocks))), chunks + Projects(blocks), AnchorsAfter(anchors, |chunks|, blocks))
  {
    hide GoodBlock, Record, Heads, BlockRows, Flat, BlankAt, IsBlockOf;
    var rows := Flat(Projects(blocks));
    RecordFromStart(rows, |s.rows|, s.blanks, blocks);
    HeadsOfBlocks(blocks);
    FlatConcat(chunks, Projects(blocks));
    assert Follows(chunks, anchors, s.blanks);
    BlanksFollow(chunks, anchors, s.blanks, blocks);
    var chunks' := chunks + Projects(blocks);
    forall i | 0 <= i < |chunks'|
      ensures Good(chunks'[i]) && (chunks'[i].Project? ==> chunks'[i].block.head.pid in anchors.Keys + PidsOf(blocks))
    {
      if i >= |chunks| {
        assert chunks'[i].block == blocks[i - |chunks|];
      }
    }
  }

  lemma RecordFromStart(rows: seq<Row>, base: nat, blanks: map<string, nat>, blocks: seq<Block>)
    requires rows == Flat(Projects(blocks)) && forall i :: 0 <= i < |blocks| ==> GoodBlock(blocks[i])
    ensures Record(rows, base, blanks, 0) == BlanksAfter(blanks, base, blocks)
  {
    hide GoodBlock, Record, BlockRows, Flat;
    RecordBlocks([], blocks, base, blanks);
    assert [] + rows == rows;
  }

  lemma LooseRefines(s: Sheet, chunks: seq<Chunk>, anchors: Anchors, headings: seq<Row>)
    requires Refines(s, chunks, anchors) && AllInner(headings) && NoManagement(headings)
    ensures Refines(s.(rows := s.rows + headings), chunks + Looses(headings), anchors)
  {
    hide GoodBlock, BlockRows, Flat, BlankAt, IsBlockOf;
    FlatConcat(chunks, Looses(headings));
    FlatLooses(headings);
    forall q | q in anchors
      ensures Points(chunks + Looses(headings), anchors[q], s.blanks[q], q)
    {
      assert Points(chunks, anchors[q], s.blanks[q], q);
      PointsLonger(chunks, Looses(headings), anchors[q], s.blanks[q], q);
    }
  }

  function Looses(rows: seq<Row>): (r: seq<Chunk>)
    ensures |r| == |rows| && forall i :: 0 <= i < |rows| ==> r[i] == Loose(rows[i])
  {
    seq(|rows|, i requires 0 <= i < |rows| => Loose(rows[i]))
  }

  lemma {:induction false} FlatLooses(rows: seq<Row>)
    ensures Flat(Looses(rows)) == rows
  {
    if rows == [] {
    } else {
      var n := |rows| - 1;
      FlatLooses(rows[..n]);
      assert Looses(rows)[..n] == Looses(rows[..n]);
      assert rows == rows[..n] + [rows[n]];
    }
  }
}
