/**
 Tables that hold several quota tables. Such a grid is cut at its quota rows, every piece
 is written back as markup with runs of equal neighbours folded into one cell, and the
 extraction calls itself on the pieces. That this ends, and loses no row, rests on the
 write-and-parse round trip.
 */
module CompositeTables {
  import opened Catalogue
  import opened TableGrid

  // ----------------------------------------------------------- round trip

  /** One more text: it widens the last cell if equal, else starts a new one. */
  function Fold(runs: seq<Cell>, text: string): (cells: seq<Cell>)
    ensures cells != [] && cells[|cells| - 1].text == text
  {
    if runs != [] && runs[|runs| - 1].text == text then
      runs[|runs| - 1 := Cell(text, runs[|runs| - 1].colspan + 1, 1)]
    else runs + [Cell(text, 1, 1)]
  }

  /** One row as cells: each maximal run of equal texts becomes one cell. */
  function Runs(row: seq<string>): seq<Cell> {
    if row == [] then [] else Fold(Runs(row[..|row| - 1]), row[|row| - 1])
  }

  function Markup(grid: Grid): (raw: Raw)
    ensures |raw| == |grid| && forall r :: 0 <= r < |grid| ==> raw[r] == Runs(grid[r])
  {
    seq(|grid|, r requires 0 <= r < |grid| => Runs(grid[r]))
  }

  /** `_grid_to_html`: folds each row from left to right. */
  method WriteMarkup(grid: Grid) returns (raw: Raw)
    ensures raw == Markup(grid)
  {
    raw := [];
    var r := 0;
    while r < |grid|
      invariant 0 <= r <= |grid|
      invariant raw == Markup(grid)[..r]
    {
      var row := grid[r];
      var runs: seq<Cell> := [];
      var c := 0;
      while c < |row|
        invariant 0 <= c <= |row|
        invariant runs == Runs(row[..c])
      {
        assert row[..c + 1][..c] == row[..c];
        if runs != [] && runs[|runs| - 1].text == row[c] {
          runs := runs[|runs| - 1 := Cell(row[c], runs[|runs| - 1].colspan + 1, 1)];
        } else {
          runs := runs + [Cell(row[c], 1, 1)];
        }
        c := c + 1;
      }
      assert row[..c] == row;
      raw := raw + [runs];
      r := r + 1;
    }
  }

  /** Cell k of a row of one-row cells stretches from the widths before it to the widths up to it. */
  ghost predicate Spread(cells: seq<Cell>, row: seq<string>) {
    && Width(cells) == |row|
    && (forall k :: 0 <= k < |cells| ==> cells[k].rowspan == 1 && cells[k].colspan > 0)
    && (forall k, j :: 0 <= k < |cells| && Width(cells[..k]) <= j < Width(cells[..k + 1]) && 0 <= j < |row| ==>
          row[j] == cells[k].text)
  }

  lemma {:induction false} WidthRises(cells: seq<Cell>, k: nat, k': nat)
    requires k <= k' <= |cells|
    ensures Width(cells[..k]) <= Width(cells[..k']) <= Width(cells)
    decreases |cells| - k
  {
    assert cells[..|cells|] == cells;
    if k < |cells| {
      assert cells[..k + 1][..k] == cells[..k];
      WidthRises(cells, k + 1, if k' > k then k' else k + 1);
    }
  }

  lemma SpreadAppend(cells: seq<Cell>, row: seq<string>, text: string)
    requires Spread(cells, row)
    ensures Spread(cells + [Cell(text, 1, 1)], row + [text])
  {
    var cells', row' := cells + [Cell(text, 1, 1)], row + [text];
    assert cells'[..|cells|] == cells && cells'[..|cells| + 1] == cells';
    forall k, j | 0 <= k < |cells'| && Width(cells'[..k]) <= j < Width(cells'[..k + 1]) && 0 <= j < |row'|
      ensures row'[j] == cells'[k].text
    {
      if k < |cells| {
        assert cells'[..k] == cells[..k] && cells'[..k + 1] == cells[..k + 1];
        WidthRises(cells, k + 1, |cells|);
      }
    }
  }

  lemma LastWidth(cells: seq<Cell>)
    requires cells != []
    ensures var n := |cells| - 1; Width(cells) == Width(cells[..n]) + cells[n].colspan
  {
  }

  lemma SpreadExtend(cells: seq<Cell>, row: seq<string>)
    requires Spread(cells, row) && cells != []
    ensures var last := cells[|cells| - 1];
            Spread(cells[|cells| - 1 := Cell(last.text, last.colspan + 1, 1)], row + [last.text])
  {
    hide Width;
    var n, last := |cells| - 1, cells[|cells| - 1];
    var cells', row' := cells[n := Cell(last.text, last.colspan + 1, 1)], row + [last.text];
    assert cells'[..n] == cells[..n] && cells[..n + 1] == cells && cells'[..n + 1] == cells';
    LastWidth(cells);
    LastWidth(cells');
    forall k, j | 0 <= k < |cells'| && Width(cells'[..k]) <= j < Width(cells'[..k + 1]) && 0 <= j < |row'|
      ensures row'[j] == cells'[k].text
    {
      if k < n {
        assert cells'[..k] == cells[..k] && cells'[..k + 1] == cells[..k + 1];
        WidthRises(cells, k + 1, n);
        WidthRises(cells, n, n + 1);
      }
    }
  }

  lemma {:induction false} RunsSpread(row: seq<string>)
    ensures Spread(Runs(row), row)
  {
    if row == [] {
    } else {
      hide Spread, Fold;
      var front, text := row[..|row| - 1], row[|row| - 1];
      RunsSpread(front);
      assert row == front + [text];
      FoldSpreads(Runs(front), front, text);
    }
  }

  lemma FoldSpreads(runs: seq<Cell>, front: seq<string>, text: string)
    requires Spread(runs, front)
    ensures Spread(Fold(runs, text), front + [text])
  {
    hide Spread;
    if runs != [] && runs[|runs| - 1].text == text {
      SpreadExtend(runs, front);
    } else {
      SpreadAppend(runs, front, text);
    }
  }

  /** Neighbouring cells differ: the runs are maximal. */
  lemma {:induction false} RunsAreMaximal(row: seq<string>, k: nat)
    requires k + 1 < |Runs(row)|
    ensures Runs(row)[k].text != Runs(row)[k + 1].text
  {
    var front := row[..|row| - 1];
    if k + 1 < |Runs(front)| {
      RunsAreMaximal(front, k);
    }
  }

  /** A row of one-row cells as boxes. */
  ghost function BoxRow(r: nat, cells: seq<Cell>): (boxes: seq<Box>)
    ensures |boxes| == |cells|
    ensures forall k :: 0 <= k < |cells| ==>
              boxes[k] == Box(r, Width(cells[..k]), cells[k].rowspan, cells[k].colspan, cells[k].text)
  {
    seq(|cells|, k requires 0 <= k < |cells| =>
      Box(r, Width(cells[..k]), cells[k].rowspan, cells[k].colspan, cells[k].text))
  }

  lemma NextWidth(cells: seq<Cell>, k: nat)
    requires k < |cells|
    ensures Width(cells[..k + 1]) == Width(cells[..k]) + cells[k].colspan <= Width(cells)
  {
    assert cells[..k + 1][..k] == cells[..k];
    WidthRises(cells, k + 1, |cells|);
  }

  /** Some cell of the row stretches over column j. */
  lemma {:induction false} SomeCellAt(cells: seq<Cell>, j: nat, n: nat) returns (k: nat)
    requires n <= |cells| && j < Width(cells[..n])
    ensures k < n && Width(cells[..k]) <= j < Width(cells[..k + 1])
  {
    assert n > 0;
    NextWidth(cells, n - 1);
    if Width(cells[..n - 1]) <= j {
      k := n - 1;
    } else {
      k := SomeCellAt(cells, j, n - 1);
    }
  }

  ghost function RunTiling(grid: Grid): (t: Tiling)
    ensures |t| == |grid| && forall r :: 0 <= r < |grid| ==> t[r] == BoxRow(r, Runs(grid[r]))
  {
    seq(|grid|, r requires 0 <= r < |grid| => BoxRow(r, Runs(grid[r])))
  }

  lemma RunBox(grid: Grid, n: nat, m: nat, a: int, b: int)
    requires Rectangular(grid, n, m) && IsTile(RunTiling(grid), a, b)
    ensures var box := RunTiling(grid)[a][b];
            && box.top == a && box.height == 1 && box.width > 0 && box.left + box.width <= m
            && box.left == Width(Runs(grid[a])[..b]) && box.left + box.width == Width(Runs(grid[a])[..b + 1])
            && CellOf(box) == Runs(grid[a])[b]
            && forall j :: box.left <= j < box.left + box.width ==> grid[a][j] == box.text
  {
    RunsSpread(grid[a]);
    NextWidth(Runs(grid[a]), b);
  }

  lemma RunTilingTiles(grid: Grid, n: nat, m: nat)
    requires Rectangular(grid, n, m) && n > 0 && m > 0
    ensures Tiles(RunTiling(grid), n, m)
    ensures forall a, b, i, j :: Owns(RunTiling(grid), a, b, i, j) && 0 <= i < n && 0 <= j < m ==>
                                   RunTiling(grid)[a][b].text == grid[i][j]
  {
    var t := RunTiling(grid);
    hide Runs, Width, Spread;
    forall a, b | IsTile(t, a, b)
      ensures t[a][b].top == a && t[a][b].height == 1 && t[a][b].width > 0 && t[a][b].left + t[a][b].width <= m
      ensures forall j :: t[a][b].left <= j < t[a][b].left + t[a][b].width ==> grid[a][j] == t[a][b].text
    {
      RunBox(grid, n, m, a, b);
    }
    forall a, b, b' | IsTile(t, a, b) && IsTile(t, a, b') && b < b'
      ensures t[a][b].left + t[a][b].width <= t[a][b'].left
    {
      RunBox(grid, n, m, a, b);
      RunBox(grid, n, m, a, b');
      WidthRises(Runs(grid[a]), b + 1, b');
    }
    forall i, j | 0 <= i < n && 0 <= j < m
      ensures IsCovered(t, i, j)
    {
      RunCovers(grid, n, m, i, j);
    }
  }

  lemma RunsWidth(row: seq<string>)
    ensures Width(Runs(row)) == |row|
  {
    RunsSpread(row);
  }

  lemma RunCovers(grid: Grid, n: nat, m: nat, i: nat, j: nat)
    requires Rectangular(grid, n, m) && i < n && j < m
    ensures IsCovered(RunTiling(grid), i, j)
  {
    hide Width, Runs, Spread;
    var cells := Runs(grid[i]);
    RunsWidth(grid[i]);
    assert cells[..|cells|] == cells;
    var k := SomeCellAt(cells, j, |cells|);
    RunBox(grid, n, m, i, k);
    assert Owns(RunTiling(grid), i, k, i, j);
  }

  lemma RunListing(grid: Grid, n: nat, m: nat)
    requires Rectangular(grid, n, m)
    ensures Listing(RunTiling(grid)) == Markup(grid)
  {
    var t := RunTiling(grid);
    forall r | 0 <= r < |grid|
      ensures Listing(t)[r] == Markup(grid)[r]
    {
      forall b | 0 <= b < |t[r]|
        ensures Listing(t)[r][b] == Runs(grid[r])[b]
      {
        RunBox(grid, n, m, r, b);
      }
    }
  }

  /** Writing a rectangular grid as markup and parsing it gives the grid back. */
  lemma RoundTrip(grid: Grid, n: nat, m: nat)
    requires Rectangular(grid, n, m) && n > 0 && m > 0
    ensures Parse(Markup(grid)).grid == grid && Parse(Markup(grid)).columns == m
  {
    var t := RunTiling(grid);
    RunTilingTiles(grid, n, m);
    RunListing(grid, n, m);
    ParseRecoversTiling(t, n, m);
    var p := Parse(Markup(grid));
    forall i, j | 0 <= i < n && 0 <= j < m
      ensures p.grid[i][j] == grid[i][j]
    {
      assert IsCovered(t, i, j);
      var a, b :| Owns(t, a, b, i, j);
    }
    forall i | 0 <= i < n
      ensures p.grid[i] == grid[i]
    {
    }
  }

  // ----------------------------------------------------- composite tables

  const QUOTA_LABEL := "定额编号"

  predicate IsQuotaRow(row: seq<string>) {
    row != [] && row[0] == QUOTA_LABEL
  }

  /** The rows whose first column announces a quota table. */
  function QuotaRows(grid: Grid): (q: seq<nat>)
    ensures forall k :: 0 <= k < |q| ==> q[k] < |grid| && IsQuotaRow(grid[q[k]])
    ensures forall k, k' :: 0 <= k < k' < |q| ==> q[k] < q[k']
  {
    if grid == [] then []
    else
      var front := QuotaRows(grid[..|grid| - 1]);
      if IsQuotaRow(grid[|grid| - 1]) then front + [|grid| - 1] else front
  }

  lemma {:induction false} QuotaRowsComplete(grid: Grid, r: nat)
    requires r < |grid| && IsQuotaRow(grid[r])
    ensures r in QuotaRows(grid)
  {
    if r < |grid| - 1 {
      QuotaRowsComplete(grid[..|grid| - 1], r);
    }
  }

  /** Piece k of a composite grid: from its quota row up to the next one, or to the end. */
  function Piece(grid: Grid, k: nat): Grid
    requires k < |QuotaRows(grid)|
  {
    var q := QuotaRows(grid);
    grid[q[k]..if k + 1 < |q| then q[k + 1] else |grid|]
  }

  lemma PieceIsSingle(grid: Grid, k: nat)
    requires k < |QuotaRows(grid)|
    ensures QuotaRows(Piece(grid, k)) == [0]
  {
    var q, piece := QuotaRows(grid), Piece(grid, k);
    var q' := QuotaRows(piece);
    QuotaRowsComplete(piece, 0);
    forall r | 0 < r < |piece|
      ensures !IsQuotaRow(piece[r])
    {
      NoneInBetween(grid, k, q[k] + r);
    }
    var last := |q'| - 1;
    assert IsQuotaRow(piece[q'[last]]);
    AscendingGrows(q', last);
  }

  lemma {:induction false} AscendingGrows(q: seq<nat>, i: nat)
    requires i < |q| && forall k, k' :: 0 <= k < k' < |q| ==> q[k] < q[k']
    ensures q[i] >= i
  {
    if i > 0 {
      AscendingGrows(q, i - 1);
    }
  }

  /** Between two quota rows in a row there is no other. */
  lemma NoneInBetween(grid: Grid, k: nat, r: nat)
    requires k < |QuotaRows(grid)| && QuotaRows(grid)[k] < r < |grid|
    requires k + 1 < |QuotaRows(grid)| ==> r < QuotaRows(grid)[k + 1]
    ensures !IsQuotaRow(grid[r])
  {
    if IsQuotaRow(grid[r]) {
      QuotaRowsComplete(grid, r);
      assert false;
    }
  }

  ghost function Pieces(grid: Grid, n: nat): Grid
    requires n <= |QuotaRows(grid)|
  {
    if n == 0 then [] else Pieces(grid, n - 1) + Piece(grid, n - 1)
  }

  /** The pieces, put together, are all the rows from the first quota row on. */
  lemma {:induction false} PiecesConcatenate(grid: Grid, n: nat)
    requires 0 < n <= |QuotaRows(grid)|
    ensures var q := QuotaRows(grid);
            Pieces(grid, n) == grid[q[0]..if n < |q| then q[n] else |grid|]
  {
    if n == 1 {
      assert Pieces(grid, 0) == [];
    } else {
      PiecesConcatenate(grid, n - 1);
    }
  }

  // What one extraction yields; the first issue found is the one reported.
  datatype Outcome<R, I> = Outcome(rows: seq<R>, issue: Option<I>)

  function Both<R, I>(x: Outcome<R, I>, y: Outcome<R, I>): Outcome<R, I> {
    Outcome(x.rows + y.rows, if x.issue.Some? then x.issue else y.issue)
  }

  predicate TooSmall(p: Parsed) {
    p.grid == [] || p.columns < 4
  }

  lemma PieceParses(raw: Raw, k: nat)
    requires !TooSmall(Parse(raw)) && k < |QuotaRows(Parse(raw).grid)|
    ensures var p := Parse(raw);
            var piece := Parse(Markup(Piece(p.grid, k)));
            piece.grid == Piece(p.grid, k) && piece.columns == p.columns && QuotaRows(piece.grid) == [0]
  {
    var p := Parse(raw);
    ParseIsFaithful(raw);
    var piece := Piece(p.grid, k);
    PieceIsSingle(p.grid, k);
    assert piece != [] && Rectangular(piece, |piece|, p.columns);
    RoundTrip(piece, |piece|, p.columns);
  }

  /**
   `extract_table` around the extraction of a single table, which is a parameter. The
   recursion ends because every piece, written out and parsed again, has one quota row.
   */
  function Extract<R, I>(raw: Raw, leaf: (Raw, Parsed) -> Outcome<R, I>): Outcome<R, I>
    decreases |QuotaRows(Parse(raw).grid)|, 1, 0
  {
    var p := Parse(raw);
    if TooSmall(p) then Outcome([], None)
    else if |QuotaRows(p.grid)| > 1 then ExtractPieces(raw, leaf, |QuotaRows(p.grid)|)
    else leaf(raw, p)
  }

  function ExtractPieces<R, I>(raw: Raw, leaf: (Raw, Parsed) -> Outcome<R, I>, n: nat): Outcome<R, I>
    requires !TooSmall(Parse(raw)) && 1 < |QuotaRows(Parse(raw).grid)| && n <= |QuotaRows(Parse(raw).grid)|
    decreases |QuotaRows(Parse(raw).grid)|, 0, n
  {
    if n == 0 then Outcome([], None)
    else
      PieceParses(raw, n - 1);
      Both(ExtractPieces(raw, leaf, n - 1), Extract(Markup(Piece(Parse(raw).grid, n - 1)), leaf))
  }

  ghost function LeafOutcomes<R, I>(raw: Raw, leaf: (Raw, Parsed) -> Outcome<R, I>, n: nat): Outcome<R, I>
    requires n <= |QuotaRows(Parse(raw).grid)|
  {
    if n == 0 then Outcome([], None)
    else
      var piece := Markup(Piece(Parse(raw).grid, n - 1));
      Both(LeafOutcomes(raw, leaf, n - 1), leaf(piece, Parse(piece)))
  }

  lemma PieceIsLeaf<R, I>(raw: Raw, leaf: (Raw, Parsed) -> Outcome<R, I>, k: nat)
    requires !TooSmall(Parse(raw)) && k < |QuotaRows(Parse(raw).grid)|
    ensures var piece := Markup(Piece(Parse(raw).grid, k)); Extract(piece, leaf) == leaf(piece, Parse(piece))
  {
    hide Parse, Piece, Markup;
    PieceParses(raw, k);
  }

  lemma {:induction false} PiecesAreLeaves<R, I>(raw: Raw, leaf: (Raw, Parsed) -> Outcome<R, I>, n: nat)
    requires !TooSmall(Parse(raw)) && 1 < |QuotaRows(Parse(raw).grid)| && n <= |QuotaRows(Parse(raw).grid)|
    ensures ExtractPieces(raw, leaf, n) == LeafOutcomes(raw, leaf, n)
  {
    hide Parse, QuotaRows, Piece, Markup;
    if n == 0 {
    } else {
      PiecesAreLeaves(raw, leaf, n - 1);
      PieceIsLeaf(raw, leaf, n - 1);
    }
  }

  /**
   A composite table is extracted at depth one: each piece goes straight to the single-table
   extraction, with a grid that is the piece itself, and together the pieces are the whole
   grid from its first quota row on.
   */
  lemma CompositeIsFlat<R, I>(raw: Raw, leaf: (Raw, Parsed) -> Outcome<R, I>)
    requires !TooSmall(Parse(raw)) && 1 < |QuotaRows(Parse(raw).grid)|
    ensures var grid := Parse(raw).grid;
            var n := |QuotaRows(grid)|;
            && Extract(raw, leaf) == LeafOutcomes(raw, leaf, n)
            && Pieces(grid, n) == grid[QuotaRows(grid)[0]..]
            && forall k :: 0 <= k < n ==>
                 Parse(Markup(Piece(grid, k))).grid == Piece(grid, k) && QuotaRows(Piece(grid, k)) == [0]
  {
    hide Parse, Markup, Piece, Pieces, LeafOutcomes;
    var grid := Parse(raw).grid;
    var n := |QuotaRows(grid)|;
    PiecesAreLeaves(raw, leaf, n);
    PiecesConcatenate(grid, n);
    forall k | 0 <= k < n
      ensures Parse(Markup(Piece(grid, k))).grid == Piece(grid, k) && QuotaRows(Piece(grid, k)) == [0]
    {
      PieceParses(raw, k);
    }
  }

  /** `extract_table`: small tables, single tables, and composite ones cut into pieces. */
  method ExtractTable<R, I>(raw: Raw, leaf: (Raw, Parsed) -> Outcome<R, I>) returns (r: Outcome<R, I>)
    ensures r == Extract(raw, leaf)
    decreases |QuotaRows(Parse(raw).grid)|, 1, 0
  {
    hide Parse, QuotaRows, ExtractPieces;
    var p := ParseTable(raw);
    if p.grid == [] || p.columns < 4 {
      return Outcome([], None);
    }
    var q := QuotaRows(p.grid);
    if |q| <= 1 {
      return leaf(raw, p);
    }
    r := ExtractEach(raw, p, leaf);
  }

  /** The split loop, with its recursive call. */
  method ExtractEach<R, I>(raw: Raw, p: Parsed, leaf: (Raw, Parsed) -> Outcome<R, I>) returns (r: Outcome<R, I>)
    requires p == Parse(raw) && !TooSmall(p) && 1 < |QuotaRows(p.grid)|
    ensures r == ExtractPieces(raw, leaf, |QuotaRows(p.grid)|)
    decreases |QuotaRows(Parse(raw).grid)|, 0, 0
  {
    hide Parse, QuotaRows, Extract, Markup;
    var q := QuotaRows(p.grid);
    r := Outcome([], None);
    var k := 0;
    while k < |q|
      invariant 0 <= k <= |q|
      invariant r == ExtractPieces(raw, leaf, k)
    {
      var end := if k + 1 < |q| then q[k + 1] else |p.grid|;
      assert p.grid[q[k]..end] == Piece(p.grid, k);
      var piece := WriteMarkup(p.grid[q[k]..end]);
      PieceParses(raw, k);
      var sub := ExtractTable(piece, leaf);
      r := Outcome(r.rows + sub.rows, if sub.issue.Some? && r.issue.None? then sub.issue else r.issue);
      k := k + 1;
    }
  }
}
