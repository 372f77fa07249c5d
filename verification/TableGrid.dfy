/**
 Expanding the cells of an HTML table into a grid, as `parse_table` does: spans are
 clamped to the width of the first row, cells slide right past slots that earlier rows
 have filled, and whatever stays empty becomes "".
 */
module TableGrid {
  import opened Catalogue

  datatype Cell = Cell(text: string, colspan: nat, rowspan: nat)

  type Raw = seq<seq<Cell>>
  type Slots = seq<seq<Option<string>>>
  type Grid = seq<seq<string>>

  datatype Parsed = Parsed(grid: Grid, columns: nat, starts: seq<seq<nat>>)

  function Width(cells: seq<Cell>): nat {
    if cells == [] then 0 else Width(cells[..|cells| - 1]) + cells[|cells| - 1].colspan
  }

  ghost predicate Rectangular<T>(g: seq<seq<T>>, rows: nat, columns: nat) {
    |g| == rows && forall i :: 0 <= i < rows ==> |g[i]| == columns
  }

  // --------------------------------------------------- specification

  /** The first free slot at or after `col`. */
  function NextFree(row: seq<Option<string>>, col: nat): (c: nat)
    ensures col <= c
    ensures c == col || c <= |row|
    ensures forall j :: col <= j < c && j < |row| ==> row[j].Some?
    ensures c < |row| ==> row[c].None?
    decreases |row| - col
  {
    if col >= |row| || row[col].None? then col else NextFree(row, col + 1)
  }

  /** The slot at (i, j) once `cell` has been written with its corner at (r, col). */
  function Written(was: Option<string>, r: nat, col: nat, cell: Cell, i: nat, j: nat): Option<string> {
    if i == r && (j == col || col <= j < col + cell.colspan) then Some(cell.text)
    else if r < i < r + cell.rowspan && col <= j < col + cell.colspan && was.None? then Some(cell.text)
    else was
  }

  function Place(g: Slots, r: nat, col: nat, cell: Cell): (g': Slots)
    ensures |g'| == |g| && forall i :: 0 <= i < |g| ==> |g'[i]| == |g[i]|
  {
    seq(|g|, i requires 0 <= i < |g| =>
      seq(|g[i]|, j requires 0 <= j < |g[i]| => Written(g[i][j], r, col, cell, i, j)))
  }

  // Where the expansion of one row stands; `full` once a cell has found no free slot.
  datatype Cursor = Cursor(slots: Slots, col: nat, starts: seq<nat>, full: bool)

  function Step(s: Cursor, r: nat, cell: Cell): (s': Cursor)
    requires r < |s.slots|
    ensures |s'.slots| == |s.slots| && forall i :: 0 <= i < |s.slots| ==> |s'.slots[i]| == |s.slots[i]|
  {
    if s.full then s
    else
      var col := NextFree(s.slots[r], s.col);
      if col >= |s.slots[r]| then s.(col := col, full := true)
      else Cursor(Place(s.slots, r, col, cell), col + cell.colspan, s.starts + [col], false)
  }

  function Steps(g: Slots, r: nat, cells: seq<Cell>): (s: Cursor)
    requires r < |g|
    ensures |s.slots| == |g| && forall i :: 0 <= i < |g| ==> |s.slots[i]| == |g[i]|
  {
    if cells == [] then Cursor(g, 0, [], false)
    else Step(Steps(g, r, cells[..|cells| - 1]), r, cells[|cells| - 1])
  }

  /** The slots and start columns after the first `n` rows. */
  function Rows(g: Slots, raw: Raw, n: nat): (s: (Slots, seq<seq<nat>>))
    requires n <= |raw| <= |g|
    ensures |s.0| == |g| && (forall i :: 0 <= i < |g| ==> |s.0[i]| == |g[i]|) && |s.1| == n
  {
    if n == 0 then (g, [])
    else
      var (before, starts) := Rows(g, raw, n - 1);
      var s := Steps(before, n - 1, raw[n - 1]);
      (s.slots, starts + [s.starts])
  }

  function Empty(rows: nat, columns: nat): (g: Slots)
    ensures Rectangular(g, rows, columns)
    ensures forall i, j :: 0 <= i < rows && 0 <= j < columns ==> g[i][j] == None
  {
    seq(rows, i => seq(columns, j => None))
  }

  function TextOf(o: Option<string>): string {
    if o.Some? then o.value else ""
  }

  function Filled(g: Slots): (r: Grid)
    ensures |r| == |g| && forall i :: 0 <= i < |g| ==> |r[i]| == |g[i]|
    ensures forall i, j :: 0 <= i < |g| && 0 <= j < |g[i]| ==> r[i][j] == TextOf(g[i][j])
  {
    seq(|g|, i requires 0 <= i < |g| => seq(|g[i]|, j requires 0 <= j < |g[i]| => TextOf(g[i][j])))
  }

  function Parse(raw: Raw): Parsed {
    if raw == [] || Width(raw[0]) == 0 then Parsed([], 0, [])
    else
      var m := Width(raw[0]);
      var (slots, starts) := Rows(Empty(|raw|, m), raw, |raw|);
      Parsed(Filled(slots), m, starts)
  }

  // ---------------------------------------------------------- tilings

  // A rectangle of the table, with its corner, its size and its text.
  datatype Box = Box(top: nat, left: nat, height: nat, width: nat, text: string)

  predicate Covers(b: Box, i: int, j: int) {
    b.top <= i < b.top + b.height && b.left <= j < b.left + b.width
  }

  type Tiling = seq<seq<Box>>

  ghost predicate IsTile(t: Tiling, a: int, b: int) {
    0 <= a < |t| && 0 <= b < |t[a]|
  }

  ghost predicate Owns(t: Tiling, a: int, b: int, i: int, j: int) {
    IsTile(t, a, b) && Covers(t[a][b], i, j)
  }

  ghost predicate IsCovered(t: Tiling, i: int, j: int) {
    exists a, b :: Owns(t, a, b, i, j)
  }

  /** `t` cuts an n by m table into boxes, listed by top row and there from left to right. */
  ghost predicate Tiles(t: Tiling, n: nat, m: nat) {
    && n > 0 && m > 0 && |t| == n
    && (forall a, b :: IsTile(t, a, b) ==>
          && t[a][b].top == a && t[a][b].height > 0 && t[a][b].width > 0
          && a + t[a][b].height <= n && t[a][b].left + t[a][b].width <= m)
    && (forall a, b, b' :: IsTile(t, a, b) && IsTile(t, a, b') && b < b' ==>
          t[a][b].left + t[a][b].width <= t[a][b'].left)
    && (forall i, j :: 0 <= i < n && 0 <= j < m ==> IsCovered(t, i, j))
    && (forall i, j, a, b, a', b' :: Owns(t, a, b, i, j) && Owns(t, a', b', i, j) ==> a == a' && b == b')
  }

  function CellOf(b: Box): Cell {
    Cell(b.text, b.width, b.height)
  }

  function CellsOf(row: seq<Box>): (r: seq<Cell>)
    ensures |r| == |row| && forall k :: 0 <= k < |row| ==> r[k] == CellOf(row[k])
  {
    seq(|row|, k requires 0 <= k < |row| => CellOf(row[k]))
  }

  /** The table markup of a tiling: each box written at its top row. */
  function Listing(t: Tiling): (r: Raw)
    ensures |r| == |t| && forall a :: 0 <= a < |t| ==> r[a] == CellsOf(t[a])
  {
    seq(|t|, a requires 0 <= a < |t| => CellsOf(t[a]))
  }

  /** `grid` shows at every position the text of the box that covers it. */
  ghost predicate Shows(grid: Grid, t: Tiling, n: nat, m: nat) {
    && Rectangular(grid, n, m)
    && forall a, b, i, j :: Owns(t, a, b, i, j) && 0 <= i < n && 0 <= j < m ==> grid[i][j] == t[a][b].text
  }

  // The boxes written before row r, cell k.
  predicate Earlier(a: int, b: int, r: int, k: int) {
    a < r || (a == r && b < k)
  }

  /** The slots hold exactly the boxes written so far. */
  ghost predicate Painted(g: Slots, t: Tiling, n: nat, m: nat, r: int, k: int) {
    && Rectangular(g, n, m)
    && forall a, b, i, j :: Owns(t, a, b, i, j) && 0 <= i < n && 0 <= j < m ==>
         g[i][j] == if Earlier(a, b, r, k) then Some(t[a][b].text) else None
  }

  /** The next cell of a row slides exactly to the left edge of its own box. */
  lemma SlidesToBox(g: Slots, t: Tiling, n: nat, m: nat, r: nat, k: nat, col: nat)
    requires Tiles(t, n, m) && IsTile(t, r, k) && Painted(g, t, n, m, r, k)
    requires col == if k == 0 then 0 else t[r][k - 1].left + t[r][k - 1].width
    ensures NextFree(g[r], col) == t[r][k].left < m
  {
    var box := t[r][k];
    assert IsTile(t, r, k - 1) || k == 0;
    assert Owns(t, r, k, r, box.left);
    forall j | col <= j < box.left
      ensures g[r][j].Some?
    {
      assert IsCovered(t, r, j);
      var a, b :| Owns(t, a, b, r, j);
      assert Earlier(a, b, r, k);
    }
  }

  /** Writing a box where it belongs fills exactly its own slots. */
  lemma PlacePaints(g: Slots, t: Tiling, n: nat, m: nat, r: nat, k: nat)
    requires Tiles(t, n, m) && IsTile(t, r, k) && Painted(g, t, n, m, r, k)
    ensures Painted(Place(g, r, t[r][k].left, CellOf(t[r][k])), t, n, m, r, k + 1)
  {
    var box := t[r][k];
    var g' := Place(g, r, box.left, CellOf(box));
    forall a, b, i, j | Owns(t, a, b, i, j) && 0 <= i < n && 0 <= j < m
      ensures g'[i][j] == if Earlier(a, b, r, k + 1) then Some(t[a][b].text) else None
    {
      if Covers(box, i, j) {
        assert Owns(t, r, k, i, j);
        assert g[i][j] == None;
      }
    }
  }

  /** The cursor after the first `k` boxes of row `r`. */
  ghost predicate CursorPaints(s: Cursor, t: Tiling, n: nat, m: nat, r: nat, k: nat) {
    && r < |t| && k <= |t[r]| && Painted(s.slots, t, n, m, r, k) && !s.full
    && s.col == (if k == 0 then 0 else t[r][k - 1].left + t[r][k - 1].width)
    && |s.starts| == k && forall b :: 0 <= b < k ==> s.starts[b] == t[r][b].left
  }

  lemma {:induction false} StepsPaint(g: Slots, t: Tiling, n: nat, m: nat, r: nat, k: nat)
    requires Tiles(t, n, m) && r < |t| && r < |g| && k <= |t[r]| && CursorPaints(Cursor(g, 0, [], false), t, n, m, r, 0)
    ensures CursorPaints(Steps(g, r, CellsOf(t[r])[..k]), t, n, m, r, k)
  {
    if k == 0 {
      assert CellsOf(t[r])[..0] == [];
    } else {
      hide Tiles, Painted, CursorPaints, Step;
      StepsPaint(g, t, n, m, r, k - 1);
      var cells := CellsOf(t[r])[..k];
      assert cells[..k - 1] == CellsOf(t[r])[..k - 1];
      StepPaints(Steps(g, r, cells[..k - 1]), t, n, m, r, k - 1);
    }
  }

  lemma StepPaints(s: Cursor, t: Tiling, n: nat, m: nat, r: nat, k: nat)
    requires Tiles(t, n, m) && r < |t| && k < |t[r]| && CursorPaints(s, t, n, m, r, k) && r < |s.slots|
    ensures CursorPaints(Step(s, r, CellOf(t[r][k])), t, n, m, r, k + 1)
  {
    RowIsWide(s.slots, t, n, m, r, k);
    hide Painted, Tiles, Place;
    SlidesToBox(s.slots, t, n, m, r, k, s.col);
    PlacePaints(s.slots, t, n, m, r, k);
  }

  lemma RowsAreMany(g: Slots, t: Tiling, n: nat, m: nat, r: nat)
    requires Tiles(t, n, m) && r < n && Painted(g, t, n, m, r, 0)
    ensures r < |t| && r < |g|
  {
  }

  lemma RowIsWide(g: Slots, t: Tiling, n: nat, m: nat, r: nat, k: nat)
    requires Tiles(t, n, m) && IsTile(t, r, k) && Painted(g, t, n, m, r, k)
    ensures r < |g| && |g[r]| == m
  {
  }

  lemma RowPaints(g: Slots, t: Tiling, n: nat, m: nat, r: nat)
    requires Tiles(t, n, m) && r < n && Painted(g, t, n, m, r, 0)
    ensures var s := Steps(g, r, CellsOf(t[r]));
            && Painted(s.slots, t, n, m, r + 1, 0)
            && |s.starts| == |t[r]| && forall b :: 0 <= b < |t[r]| ==> s.starts[b] == t[r][b].left
  {
    hide Tiles, Steps, Covers;
    RowsAreMany(g, t, n, m, r);
    StepsPaint(g, t, n, m, r, |t[r]|);
    assert CellsOf(t[r])[..|t[r]|] == CellsOf(t[r]);
    assert forall a, b :: IsTile(t, a, b) ==> (Earlier(a, b, r, |t[r]|) <==> Earlier(a, b, r + 1, 0));
  }

  lemma {:induction false} RowsPaint(g: Slots, t: Tiling, n: nat, m: nat, r: nat)
    requires Tiles(t, n, m) && r <= n && Painted(g, t, n, m, 0, 0)
    ensures var (slots, starts) := Rows(g, Listing(t), r);
            && Painted(slots, t, n, m, r, 0)
            && forall a :: 0 <= a < r ==> |starts[a]| == |t[a]| && forall b :: 0 <= b < |t[a]| ==>
                 starts[a][b] == t[a][b].left
  {
    hide Tiles, Steps, Painted, Listing;
    TilingSize(g, t, n, m);
    if r == 0 {
    } else {
      RowsPaint(g, t, n, m, r - 1);
      RowPaints(Rows(g, Listing(t), r - 1).0, t, n, m, r - 1);
      RowsNext(g, Listing(t), r);
      hide Rows;
    }
  }

  lemma TilingSize(g: Slots, t: Tiling, n: nat, m: nat)
    requires Tiles(t, n, m) && Painted(g, t, n, m, 0, 0)
    ensures |g| == |t| == n
  {
  }

  lemma RowsNext(g: Slots, raw: Raw, n: nat)
    requires 0 < n <= |raw| <= |g|
    ensures var s := Steps(Rows(g, raw, n - 1).0, n - 1, raw[n - 1]);
            Rows(g, raw, n) == (s.slots, Rows(g, raw, n - 1).1 + [s.starts])
  {
  }

  /** The boxes of the top row stand side by side from the left edge to the right one. */
  lemma {:induction false} TopRowWidth(t: Tiling, n: nat, m: nat, k: nat)
    requires Tiles(t, n, m) && k <= |t[0]|
    ensures Width(CellsOf(t[0])[..k]) == if k == |t[0]| then m else t[0][k].left
  {
    if k == 0 {
    } else {
      TopRowWidth(t, n, m, k - 1);
      assert CellsOf(t[0])[..k][..k - 1] == CellsOf(t[0])[..k - 1];
      assert IsTile(t, 0, k - 1);
    }
    var e := if k == 0 then 0 else t[0][k - 1].left + t[0][k - 1].width;
    if e < m {
      assert IsCovered(t, 0, e);
      var a, b :| Owns(t, a, b, 0, e);
      assert a == 0 && k <= b;
      assert IsTile(t, 0, k);
    } else {
      assert k < |t[0]| ==> IsTile(t, 0, k);
    }
  }

  /**
   Parsing undoes tiling: for every cut of an n by m table into boxes, the parsed grid
   shows each box at all its positions, and each cell starts at its box's left edge.
   */
  lemma ParseRecoversTiling(t: Tiling, n: nat, m: nat)
    requires Tiles(t, n, m)
    ensures var p := Parse(Listing(t));
            && p.columns == m && Shows(p.grid, t, n, m)
            && |p.starts| == n
            && forall a :: 0 <= a < n ==> |p.starts[a]| == |t[a]| && forall b :: 0 <= b < |t[a]| ==>
                 p.starts[a][b] == t[a][b].left
  {
    TopRowWidth(t, n, m, |t[0]|);
    assert CellsOf(t[0])[..|t[0]|] == CellsOf(t[0]);
    RowsPaint(Empty(n, m), t, n, m, n);
  }

  // ------------------------------------------------------ arbitrary input

  /** Expanding row r leaves the rows above it alone. */
  lemma {:induction false} StepsKeepRows(g: Slots, r: nat, cells: seq<Cell>)
    requires r < |g|
    ensures forall i :: 0 <= i < r ==> Steps(g, r, cells).slots[i] == g[i]
  {
    if cells == [] {
    } else {
      StepsKeepRows(g, r, cells[..|cells| - 1]);
    }
  }

  /** Whatever the cells, each one that is placed keeps its own slot, and slots are taken left to right. */
  ghost predicate StartsHold(g: Slots, r: nat, cells: seq<Cell>, starts: seq<nat>)
    requires r < |g|
  {
    && |starts| <= |cells|
    && (forall k :: 0 <= k < |starts| ==> starts[k] < |g[r]| && g[r][starts[k]] == Some(cells[k].text))
    && (forall k, k' :: 0 <= k < k' < |starts| ==> starts[k] < starts[k'])
  }

  /** Where the expansion of a row stands after some cells. */
  ghost predicate CursorHolds(s: Cursor, r: nat, cells: seq<Cell>) {
    && r < |s.slots| && StartsHold(s.slots, r, cells, s.starts)
    && (!s.full ==> |s.starts| == |cells|)
    && forall k :: 0 <= k < |s.starts| ==> s.starts[k] <= s.col
  }

  lemma StepHolds(s: Cursor, r: nat, cells: seq<Cell>, cell: Cell)
    requires CursorHolds(s, r, cells)
    ensures CursorHolds(Step(s, r, cell), r, cells + [cell])
  {
    if !s.full {
      var col := NextFree(s.slots[r], s.col);
      if col < |s.slots[r]| {
        var g := Place(s.slots, r, col, cell);
        assert g[r][col] == Some(cell.text);
        forall k | 0 <= k < |s.starts|
          ensures s.starts[k] < col && g[r][s.starts[k]] == s.slots[r][s.starts[k]]
        {
          assert s.slots[r][s.starts[k]].Some?;
        }
      }
    }
  }

  lemma {:induction false} StepsStarts(g: Slots, r: nat, cells: seq<Cell>)
    requires r < |g|
    ensures CursorHolds(Steps(g, r, cells), r, cells)
  {
    if cells == [] {
    } else {
      hide CursorHolds, Step;
      StepsStarts(g, r, cells[..|cells| - 1]);
      StepHolds(Steps(g, r, cells[..|cells| - 1]), r, cells[..|cells| - 1], cells[|cells| - 1]);
      assert cells == cells[..|cells| - 1] + [cells[|cells| - 1]];
    }
  }

  lemma {:induction false} RowsKeep(g: Slots, raw: Raw, n: nat, n': nat)
    requires n <= n' <= |raw| <= |g|
    ensures forall i :: 0 <= i < n ==>
              Rows(g, raw, n').0[i] == Rows(g, raw, n).0[i] && Rows(g, raw, n').1[i] == Rows(g, raw, n).1[i]
    decreases n' - n
  {
    if n < n' {
      RowsKeep(g, raw, n, n' - 1);
      StepsKeepRows(Rows(g, raw, n' - 1).0, n' - 1, raw[n' - 1]);
    }
  }

  lemma {:induction false} RowsStarts(g: Slots, raw: Raw, n: nat, r: nat)
    requires r < n <= |raw| <= |g|
    ensures StartsHold(Rows(g, raw, n).0, r, raw[r], Rows(g, raw, n).1[r])
  {
    RowsKeep(g, raw, r + 1, n);
    StepsStarts(Rows(g, raw, r).0, r, raw[r]);
  }

  /**
   For arbitrary markup: the grid is as wide as the first row says in every row, start
   columns rise strictly, each placed cell still shows its text at its start column, and a
   row, once expanded, is never changed by the rows below it.
   */
  lemma ParseIsFaithful(raw: Raw)
    ensures var p := Parse(raw);
            && (p.grid == [] <==> raw == [] || Width(raw[0]) == 0)
            && (p.grid != [] ==>
                 Rectangular(p.grid, |raw|, Width(raw[0])) && p.columns == Width(raw[0]) && |p.starts| == |raw|)
            && forall r :: 0 <= r < |p.grid| ==>
                 && |p.starts[r]| <= |raw[r]|
                 && (forall k :: 0 <= k < |p.starts[r]| ==>
                      p.starts[r][k] < p.columns && p.grid[r][p.starts[r][k]] == raw[r][k].text)
                 && (forall k, k' :: 0 <= k < k' < |p.starts[r]| ==> p.starts[r][k] < p.starts[r][k'])
                 && forall n :: r < n <= |raw| ==> Filled(Rows(Empty(|raw|, p.columns), raw, n).0)[r] == p.grid[r]
  {
    var p := Parse(raw);
    if p.grid != [] {
      var g := Empty(|raw|, p.columns);
      forall r | 0 <= r < |p.grid|
        ensures StartsHold(Rows(g, raw, |raw|).0, r, raw[r], p.starts[r])
        ensures forall n :: r < n <= |raw| ==> Filled(Rows(g, raw, n).0)[r] == p.grid[r]
      {
        RowsStarts(g, raw, |raw|, r);
        forall n | r < n <= |raw|
          ensures Filled(Rows(g, raw, n).0)[r] == p.grid[r]
        {
          RowsKeep(g, raw, n, |raw|);
        }
      }
    }
  }

  // ------------------------------------------------ the in-place algorithm

  ghost function View(a: array2<Option<string>>): (g: Slots)
    reads a
    ensures Rectangular(g, a.Length0, a.Length1)
    ensures forall i, j :: 0 <= i < a.Length0 && 0 <= j < a.Length1 ==> g[i][j] == a[i, j]
  {
    seq(a.Length0, i requires 0 <= i < a.Length0 reads a =>
      seq(a.Length1, j requires 0 <= j < a.Length1 reads a => a[i, j]))
  }

  lemma SameSlots(g: Slots, g': Slots, rows: nat, columns: nat)
    requires Rectangular(g, rows, columns) && Rectangular(g', rows, columns)
    requires forall i, j :: 0 <= i < rows && 0 <= j < columns ==> g[i][j] == g'[i][j]
    ensures g == g'
  {
    forall i | 0 <= i < rows
      ensures g[i] == g'[i]
    {
    }
  }

  /** Writes one cell and the slots it spans, in place. */
  method PlaceCell(a: array2<Option<string>>, r: nat, col: nat, cell: Cell)
    requires r < a.Length0 && col < a.Length1
    modifies a
    ensures View(a) == Place(old(View(a)), r, col, cell)
  {
    a[r, col] := Some(cell.text);
    var dc := 1;
    while dc < cell.colspan
      invariant dc >= 1
      invariant forall i, j :: 0 <= i < a.Length0 && 0 <= j < a.Length1 ==>
                  a[i, j] == if i == r && (j == col || (col < j < col + dc && j < col + cell.colspan))
                             then Some(cell.text)
                             else old(a[i, j])
    {
      if col + dc < a.Length1 {
        a[r, col + dc] := Some(cell.text);
      }
      dc := dc + 1;
    }
    var dr := 1;
    while dr < cell.rowspan
      invariant dr >= 1
      invariant forall i, j :: 0 <= i < a.Length0 && 0 <= j < a.Length1 ==>
                  a[i, j] == if i < r + dr then Written(old(a[i, j]), r, col, cell, i, j) else old(a[i, j])
    {
      if r + dr < a.Length0 {
        var ec := 0;
        while ec < cell.colspan
          invariant 0 <= ec
          invariant forall i, j :: 0 <= i < a.Length0 && 0 <= j < a.Length1 ==>
                      a[i, j] == if i < r + dr || (i == r + dr && j < col + ec)
                                 then Written(old(a[i, j]), r, col, cell, i, j)
                                 else old(a[i, j])
        {
          if col + ec < a.Length1 && a[r + dr, col + ec] == None {
            a[r + dr, col + ec] := Some(cell.text);
          }
          ec := ec + 1;
        }
      }
      dr := dr + 1;
    }
    SameSlots(View(a), Place(old(View(a)), r, col, cell), a.Length0, a.Length1);
  }

  /** Expands the cells of one row. */
  method ExpandRow(a: array2<Option<string>>, r: nat, cells: seq<Cell>) returns (starts: seq<nat>)
    requires r < a.Length0
    modifies a
    ensures var s := Steps(old(View(a)), r, cells); View(a) == s.slots && starts == s.starts
  {
    hide Place;
    ghost var g := View(a);
    starts := [];
    var col: nat, k: nat := 0, 0;
    while k < |cells|
      invariant 0 <= k <= |cells|
      invariant Steps(g, r, cells[..k]) == Cursor(View(a), col, starts, false)
    {
      assert cells[..k + 1][..k] == cells[..k];
      ghost var from := col;
      while col < a.Length1 && a[r, col] != None
        invariant from <= col
        invariant NextFree(View(a)[r], from) == NextFree(View(a)[r], col)
      {
        col := col + 1;
      }
      if col >= a.Length1 {
        FullStays(g, r, cells, k + 1);
        break;
      }
      starts := starts + [col];
      PlaceCell(a, r, col, cells[k]);
      col := col + cells[k].colspan;
      k := k + 1;
    }
    assert cells[..|cells|] == cells;
  }

  lemma {:induction false} FullStays(g: Slots, r: nat, cells: seq<Cell>, k: nat)
    requires r < |g| && k <= |cells| && Steps(g, r, cells[..k]).full
    ensures Steps(g, r, cells) == Steps(g, r, cells[..k])
    decreases |cells| - k
  {
    if k < |cells| {
      assert cells[..k + 1][..k] == cells[..k];
      FullStays(g, r, cells, k + 1);
    } else {
      assert cells[..k] == cells;
    }
  }

  /** `parse_table` on rows of cells. */
  method ParseTable(raw: Raw) returns (p: Parsed)
    ensures p == Parse(raw)
  {
    if raw == [] {
      return Parsed([], 0, []);
    }
    var columns := Width(raw[0]);
    if columns == 0 {
      return Parsed([], 0, []);
    }
    var a := new Option<string>[|raw|, columns]((i, j) => None);
    var starts: seq<seq<nat>> := [];
    SameSlots(View(a), Empty(|raw|, columns), |raw|, columns);
    var r := 0;
    while r < |raw|
      invariant 0 <= r <= |raw|
      invariant (View(a), starts) == Rows(Empty(|raw|, columns), raw, r)
    {
      var s := ExpandRow(a, r, raw[r]);
      starts := starts + [s];
      r := r + 1;
    }
    var grid := seq(|raw|, i requires 0 <= i < |raw| reads a =>
                      seq(columns, j requires 0 <= j < columns reads a => TextOf(a[i, j])));
    assert grid == Filled(View(a)) by {
      forall i | 0 <= i < |raw|
        ensures grid[i] == Filled(View(a))[i]
      {
      }
    }
    return Parsed(grid, columns, starts);
  }
}
