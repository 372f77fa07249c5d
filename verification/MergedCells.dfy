/**
 The spreadsheet preview: merged ranges become spans on their top-left cell, the cells
 they cover are skipped, and columns right of the last content are dropped. Rows and
 columns count from 1.
 */
module MergedCells {
  import opened Catalogue
  import opened TableGrid

  // A merged range, both corners included.
  datatype Merge = Merge(top: nat, left: nat, bottom: nat, right: nat)

  type Spot = (nat, nat)

  // `spans` holds (rows, columns) per top-left cell; `covered` holds all other merged cells.
  datatype Layout = Layout(spans: map<Spot, (nat, nat)>, covered: set<Spot>)

  predicate WellFormed(g: Merge) {
    1 <= g.top <= g.bottom && 1 <= g.left <= g.right
  }

  /** `g` cut down to the window of `rows` by `columns`. */
  function Clip(g: Merge, rows: nat, columns: nat): Merge {
    Merge(g.top, g.left, Min(g.bottom, rows), Min(g.right, columns))
  }

  predicate Holds(g: Merge, r: nat, c: nat) {
    g.top <= r <= g.bottom && g.left <= c <= g.right
  }

  /** The range starts inside the window and is more than one cell of it. */
  predicate Spans(g: Merge, rows: nat, columns: nat) {
    && g.top <= rows && g.left <= columns
    && (Min(g.bottom, rows) > g.top || Min(g.right, columns) > g.left)
  }

  function Inside(g: Merge): set<Spot> {
    set r, c | g.top <= r <= g.bottom && g.left <= c <= g.right && (r, c) != (g.top, g.left) :: (r, c)
  }

  function Add(l: Layout, g: Merge, rows: nat, columns: nat): Layout
    requires WellFormed(g)
  {
    if !Spans(g, rows, columns) then l
    else
      var k := Clip(g, rows, columns);
      Layout(l.spans[(g.top, g.left) := (k.bottom - g.top + 1, k.right - g.left + 1)], l.covered + Inside(k))
  }

  function LayoutOf(merges: seq<Merge>, rows: nat, columns: nat): Layout
    requires forall g :: g in merges ==> WellFormed(g)
  {
    if merges == [] then Layout(map[], {})
    else Add(LayoutOf(merges[..|merges| - 1], rows, columns), merges[|merges| - 1], rows, columns)
  }

  // ------------------------------------------------------ the two readers

  /** The cells of one clipped range, row by row. */
  method CollectInside(g: Merge) returns (cells: set<Spot>)
    ensures cells == Inside(g)
  {
    cells := {};
    var r := g.top;
    while r <= g.bottom
      invariant g.top <= r
      invariant cells == set i, j | g.top <= i < r && i <= g.bottom && g.left <= j <= g.right
                && (i, j) != (g.top, g.left) :: (i, j)
      decreases g.bottom + 1 - r
    {
      var c := g.left;
      ghost var before := cells;
      while c <= g.right
        invariant g.left <= c
        invariant cells == before + set j | g.left <= j < c && j <= g.right && (r, j) != (g.top, g.left) :: (r, j)
        decreases g.right + 1 - c
      {
        if (r, c) != (g.top, g.left) {
          cells := cells + {(r, c)};
        }
        c := c + 1;
      }
      r := r + 1;
    }
  }

  /** `_xlsx_merge_spans`: corners counted from 1, both included. */
  method XlsxMergeSpans(merges: seq<Merge>, maxRow: nat, maxCol: nat) returns (l: Layout)
    requires forall g :: g in merges ==> WellFormed(g)
    ensures l == LayoutOf(merges, maxRow, maxCol)
  {
    l := Layout(map[], {});
    var i := 0;
    while i < |merges|
      invariant 0 <= i <= |merges|
      invariant l == LayoutOf(merges[..i], maxRow, maxCol)
    {
      var g := merges[i];
      assert merges[..i + 1][..i] == merges[..i];
      i := i + 1;
      if g.top > maxRow || g.left > maxCol {
        continue;
      }
      assert g in merges;
      var rowSpan: nat := Min(g.bottom, maxRow) - g.top + 1;
      var colSpan: nat := Min(g.right, maxCol) - g.left + 1;
      if rowSpan <= 1 && colSpan <= 1 {
        continue;
      }
      var inside := CollectInside(Clip(g, maxRow, maxCol));
      l := Layout(l.spans[(g.top, g.left) := (rowSpan, colSpan)], l.covered + inside);
    }
    assert merges[..i] == merges;
  }

  // The other reader's ranges: counted from 0, ends excluded.
  datatype ZeroMerge = ZeroMerge(rowStart: nat, rowEnd: nat, colStart: nat, colEnd: nat)

  function FromZero(z: ZeroMerge): Merge {
    Merge(z.rowStart + 1, z.colStart + 1, z.rowEnd, z.colEnd)
  }

  function FromZeros(zs: seq<ZeroMerge>): (r: seq<Merge>)
    ensures |r| == |zs| && forall i :: 0 <= i < |zs| ==> r[i] == FromZero(zs[i])
  {
    seq(|zs|, i requires 0 <= i < |zs| => FromZero(zs[i]))
  }

  /** `_xlrd_merge_spans` lays out the same sheet in the same way. */
  method XlrdMergeSpans(merges: seq<ZeroMerge>, maxRow: nat, maxCol: nat) returns (l: Layout)
    requires forall z :: z in merges ==> z.rowStart < z.rowEnd && z.colStart < z.colEnd
    ensures l == LayoutOf(FromZeros(merges), maxRow, maxCol)
  {
    l := Layout(map[], {});
    ghost var all := FromZeros(merges);
    var i := 0;
    while i < |merges|
      invariant 0 <= i <= |merges|
      invariant l == LayoutOf(all[..i], maxRow, maxCol)
    {
      var z := merges[i];
      assert all[..i + 1][..i] == all[..i];
      i := i + 1;
      var startRow, startCol := z.rowStart + 1, z.colStart + 1;
      var endRow, endCol := Min(z.rowEnd, maxRow), Min(z.colEnd, maxCol);
      if startRow > maxRow || startCol > maxCol {
        continue;
      }
      var rowSpan: nat := endRow - startRow + 1;
      var colSpan: nat := endCol - startCol + 1;
      if rowSpan <= 1 && colSpan <= 1 {
        continue;
      }
      var inside := CollectInside(Merge(startRow, startCol, endRow, endCol));
      l := Layout(l.spans[(startRow, startCol) := (rowSpan, colSpan)], l.covered + inside);
    }
    assert all[..i] == all;
  }

  // --------------------------------------------------------- the last column

  /** Everything visible ends at or before column `w`. */
  ghost predicate Enough(shown: (nat, nat) -> string, rows: nat, columns: nat, spans: map<Spot, (nat, nat)>, w: nat) {
    && (forall r: nat, c: nat :: 1 <= r <= rows && 1 <= c <= columns && shown(r, c) != "" ==> c <= w)
    && (forall r: nat, c: nat :: (r, c) in spans && shown(r, c) != "" ==>
         Min(columns + 1, c + spans[(r, c)].1) <= w + 1)
  }

  /** The width that a window of the sheet is rendered with. */
  ghost predicate IsRenderedWidth(shown: (nat, nat) -> string, rows: nat, columns: nat, spans: map<Spot, (nat, nat)>,
                                  w: nat) {
    && 1 <= w <= columns && Enough(shown, rows, columns, spans, w)
    && forall v: nat :: v >= 1 && Enough(shown, rows, columns, spans, v) ==> w <= v
  }

  /** Everything in a cell of the first `n` rows ends at or before column `w`. */
  ghost predicate EnoughForRows(shown: (nat, nat) -> string, n: nat, rows: nat, columns: nat, w: nat) {
    forall r: nat, c: nat :: 1 <= r <= n && r <= rows && 1 <= c <= columns && shown(r, c) != "" ==> c <= w
  }

  /** The last column with content. */
  method LastContent(shown: (nat, nat) -> string, rows: nat, columns: nat) returns (last: nat)
    ensures last <= columns && EnoughForRows(shown, rows, rows, columns, last)
    ensures forall v: nat :: EnoughForRows(shown, rows, rows, columns, v) ==> last <= v
  {
    last := 0;
    var r: nat := 1;
    while r <= rows
      invariant 1 <= r && last <= columns && EnoughForRows(shown, r - 1, rows, columns, last)
      invariant forall v: nat :: EnoughForRows(shown, rows, rows, columns, v) ==> last <= v
      decreases rows + 1 - r
    {
      var c: nat := 1;
      while c <= columns
        invariant 1 <= c && last <= columns && EnoughForRows(shown, r - 1, rows, columns, last)
        invariant forall j: nat :: 1 <= j < c && j <= columns && shown(r, j) != "" ==> j <= last
        invariant forall v: nat :: EnoughForRows(shown, rows, rows, columns, v) ==> last <= v
        decreases columns + 1 - c
      {
        if shown(r, c) != "" && c > last {
          last := c;
        }
        c := c + 1;
      }
      r := r + 1;
    }
  }

  /**
   `_rendered_column_count`: the least width, and at least 1, that holds all content and all
   merged ranges whose top-left cell has content.
   */
  method RenderedColumns(shown: (nat, nat) -> string, rows: nat, columns: nat, spans: map<Spot, (nat, nat)>)
    returns (w: nat)
    requires forall p :: p in spans ==> p.0 >= 1 && p.1 >= 1 && spans[p].0 >= 1 && spans[p].1 >= 1
    ensures rows == 0 || columns == 0 ==> w == 0
    ensures rows > 0 && columns > 0 ==> IsRenderedWidth(shown, rows, columns, spans, w)
  {
    var last: nat := LastContent(shown, rows, columns);
    EnoughHasParts(shown, rows, columns, spans);
    hide EnoughForRows, Enough;
    var todo := spans.Keys;
    while todo != {}
      invariant todo <= spans.Keys && last <= columns && EnoughForRows(shown, rows, rows, columns, last)
      invariant forall p :: p in spans && p !in todo && shown(p.0, p.1) != "" ==>
                  Min(columns + 1, p.1 + spans[p].1) <= last + 1
      invariant forall v: nat :: Enough(shown, rows, columns, spans, v) ==> last <= v
      decreases todo
    {
      var p :| p in todo;
      var end: nat := Min(columns, p.1 + spans[p].1 - 1);
      if shown(p.0, p.1) != "" && end > last {
        LongerIsEnough(shown, rows, columns, last, end);
        last := end;
      }
      todo := todo - {p};
    }
    if rows > 0 && columns > 0 {
      w := if last > 1 then last else 1;
      LongerIsEnough(shown, rows, columns, last, w);
    } else {
      w := 0;
    }
  }

  lemma EnoughHasParts(shown: (nat, nat) -> string, rows: nat, columns: nat, spans: map<Spot, (nat, nat)>)
    ensures forall v: nat :: Enough(shown, rows, columns, spans, v) <==>
              && EnoughForRows(shown, rows, rows, columns, v)
              && forall p :: p in spans && shown(p.0, p.1) != "" ==> Min(columns + 1, p.1 + spans[p].1) <= v + 1
  {
    forall v: nat | Enough(shown, rows, columns, spans, v)
      ensures forall p :: p in spans && shown(p.0, p.1) != "" ==> Min(columns + 1, p.1 + spans[p].1) <= v + 1
    {
      assert forall p: Spot :: p == (p.0, p.1);
    }
  }

  lemma LongerIsEnough(shown: (nat, nat) -> string, rows: nat, columns: nat, v: nat, w: nat)
    requires EnoughForRows(shown, rows, rows, columns, v) && v <= w
    ensures EnoughForRows(shown, rows, rows, columns, w)
  {
  }

  // ------------------------------------------------------------- rendering

  function SpanAt(l: Layout, r: nat, c: nat): (nat, nat) {
    if (r, c) in l.spans then l.spans[(r, c)] else (1, 1)
  }

  /** The columns of row r that get a cell, up to column `n`. */
  function Emitted(l: Layout, r: nat, n: nat): (cols: seq<nat>)
    ensures forall k :: 0 <= k < |cols| ==> 1 <= cols[k] <= n && (r, cols[k]) !in l.covered
    ensures forall k, k' :: 0 <= k < k' < |cols| ==> cols[k] < cols[k']
  {
    if n == 0 then [] else Emitted(l, r, n - 1) + if (r, n) in l.covered then [] else [n]
  }

  lemma {:induction false} EmittedAll(l: Layout, r: nat, n: nat, c: nat) returns (k: nat)
    requires 1 <= c <= n && (r, c) !in l.covered
    ensures k < |Emitted(l, r, n)| && Emitted(l, r, n)[k] == c
  {
    if c == n {
      k := |Emitted(l, r, n)| - 1;
    } else {
      k := EmittedAll(l, r, n - 1, c);
    }
  }

  function BoxAt(l: Layout, shown: (nat, nat) -> string, r: nat, c: nat): Box
    requires r >= 1 && c >= 1
  {
    Box(r - 1, c - 1, SpanAt(l, r, c).0, SpanAt(l, r, c).1, shown(r, c))
  }

  function BoxesOfRow(l: Layout, shown: (nat, nat) -> string, r: nat, width: nat): (boxes: seq<Box>)
    requires r >= 1
    ensures |boxes| == |Emitted(l, r, width)|
    ensures forall k :: 0 <= k < |boxes| ==> boxes[k] == BoxAt(l, shown, r, Emitted(l, r, width)[k])
  {
    var cols := Emitted(l, r, width);
    seq(|cols|, k requires 0 <= k < |cols| => BoxAt(l, shown, r, cols[k]))
  }

  function BoxesOf(l: Layout, shown: (nat, nat) -> string, rows: nat, width: nat): (t: Tiling)
    ensures |t| == rows && forall r :: 0 <= r < rows ==> t[r] == BoxesOfRow(l, shown, r + 1, width)
  {
    seq(rows, r requires 0 <= r < rows => BoxesOfRow(l, shown, r + 1, width))
  }

  /** `_render_row`, without the leading row number: cells left to right, covered ones skipped. */
  method RenderRow(l: Layout, shown: (nat, nat) -> string, r: nat, width: nat) returns (cells: seq<Cell>)
    requires r >= 1
    ensures cells == CellsOf(BoxesOfRow(l, shown, r, width))
  {
    cells := [];
    var c: nat := 1;
    while c <= width
      invariant 1 <= c <= width + 1
      invariant cells == CellsOf(BoxesOfRow(l, shown, r, c - 1))
    {
      if (r, c) !in l.covered {
        var span := SpanAt(l, r, c);
        cells := cells + [Cell(shown(r, c), span.1, span.0)];
      }
      c := c + 1;
    }
  }

  // ----------------------------------------------------------------- tiling

  ghost predicate Disjoint(merges: seq<Merge>) {
    forall a, b :: 0 <= a < b < |merges| ==>
      merges[a].right < merges[b].left || merges[b].right < merges[a].left
      || merges[a].bottom < merges[b].top || merges[b].bottom < merges[a].top
  }

  ghost predicate IsSpan(merges: seq<Merge>, rows: nat, columns: nat, a: int) {
    0 <= a < |merges| && Spans(merges[a], rows, columns)
  }

  /** Range `a` has its top-left cell at `p`. */
  ghost predicate StartsAt(merges: seq<Merge>, rows: nat, columns: nat, a: int, p: Spot) {
    IsSpan(merges, rows, columns, a) && p == (merges[a].top, merges[a].left)
  }

  /** Range `a` covers `p`, which is not its top-left cell. */
  ghost predicate CoversSpot(merges: seq<Merge>, rows: nat, columns: nat, a: int, p: Spot) {
    IsSpan(merges, rows, columns, a) && p in Inside(Clip(merges[a], rows, columns))
  }

  function SizeOf(g: Merge, rows: nat, columns: nat): (nat, nat)
    requires WellFormed(g) && Spans(g, rows, columns)
  {
    (Min(g.bottom, rows) - g.top + 1, Min(g.right, columns) - g.left + 1)
  }

  lemma {:induction false} CoveredExact(merges: seq<Merge>, rows: nat, columns: nat, p: Spot)
    requires forall g :: g in merges ==> WellFormed(g)
    ensures p in LayoutOf(merges, rows, columns).covered <==> exists a :: CoversSpot(merges, rows, columns, a, p)
  {
    if merges == [] {
    } else {
      var n := |merges| - 1;
      CoveredExact(merges[..n], rows, columns, p);
      hide Inside, Clip;
      forall a | 0 <= a < n
        ensures CoversSpot(merges, rows, columns, a, p) <==> CoversSpot(merges[..n], rows, columns, a, p)
      {
        assert merges[..n][a] == merges[a];
      }
      assert merges[n] in merges;
      assert Spans(merges[n], rows, columns) && p in Inside(Clip(merges[n], rows, columns))
        <==> CoversSpot(merges, rows, columns, n, p);
    }
  }

  lemma StartIsUnique(merges: seq<Merge>, rows: nat, columns: nat, a: int, b: int, p: Spot)
    requires (forall g :: g in merges ==> WellFormed(g)) && Disjoint(merges)
    requires StartsAt(merges, rows, columns, a, p) && StartsAt(merges, rows, columns, b, p)
    ensures a == b
  {
    assert merges[a] in merges && merges[b] in merges;
  }

  lemma {:induction false} SpansExact(merges: seq<Merge>, rows: nat, columns: nat, p: Spot)
    requires (forall g :: g in merges ==> WellFormed(g)) && Disjoint(merges)
    ensures p in LayoutOf(merges, rows, columns).spans <==> exists a :: StartsAt(merges, rows, columns, a, p)
  {
    if merges == [] {
    } else {
      var n := |merges| - 1;
      SpansExact(merges[..n], rows, columns, p);
      hide Spans, Inside, Clip, WellFormed;
      forall a | 0 <= a < n
        ensures StartsAt(merges, rows, columns, a, p) <==> StartsAt(merges[..n], rows, columns, a, p)
      {
        assert merges[..n][a] == merges[a];
      }
      assert Spans(merges[n], rows, columns) && p == (merges[n].top, merges[n].left)
        <==> StartsAt(merges, rows, columns, n, p);
    }
  }

  lemma {:induction false} SpanSize(merges: seq<Merge>, rows: nat, columns: nat, a: int, p: Spot)
    requires (forall g :: g in merges ==> WellFormed(g)) && Disjoint(merges)
    requires StartsAt(merges, rows, columns, a, p)
    ensures merges[a] in merges && p in LayoutOf(merges, rows, columns).spans
    ensures LayoutOf(merges, rows, columns).spans[p] == SizeOf(merges[a], rows, columns)
    decreases |merges|
  {
    var n := |merges| - 1;
    if a < n {
      assert merges[..n][a] == merges[a];
      SpanSize(merges[..n], rows, columns, a, p);
      hide Inside, Disjoint;
      assert Spans(merges[n], rows, columns) && p == (merges[n].top, merges[n].left) ==> a == n by {
        if Spans(merges[n], rows, columns) && p == (merges[n].top, merges[n].left) {
          StartIsUnique(merges, rows, columns, a, n, p);
        }
      }
    }
  }

  // ------------------------------------------------------- the rendered table

  /** What a sheet guarantees: its merged ranges are disjoint. */
  ghost predicate Renderable(merges: seq<Merge>) {
    (forall g :: g in merges ==> WellFormed(g)) && Disjoint(merges)
  }

  /** No range that starts in the rendered columns ends, inside the window, right of them. */
  ghost predicate Fits(merges: seq<Merge>, rows: nat, columns: nat, width: nat) {
    forall a :: IsSpan(merges, rows, columns, a) && merges[a].left <= width ==> Min(merges[a].right, columns) <= width
  }

  /** A range with nothing in its top-left cell that starts in the rendered columns and ends right of them. */
  ghost predicate HiddenOverhang(merges: seq<Merge>, shown: (nat, nat) -> string, rows: nat, columns: nat, width: nat,
                                 a: int) {
    && IsSpan(merges, rows, columns, a) && merges[a].left <= width && shown(merges[a].top, merges[a].left) == ""
    && Min(merges[a].right, columns) > width
  }

  /** Ranges whose top-left cell has content always fit the rendered columns; only the others can stick out. */
  lemma VisibleRangesFit(merges: seq<Merge>, shown: (nat, nat) -> string, rows: nat, columns: nat, width: nat)
    requires Renderable(merges)
    requires Enough(shown, rows, columns, LayoutOf(merges, rows, columns).spans, width)
    ensures Fits(merges, rows, columns, width) <==> forall a :: !HiddenOverhang(merges, shown, rows, columns, width, a)
  {
    hide LayoutOf, Disjoint, Spans;
    if forall a :: !HiddenOverhang(merges, shown, rows, columns, width, a) {
      forall a | IsSpan(merges, rows, columns, a) && merges[a].left <= width
        ensures Min(merges[a].right, columns) <= width
      {
        assert merges[a] in merges;
        assert StartsAt(merges, rows, columns, a, (merges[a].top, merges[a].left));
        SpanSize(merges, rows, columns, a, (merges[a].top, merges[a].left));
        assert !HiddenOverhang(merges, shown, rows, columns, width, a);
      }
    }
  }

  /** The range that reaches over `p`, in the window, unless `p` is not in any. */
  ghost predicate Reaches(merges: seq<Merge>, rows: nat, columns: nat, a: int, r: nat, c: nat) {
    IsSpan(merges, rows, columns, a) && r <= rows && c <= columns && Holds(merges[a], r, c)
  }

  lemma ReachIsUnique(merges: seq<Merge>, rows: nat, columns: nat, a: int, b: int, r: nat, c: nat)
    requires Disjoint(merges) && Reaches(merges, rows, columns, a, r, c) && Reaches(merges, rows, columns, b, r, c)
    ensures a == b
  {
  }

  /** A cell is skipped exactly when a range reaches over it without starting there. */
  lemma SkippedExact(merges: seq<Merge>, rows: nat, columns: nat, r: nat, c: nat)
    requires forall g :: g in merges ==> WellFormed(g)
    requires r <= rows && c <= columns
    ensures (r, c) in LayoutOf(merges, rows, columns).covered <==>
            exists a :: Reaches(merges, rows, columns, a, r, c) && (r, c) != (merges[a].top, merges[a].left)
  {
    CoveredExact(merges, rows, columns, (r, c));
    forall a
      ensures CoversSpot(merges, rows, columns, a, (r, c)) <==>
              Reaches(merges, rows, columns, a, r, c) && (r, c) != (merges[a].top, merges[a].left)
    {
    }
  }

  /** The rectangle that a rendered cell takes up: its own range cut to the window, or one cell. */
  lemma BoxExact(merges: seq<Merge>, shown: (nat, nat) -> string, rows: nat, columns: nat, width: nat, r: nat, c: nat,
                 i: nat, j: nat)
    requires Renderable(merges) && 1 <= r <= rows && 1 <= c <= width <= columns
    requires (r, c) !in LayoutOf(merges, rows, columns).covered
    requires Fits(merges, rows, columns, width)
    ensures var box := BoxAt(LayoutOf(merges, rows, columns), shown, r, c);
            && box.height > 0 && box.width > 0 && box.top + box.height <= rows && box.left + box.width <= width
            && (Covers(box, i, j) <==>
                  (i + 1, j + 1) == (r, c) ||
                  exists a :: StartsAt(merges, rows, columns, a, (r, c))
                      && Reaches(merges, rows, columns, a, i + 1, j + 1))
  {
    var l := LayoutOf(merges, rows, columns);
    SpansExact(merges, rows, columns, (r, c));
    if a :| StartsAt(merges, rows, columns, a, (r, c)) {
      SpanSize(merges, rows, columns, a, (r, c));
      assert merges[a] in merges;
      forall b | StartsAt(merges, rows, columns, b, (r, c))
        ensures b == a
      {
        StartIsUnique(merges, rows, columns, a, b, (r, c));
      }
    }
  }

  /** The top-left cell of the range over (r, c), or (r, c) itself when there is none. */
  ghost predicate Anchor(merges: seq<Merge>, rows: nat, columns: nat, r: nat, c: nat, p: Spot) {
    if exists a :: Reaches(merges, rows, columns, a, r, c) then
      exists a :: Reaches(merges, rows, columns, a, r, c) && StartsAt(merges, rows, columns, a, p)
    else p == (r, c)
  }

  lemma AnchorIsEmitted(merges: seq<Merge>, rows: nat, columns: nat, r: nat, c: nat) returns (p: Spot)
    requires (forall g :: g in merges ==> WellFormed(g)) && Disjoint(merges)
    requires 1 <= r <= rows && 1 <= c <= columns
    ensures Anchor(merges, rows, columns, r, c, p) && 1 <= p.0 <= r && 1 <= p.1 <= c
    ensures p !in LayoutOf(merges, rows, columns).covered
  {
    if a :| Reaches(merges, rows, columns, a, r, c) {
      assert merges[a] in merges;
      p := (merges[a].top, merges[a].left);
      SkippedExact(merges, rows, columns, p.0, p.1);
      assert Reaches(merges, rows, columns, a, p.0, p.1);
      forall b | Reaches(merges, rows, columns, b, p.0, p.1)
        ensures b == a
      {
        ReachIsUnique(merges, rows, columns, a, b, p.0, p.1);
      }
      assert StartsAt(merges, rows, columns, a, p);
    } else {
      p := (r, c);
      SkippedExact(merges, rows, columns, r, c);
    }
  }

  /** A position belongs to a rendered cell exactly when that cell is its anchor. */
  lemma BoxCoversItsAnchored(merges: seq<Merge>, shown: (nat, nat) -> string, rows: nat, columns: nat, width: nat,
                             r: nat, c: nat, i: nat, j: nat)
    requires Renderable(merges) && 1 <= r <= rows && 1 <= c <= width <= columns
    requires (r, c) !in LayoutOf(merges, rows, columns).covered
    requires Fits(merges, rows, columns, width)
    requires i < rows && j < columns
    ensures var box := BoxAt(LayoutOf(merges, rows, columns), shown, r, c);
            && box.height > 0 && box.width > 0 && box.top + box.height <= rows && box.left + box.width <= width
            && (Covers(box, i, j) <==> Anchor(merges, rows, columns, i + 1, j + 1, (r, c)))
  {
    hide LayoutOf, Disjoint, Spans;
    BoxExact(merges, shown, rows, columns, width, r, c, i, j);
    var y, x := i + 1, j + 1;
    if a :| Reaches(merges, rows, columns, a, y, x) {
      forall b | Reaches(merges, rows, columns, b, y, x)
        ensures b == a
      {
        ReachIsUnique(merges, rows, columns, a, b, y, x);
      }
      if (y, x) == (r, c) {
        SkippedExact(merges, rows, columns, r, c);
        assert StartsAt(merges, rows, columns, a, (r, c));
      }
    }
  }

  lemma AnchorIsUnique(merges: seq<Merge>, rows: nat, columns: nat, r: nat, c: nat, p: Spot, q: Spot)
    requires Disjoint(merges)
    requires Anchor(merges, rows, columns, r, c, p) && Anchor(merges, rows, columns, r, c, q)
    ensures p == q
  {
    if a, b :| Reaches(merges, rows, columns, a, r, c) && StartsAt(merges, rows, columns, a, p)
               && Reaches(merges, rows, columns, b, r, c) && StartsAt(merges, rows, columns, b, q) {
      ReachIsUnique(merges, rows, columns, a, b, r, c);
    }
  }

  /** The body of the preview: all the rows of the window. */
  method RenderTable(l: Layout, shown: (nat, nat) -> string, rows: nat, width: nat) returns (table: Raw)
    ensures table == Listing(BoxesOf(l, shown, rows, width))
  {
    table := [];
    var r := 0;
    while r < rows
      invariant 0 <= r <= rows
      invariant table == Listing(BoxesOf(l, shown, rows, width))[..r]
    {
      var cells := RenderRow(l, shown, r + 1, width);
      table := table + [cells];
      r := r + 1;
    }
  }

  /** Everything about one rendered cell, by its place in the rendering. */
  lemma TileFacts(merges: seq<Merge>, shown: (nat, nat) -> string, rows: nat, columns: nat, width: nat, a: nat, b: nat)
    requires Renderable(merges) && 1 <= width <= columns
    requires Fits(merges, rows, columns, width)
    requires IsTile(BoxesOf(LayoutOf(merges, rows, columns), shown, rows, width), a, b)
    ensures var l := LayoutOf(merges, rows, columns);
            var box := BoxesOf(l, shown, rows, width)[a][b];
            && box.top == a && box.height > 0 && box.width > 0 && a + box.height <= rows
               && box.left + box.width <= width
            && box.left == Emitted(l, a + 1, width)[b] - 1 && box.text == shown(a + 1, box.left + 1)
            && forall i: nat, j: nat :: i < rows && j < columns ==>
                 (Covers(box, i, j) <==> Anchor(merges, rows, columns, i + 1, j + 1, (a + 1, box.left + 1)))
  {
    hide LayoutOf, Anchor, Disjoint, Spans;
    var l := LayoutOf(merges, rows, columns);
    var c := Emitted(l, a + 1, width)[b];
    BoxCoversItsAnchored(merges, shown, rows, columns, width, a + 1, c, 0, 0);
    var box := BoxAt(l, shown, a + 1, c);
    forall i: nat, j: nat | i < rows && j < columns
      ensures Covers(box, i, j) <==> Anchor(merges, rows, columns, i + 1, j + 1, (a + 1, c))
    {
      BoxCoversItsAnchored(merges, shown, rows, columns, width, a + 1, c, i, j);
    }
  }

  /**
   The rendered cells tile the rows by width rectangle - no gaps, no overlaps, nothing
   sticking out - exactly when every range that starts in the rendered columns fits them.
   */
  lemma RenderingTilesExactly(merges: seq<Merge>, shown: (nat, nat) -> string, rows: nat, columns: nat, width: nat)
    requires Renderable(merges) && 1 <= rows && 1 <= width <= columns
    ensures Tiles(BoxesOf(LayoutOf(merges, rows, columns), shown, rows, width), rows, width) <==>
            Fits(merges, rows, columns, width)
  {
    hide LayoutOf, Disjoint, Spans, Tiles;
    if Fits(merges, rows, columns, width) {
      RenderingTiles(merges, shown, rows, columns, width);
    } else {
      var a :| IsSpan(merges, rows, columns, a) && merges[a].left <= width && Min(merges[a].right, columns) > width;
      MisfitSticksOut(merges, shown, rows, columns, width, a);
    }
  }

  lemma MisfitSticksOut(merges: seq<Merge>, shown: (nat, nat) -> string, rows: nat, columns: nat, width: nat, a: nat)
    requires Renderable(merges) && 1 <= rows && 1 <= width <= columns
    requires IsSpan(merges, rows, columns, a) && merges[a].left <= width && Min(merges[a].right, columns) > width
    ensures !Tiles(BoxesOf(LayoutOf(merges, rows, columns), shown, rows, width), rows, width)
  {
    hide LayoutOf, Disjoint;
    assert merges[a] in merges;
    var l, p := LayoutOf(merges, rows, columns), (merges[a].top, merges[a].left);
    assert StartsAt(merges, rows, columns, a, p) && Reaches(merges, rows, columns, a, p.0, p.1);
    SpanSize(merges, rows, columns, a, p);
    var q := AnchorIsEmitted(merges, rows, columns, p.0, p.1);
    AnchorIsUnique(merges, rows, columns, p.0, p.1, p, q);
    var b := EmittedAll(l, p.0, width, p.1);
    assert IsTile(BoxesOf(l, shown, rows, width), p.0 - 1, b);
  }

  lemma RenderingTiles(merges: seq<Merge>, shown: (nat, nat) -> string, rows: nat, columns: nat, width: nat)
    requires Renderable(merges) && 1 <= rows && 1 <= width <= columns
    requires Fits(merges, rows, columns, width)
    ensures Tiles(BoxesOf(LayoutOf(merges, rows, columns), shown, rows, width), rows, width)
  {
    hide LayoutOf, Anchor, Covers, Disjoint, Spans;
    var l := LayoutOf(merges, rows, columns);
    var t := BoxesOf(l, shown, rows, width);
    forall a, b | IsTile(t, a, b)
      ensures t[a][b].top == a && t[a][b].height > 0 && t[a][b].width > 0
      ensures a + t[a][b].height <= rows && t[a][b].left + t[a][b].width <= width
    {
      TileFacts(merges, shown, rows, columns, width, a, b);
    }
    forall i, j | 0 <= i < rows && 0 <= j < width
      ensures IsCovered(t, i, j)
    {
      PositionIsCovered(merges, shown, rows, columns, width, i, j);
    }
    forall i, j, a, b, a', b' | Owns(t, a, b, i, j) && Owns(t, a', b', i, j)
      ensures a == a' && b == b'
    {
      OwnerIsUnique(merges, shown, rows, columns, width, i, j, a, b, a', b');
    }
    forall a, b, b' | IsTile(t, a, b) && IsTile(t, a, b') && b < b'
      ensures t[a][b].left + t[a][b].width <= t[a][b'].left
    {
      TileFacts(merges, shown, rows, columns, width, a, b);
      TileFacts(merges, shown, rows, columns, width, a, b');
      if t[a][b].left + t[a][b].width > t[a][b'].left {
        CoversOwnCorner(t, a, b, b');
        assert false;
      }
    }
  }

  lemma CoversOwnCorner(t: Tiling, a: nat, b: nat, b': nat)
    requires IsTile(t, a, b) && IsTile(t, a, b')
    requires t[a][b].top == t[a][b'].top == a && t[a][b].height > 0 && t[a][b'].height > 0 && t[a][b'].width > 0
    requires t[a][b].left < t[a][b'].left < t[a][b].left + t[a][b].width
    ensures Owns(t, a, b, a, t[a][b'].left) && Owns(t, a, b', a, t[a][b'].left)
  {
  }

  lemma PositionIsCovered(merges: seq<Merge>, shown: (nat, nat) -> string, rows: nat, columns: nat, width: nat,
                          i: nat, j: nat)
    requires Renderable(merges) && i < rows && j < width <= columns
    requires Fits(merges, rows, columns, width)
    ensures IsCovered(BoxesOf(LayoutOf(merges, rows, columns), shown, rows, width), i, j)
  {
    hide LayoutOf, Anchor, Covers, Disjoint, Spans;
    var l := LayoutOf(merges, rows, columns);
    var p := AnchorIsEmitted(merges, rows, columns, i + 1, j + 1);
    var b := EmittedAll(l, p.0, width, p.1);
    TileFacts(merges, shown, rows, columns, width, p.0 - 1, b);
    assert Owns(BoxesOf(l, shown, rows, width), p.0 - 1, b, i, j);
  }

  lemma OwnerIsUnique(merges: seq<Merge>, shown: (nat, nat) -> string, rows: nat, columns: nat, width: nat,
                      i: int, j: int, a: nat, b: nat, a': nat, b': nat)
    requires Renderable(merges) && 1 <= width <= columns
    requires Fits(merges, rows, columns, width)
    requires Owns(BoxesOf(LayoutOf(merges, rows, columns), shown, rows, width), a, b, i, j)
    requires Owns(BoxesOf(LayoutOf(merges, rows, columns), shown, rows, width), a', b', i, j)
    ensures a == a' && b == b'
  {
    hide LayoutOf, Anchor, Disjoint, Spans;
    var l := LayoutOf(merges, rows, columns);
    TileFacts(merges, shown, rows, columns, width, a, b);
    TileFacts(merges, shown, rows, columns, width, a', b');
    AnchorIsUnique(merges, rows, columns, i + 1, j + 1, (a + 1, Emitted(l, a + 1, width)[b]),
        (a' + 1, Emitted(l, a' + 1, width)[b']));
  }

  /**
   Reading the rendered table back: every position of the window shows the content of the
   range over it, or its own.
   */
  lemma RenderedTableReadsBack(merges: seq<Merge>, shown: (nat, nat) -> string, rows: nat, columns: nat, width: nat,
                               r: nat, c: nat, p: Spot)
    requires Renderable(merges) && 1 <= r <= rows && 1 <= c <= width <= columns
    requires Fits(merges, rows, columns, width)
    requires Anchor(merges, rows, columns, r, c, p)
    ensures var table := Parse(Listing(BoxesOf(LayoutOf(merges, rows, columns), shown, rows, width)));
            && table.columns == width && Rectangular(table.grid, rows, width)
            && table.grid[r - 1][c - 1] == shown(p.0, p.1)
  {
    hide LayoutOf, Anchor, Covers, Disjoint, Spans, Parse, Listing;
    var l := LayoutOf(merges, rows, columns);
    var t := BoxesOf(l, shown, rows, width);
    RenderingTiles(merges, shown, rows, columns, width);
    ParseRecoversTiling(t, rows, width);
    assert IsCovered(t, r - 1, c - 1);
    var a, b :| Owns(t, a, b, r - 1, c - 1);
    TileFacts(merges, shown, rows, columns, width, a, b);
    AnchorIsUnique(merges, rows, columns, r, c, p, (a + 1, t[a][b].left + 1));
  }

  /**
   The preview as it is rendered: at the width the code computes, the cells tile the
   rectangle if and only if no range with a blank corner sticks out, and then every
   position shows the content of the range over it, or its own.
   */
  lemma PreviewTilesExactly(merges: seq<Merge>, shown: (nat, nat) -> string, rows: nat, columns: nat, width: nat)
    requires Renderable(merges) && 1 <= rows && 1 <= columns
    requires IsRenderedWidth(shown, rows, columns, LayoutOf(merges, rows, columns).spans, width)
    ensures Tiles(BoxesOf(LayoutOf(merges, rows, columns), shown, rows, width), rows, width) <==>
            forall a :: !HiddenOverhang(merges, shown, rows, columns, width, a)
  {
    hide LayoutOf, BoxesOf, Tiles, Fits, Renderable, HiddenOverhang, Enough;
    VisibleRangesFit(merges, shown, rows, columns, width);
    RenderingTilesExactly(merges, shown, rows, columns, width);
  }

  /** One sheet of the preview: layout, width and rows, from the merged ranges and the content. */
  method PreviewSheet(merges: seq<Merge>, shown: (nat, nat) -> string, rows: nat, columns: nat)
    returns (table: Raw, width: nat)
    requires Renderable(merges)
    ensures rows == 0 || columns == 0 ==> width == 0
    ensures rows > 0 && columns > 0 ==>
              IsRenderedWidth(shown, rows, columns, LayoutOf(merges, rows, columns).spans, width)
    ensures table == Listing(BoxesOf(LayoutOf(merges, rows, columns), shown, rows, width))
    ensures rows > 0 && columns > 0 && (forall a :: !HiddenOverhang(merges, shown, rows, columns, width, a)) ==>
              && Rectangular(Parse(table).grid, rows, width)
              && forall r: nat, c: nat, p: Spot ::
                   1 <= r <= rows && 1 <= c <= width && Anchor(merges, rows, columns, r, c, p) ==>
                     Parse(table).grid[r - 1][c - 1] == shown(p.0, p.1)
  {
    var l := XlsxMergeSpans(merges, rows, columns);
    SpansAreProper(merges, rows, columns);
    hide LayoutOf, BoxesOf, Disjoint, HiddenOverhang, Parse, Listing, Enough, Anchor, Fits;
    width := RenderedColumns(shown, rows, columns, l.spans);
    table := RenderTable(l, shown, rows, width);
    if rows > 0 && columns > 0 && forall a :: !HiddenOverhang(merges, shown, rows, columns, width, a) {
      VisibleRangesFit(merges, shown, rows, columns, width);
      var p := AnchorIsEmitted(merges, rows, columns, 1, 1);
      RenderedTableReadsBack(merges, shown, rows, columns, width, 1, 1, p);
      forall r: nat, c: nat, p: Spot | 1 <= r <= rows && 1 <= c <= width && Anchor(merges, rows, columns, r, c, p)
        ensures Parse(table).grid[r - 1][c - 1] == shown(p.0, p.1)
      {
        RenderedTableReadsBack(merges, shown, rows, columns, width, r, c, p);
      }
    }
  }

  lemma {:induction false} SpansAreProper(merges: seq<Merge>, rows: nat, columns: nat)
    requires forall g :: g in merges ==> WellFormed(g)
    ensures var spans := LayoutOf(merges, rows, columns).spans;
            forall p :: p in spans ==> p.0 >= 1 && p.1 >= 1 && spans[p].0 >= 1 && spans[p].1 >= 1
  {
    if merges == [] {
    } else {
      assert merges[|merges| - 1] in merges;
      SpansAreProper(merges[..|merges| - 1], rows, columns);
    }
  }

  /**
   Two columns, the only content at the left of the second row, and an empty range over the
   first row: the sheet is rendered one column wide, and the range is two columns wide.
   */
  lemma EmptyHeadingSticksOut()
    ensures var merges, shown := [Merge(1, 1, 1, 2)], (r: nat, c: nat) => if r == 2 && c == 1 then "x" else "";
            && Renderable(merges)
            && IsRenderedWidth(shown, 2, 2, LayoutOf(merges, 2, 2).spans, 1)
            && !Tiles(BoxesOf(LayoutOf(merges, 2, 2), shown, 2, 1), 2, 1)
  {
    var merges, shown := [Merge(1, 1, 1, 2)], (r: nat, c: nat) => if r == 2 && c == 1 then "x" else "";
    assert merges[..0] == [];
    assert LayoutOf(merges, 2, 2).spans == map[(1, 1) := (1, 2)];
    assert HiddenOverhang(merges, shown, 2, 2, 1, 0);
    PreviewTilesExactly(merges, shown, 2, 2, 1);
  }
}
