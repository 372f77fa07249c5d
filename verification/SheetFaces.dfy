/**
 What merged ranges make of a sheet, said cell by cell: which cells are left out, how far each
 of the others reaches, and what the rendered rows hold.
 */
module SheetFaces {
  import opened Catalogue
  import opened TableGrid
  import opened MergedCells

  /** Cell (r, c) of the window lies in range `a`. */
  ghost predicate LiesIn(merges: seq<Merge>, a: int, r: nat, c: nat) {
    && 0 <= a < |merges|
    && merges[a].top <= r && r <= merges[a].bottom && merges[a].left <= c && c <= merges[a].right
  }

  /** Range `a` has its top-left cell at (r, c). */
  ghost predicate CornerAt(merges: seq<Merge>, a: int, r: nat, c: nat) {
    0 <= a < |merges| && merges[a].top == r && merges[a].left == c
  }

  /** How many cells from `first` to `last` there are up to `limit`. */
  function Reach(first: nat, last: nat, limit: nat): int {
    1 + (if last < limit then last else limit) - first
  }

  /** A cell of the window is left out just if it lies in a range that starts in another cell. */
  lemma LeftOutAre(merges: seq<Merge>, rows: nat, columns: nat, r: nat, c: nat)
    requires (forall g :: g in merges ==> WellFormed(g)) && r <= rows && c <= columns
    ensures (r, c) in LayoutOf(merges, rows, columns).covered <==>
            exists a :: LiesIn(merges, a, r, c) && !CornerAt(merges, a, r, c)
  {
    SkippedExact(merges, rows, columns, r, c);
    if a :| LiesIn(merges, a, r, c) && !CornerAt(merges, a, r, c) {
      assert Reaches(merges, rows, columns, a, r, c);
    }
    if a :| Reaches(merges, rows, columns, a, r, c) && (r, c) != (merges[a].top, merges[a].left) {
      assert LiesIn(merges, a, r, c) && !CornerAt(merges, a, r, c);
    }
  }

  /** A corner in the window reaches as far as its range does inside the window; any other cell is by itself. */
  lemma SizesAre(merges: seq<Merge>, rows: nat, columns: nat, r: nat, c: nat)
    requires Renderable(merges) && r <= rows && c <= columns
    ensures var size := SpanAt(LayoutOf(merges, rows, columns), r, c);
            && (forall a :: CornerAt(merges, a, r, c) ==>
                  size.0 == Reach(r, merges[a].bottom, rows) && size.1 == Reach(c, merges[a].right, columns))
            && ((forall a :: !CornerAt(merges, a, r, c)) ==> size == (1, 1))
            && ((r, c) in LayoutOf(merges, rows, columns).spans <==> size != (1, 1))
  {
    var p := (r, c);
    SpansExact(merges, rows, columns, p);
    forall a | CornerAt(merges, a, r, c)
      ensures SpanAt(LayoutOf(merges, rows, columns), r, c).0 == Reach(r, merges[a].bottom, rows)
      ensures SpanAt(LayoutOf(merges, rows, columns), r, c).1 == Reach(c, merges[a].right, columns)
    {
      CornerSize(merges, rows, columns, a, r, c);
    }
    if b :| StartsAt(merges, rows, columns, b, p) {
      assert CornerAt(merges, b, r, c);
      SpanSize(merges, rows, columns, b, p);
    }
  }

  /** Only corners in the window have a size of their own. */
  lemma SizedAreInside(merges: seq<Merge>, rows: nat, columns: nat, r: nat, c: nat)
    requires Renderable(merges) && (r, c) in LayoutOf(merges, rows, columns).spans
    ensures r <= rows && c <= columns && exists a :: CornerAt(merges, a, r, c)
  {
    SpansExact(merges, rows, columns, (r, c));
    var a :| StartsAt(merges, rows, columns, a, (r, c));
    assert CornerAt(merges, a, r, c);
  }

  lemma CornerSize(merges: seq<Merge>, rows: nat, columns: nat, a: int, r: nat, c: nat)
    requires Renderable(merges) && r <= rows && c <= columns && CornerAt(merges, a, r, c)
    ensures var size := SpanAt(LayoutOf(merges, rows, columns), r, c);
            size.0 == Reach(r, merges[a].bottom, rows) && size.1 == Reach(c, merges[a].right, columns)
  {
    var p := (r, c);
    assert merges[a] in merges;
    SpansExact(merges, rows, columns, p);
    hide LayoutOf, Disjoint;
    if StartsAt(merges, rows, columns, a, p) {
      SpanSize(merges, rows, columns, a, p);
    } else if b :| StartsAt(merges, rows, columns, b, p) {
      OneCorner(merges, a, b, r, c);
    }
  }

  lemma OneCorner(merges: seq<Merge>, a: int, b: int, r: nat, c: nat)
    requires Renderable(merges) && CornerAt(merges, a, r, c) && CornerAt(merges, b, r, c)
    ensures a == b
  {
    assert merges[a] in merges && merges[b] in merges;
  }

  /** The other reader's ranges, counted from 0 and without their ends, hold the same cells. */
  lemma ZeroRangeIs(z: ZeroMerge, r: nat, c: nat)
    requires r > 0 && c > 0
    ensures Holds(FromZero(z), r, c) <==> z.rowStart <= r - 1 < z.rowEnd && z.colStart <= c - 1 < z.colEnd
    ensures r - 1 == z.rowStart && c - 1 == z.colStart <==> (FromZero(z).top, FromZero(z).left) == (r, c)
  {
  }

  /** The cells of a rendered row: one for each column that is not left out, in order, with text and size. */
  lemma RowIs(l: Layout, shown: (nat, nat) -> string, r: nat, width: nat) returns (cols: seq<nat>)
    requires r >= 1
    ensures var cells := CellsOf(BoxesOfRow(l, shown, r, width));
            && |cells| == |cols| && (forall k, m :: 0 <= k < m < |cols| ==> cols[k] < cols[m])
            && (forall k :: 0 <= k < |cols| ==> 1 <= cols[k] <= width && (r, cols[k]) !in l.covered)
            && (forall c: nat :: 1 <= c <= width && (r, c) !in l.covered ==> c in cols)
            && forall k :: 0 <= k < |cells| ==>
                 && cells[k].text == shown(r, cols[k])
                 && (if (r, cols[k]) in l.spans
                     then (cells[k].rowspan, cells[k].colspan) == l.spans[(r, cols[k])]
                     else cells[k].rowspan == cells[k].colspan == 1)
  {
    cols := Emitted(l, r, width);
    forall c: nat | 1 <= c <= width && (r, c) !in l.covered
      ensures c in cols
    {
      var k := EmittedAll(l, r, width, c);
    }
  }
}
