/**
 What extracting a table comes to, said of its parsed grid: where a composite table is cut, what
 each piece is, and how the outcomes of the pieces are put together.
 */
module TableCuts {
  import opened Catalogue
  import opened TableGrid
  import opened CompositeTables

  /** Row `r` announces a quota table. */
  predicate Announces(grid: Grid, r: nat)
    requires r < |grid|
  {
    |grid[r]| > 0 && grid[r][0] == "定额编号"
  }

  /** `cuts` are the rows that do, from top to bottom. */
  ghost predicate CutsAre(grid: Grid, cuts: seq<nat>) {
    && (forall a, b :: 0 <= a < b < |cuts| ==> cuts[a] < cuts[b])
    && (forall k :: 0 <= k < |cuts| ==> cuts[k] < |grid| && Announces(grid, cuts[k]))
    && (forall r: nat :: r < |grid| && Announces(grid, r) ==> r in cuts)
  }

  lemma QuotaRowsAre(grid: Grid)
    ensures CutsAre(grid, QuotaRows(grid))
  {
    forall r: nat | r < |grid| && Announces(grid, r)
      ensures r in QuotaRows(grid)
    {
      QuotaRowsComplete(grid, r);
    }
  }

  /** All the rows of some outcomes. */
  function RowsOfAll<R, I>(found: seq<Outcome<R, I>>): seq<R> {
    if found == [] then [] else RowsOfAll(found[..|found| - 1]) + found[|found| - 1].rows
  }

  /** The first issue of some outcomes, if any has one. */
  ghost predicate IsFirstIssue<R(!new), I(!new)>(found: seq<Outcome<R, I>>, issue: Option<I>) {
    if issue == None then forall k :: 0 <= k < |found| ==> found[k].issue == None
    else exists k :: 0 <= k < |found| && found[k].issue == issue && forall j :: 0 <= j < k ==> found[j].issue == None
  }

  /** Piece `k` is a table whose grid is the rows from cut `k` to the next one. */
  ghost predicate IsPiece(p: Parsed, cuts: seq<nat>, k: nat, piece: Raw)
    requires k < |cuts| && CutsAre(p.grid, cuts)
  {
    && Parse(piece).columns == p.columns
    && Parse(piece).grid == p.grid[cuts[k]..if k + 1 < |cuts| then cuts[k + 1] else |p.grid|]
  }

  /** The first pieces, and what is extracted from each. */
  ghost predicate PiecesRight<R(!new), I(!new)>(p: Parsed, cuts: seq<nat>, leaf: (Raw, Parsed) -> Outcome<R, I>,
                                                pieces: seq<Raw>, found: seq<Outcome<R, I>>) {
    && CutsAre(p.grid, cuts) && |pieces| == |found| <= |cuts|
    && forall k :: 0 <= k < |pieces| ==>
         IsPiece(p, cuts, k, pieces[k]) && found[k] == leaf(pieces[k], Parse(pieces[k]))
  }

  lemma PiecesNext<R(!new), I(!new)>(p: Parsed, cuts: seq<nat>, leaf: (Raw, Parsed) -> Outcome<R, I>,
                                     pieces: seq<Raw>, found: seq<Outcome<R, I>>, piece: Raw)
    requires PiecesRight(p, cuts, leaf, pieces, found) && |pieces| < |cuts| && IsPiece(p, cuts, |pieces|, piece)
    ensures PiecesRight(p, cuts, leaf, pieces + [piece], found + [leaf(piece, Parse(piece))])
  {
    hide Parse, CutsAre, IsPiece;
  }

  /** Small tables give nothing, single ones what is extracted from them, composite ones what their pieces give. */
  lemma ExtractIs<R(!new), I(!new)>(raw: Raw, leaf: (Raw, Parsed) -> Outcome<R, I>)
    returns (cuts: seq<nat>, pieces: seq<Raw>, found: seq<Outcome<R, I>>)
    ensures var p, r := Parse(raw), Extract(raw, leaf);
            && CutsAre(p.grid, cuts) && |pieces| == |found|
            && (|p.grid| == 0 || p.columns <= 3 ==> r == Outcome([], None))
            && (|p.grid| > 0 && p.columns > 3 && |cuts| <= 1 ==> r == leaf(raw, p))
            && (|p.grid| > 0 && p.columns > 3 && |cuts| > 1 ==>
                  && |pieces| == |cuts| && PiecesRight(p, cuts, leaf, pieces, found)
                  && r.rows == RowsOfAll(found) && IsFirstIssue(found, r.issue))
  {
    hide Parse, Markup, QuotaRows, Extract;
    var p := Parse(raw);
    cuts := QuotaRows(p.grid);
    QuotaRowsAre(p.grid);
    CasesOf(raw, leaf);
    pieces, found := [], [];
    if !TooSmall(p) && |cuts| > 1 {
      hide *;
      PiecesAreLeaves(raw, leaf, |QuotaRows(Parse(raw).grid)|);
      pieces, found := LeavesAre(raw, leaf, |QuotaRows(Parse(raw).grid)|);
    }
  }

  lemma CasesOf<R(!new), I(!new)>(raw: Raw, leaf: (Raw, Parsed) -> Outcome<R, I>)
    ensures var p := Parse(raw);
            && (TooSmall(p) ==> Extract(raw, leaf) == Outcome([], None))
            && (!TooSmall(p) && |QuotaRows(p.grid)| <= 1 ==> Extract(raw, leaf) == leaf(raw, p))
            && (!TooSmall(p) && |QuotaRows(p.grid)| > 1 ==>
                  Extract(raw, leaf) == ExtractPieces(raw, leaf, |QuotaRows(p.grid)|))
  {
    hide Parse, QuotaRows, ExtractPieces, TooSmall;
  }

  lemma {:induction false} LeavesAre<R(!new), I(!new)>(raw: Raw, leaf: (Raw, Parsed) -> Outcome<R, I>, n: nat)
    returns (pieces: seq<Raw>, found: seq<Outcome<R, I>>)
    requires !TooSmall(Parse(raw)) && n <= |QuotaRows(Parse(raw).grid)|
    ensures |pieces| == |found| == n && PiecesRight(Parse(raw), QuotaRows(Parse(raw).grid), leaf, pieces, found)
    ensures var r := LeafOutcomes(raw, leaf, n); r.rows == RowsOfAll(found) && IsFirstIssue(found, r.issue)
  {
    hide *;
    if n == 0 {
      pieces, found := [], [];
      NoPieces(raw, leaf);
    } else {
      pieces, found := LeavesAre(raw, leaf, n - 1);
      var piece := Markup(Piece(Parse(raw).grid, n - 1));
      var one := leaf(piece, Parse(piece));
      PieceIs(raw, n - 1);
      LeafNext(raw, leaf, n);
      FirstIssueNext(found, LeafOutcomes(raw, leaf, n - 1).issue, one);
      RowsNext(found, one);
      PiecesNext(Parse(raw), QuotaRows(Parse(raw).grid), leaf, pieces, found, piece);
      pieces, found := pieces + [piece], found + [one];
    }
  }

  lemma NoPieces<R(!new), I(!new)>(raw: Raw, leaf: (Raw, Parsed) -> Outcome<R, I>)
    ensures PiecesRight(Parse(raw), QuotaRows(Parse(raw).grid), leaf, [], [])
    ensures LeafOutcomes(raw, leaf, 0).rows == RowsOfAll<R, I>([])
    ensures IsFirstIssue<R, I>([], LeafOutcomes(raw, leaf, 0).issue)
  {
    hide Parse, QuotaRows, CutsAre;
    QuotaRowsAre(Parse(raw).grid);
  }

  lemma LeafNext<R(!new), I(!new)>(raw: Raw, leaf: (Raw, Parsed) -> Outcome<R, I>, n: nat)
    requires 0 < n <= |QuotaRows(Parse(raw).grid)|
    ensures var piece, before := Markup(Piece(Parse(raw).grid, n - 1)), LeafOutcomes(raw, leaf, n - 1);
            var one := leaf(piece, Parse(piece));
            LeafOutcomes(raw, leaf, n)
            == Outcome(before.rows + one.rows, if before.issue.Some? then before.issue else one.issue)
  {
    hide Parse, QuotaRows, Markup, Piece;
  }

  lemma RowsNext<R, I>(found: seq<Outcome<R, I>>, one: Outcome<R, I>)
    ensures RowsOfAll(found + [one]) == RowsOfAll(found) + one.rows
  {
    assert (found + [one])[..|found|] == found;
  }

  lemma PieceIs(raw: Raw, k: nat)
    requires !TooSmall(Parse(raw)) && k < |QuotaRows(Parse(raw).grid)|
    ensures CutsAre(Parse(raw).grid, QuotaRows(Parse(raw).grid))
    ensures IsPiece(Parse(raw), QuotaRows(Parse(raw).grid), k, Markup(Piece(Parse(raw).grid, k)))
  {
    hide Parse, QuotaRows, Markup, CutsAre;
    QuotaRowsAre(Parse(raw).grid);
    PieceParses(raw, k);
  }

  lemma FirstIssueNext<R(!new), I(!new)>(found: seq<Outcome<R, I>>, issue: Option<I>, one: Outcome<R, I>)
    requires IsFirstIssue(found, issue)
    ensures IsFirstIssue(found + [one], if issue.Some? then issue else one.issue)
  {
    var all := found + [one];
    if issue.Some? {
      var k :| 0 <= k < |found| && found[k].issue == issue && forall j :: 0 <= j < k ==> found[j].issue == None;
      assert all[k].issue == issue;
    } else if one.issue.Some? {
      assert all[|found|].issue == one.issue;
    }
  }
}
