/**
 What a parsed table shows, for any rows of cells, said of the cells alone: where each placed
 cell starts, which positions it reaches, and whose text a position shows when several cells
 reach it or none does.
 */
module CellReach {
  import opened Catalogue
  import opened TableGrid

  /** Cell k of row r has been placed, and reaches position (i, j). */
  ghost predicate Reaches(raw: Raw, starts: seq<seq<nat>>, r: int, k: int, i: int, j: int) {
    && 0 <= r < |raw| && r < |starts| && 0 <= k < |raw[r]| && k < |starts[r]|
    && var cell, start := raw[r][k], starts[r][k];
       if i == r then start <= j < start + cell.colspan || j == start
       else r < i < r + cell.rowspan && start <= j < start + cell.colspan
  }

  /** Read before: in a row above, or further left in the same row. */
  predicate ReadBefore(r: int, k: int, r': int, k': int) {
    r < r' || (r == r' && k < k')
  }

  /**
   Of all cells that reach (i, j), cell k of row r is the one shown there: the last one of the
   position's own row, or, if that row has none, the first one read of the rows above.
   */
  ghost predicate Wins(raw: Raw, starts: seq<seq<nat>>, r: int, k: int, i: int, j: int) {
    && Reaches(raw, starts, r, k, i, j)
    && forall r', k' :: Reaches(raw, starts, r', k', i, j) && (r' != r || k' != k) ==>
         if r == i then ReadBefore(r', k', r, k) else r' != i && ReadBefore(r, k, r', k')
  }

  /** What stands at (i, j), in slots written so far, and where its text comes from. */
  ghost predicate SlotIsWinner(o: Option<string>, raw: Raw, starts: seq<seq<nat>>, i: int, j: int) {
    match o
    case None => forall r, k :: !Reaches(raw, starts, r, k, i, j)
    case Some(text) => exists r, k :: Wins(raw, starts, r, k, i, j) && raw[r][k].text == text
  }

  ghost predicate AllWinners(g: Slots, raw: Raw, starts: seq<seq<nat>>) {
    forall i, j :: 0 <= i < |g| && 0 <= j < |g[i]| ==> SlotIsWinner(g[i][j], raw, starts, i, j)
  }

  /** Some cell read before cell k of row r reaches (i, j). */
  ghost predicate TakenBefore(raw: Raw, starts: seq<seq<nat>>, r: int, k: int, i: int, j: int) {
    exists r', k' :: ReadBefore(r', k', r, k) && Reaches(raw, starts, r', k', i, j)
  }

  /** Where cell k of row r is looked for a place: behind the cell before it. */
  function From(raw: Raw, starts: seq<seq<nat>>, r: nat, k: nat): nat
    requires r < |raw| && r < |starts| && k <= |starts[r]| <= |raw[r]|
  {
    if k == 0 then 0 else starts[r][k - 1] + raw[r][k - 1].colspan
  }

  /** Cell k of row r starts at the first position, from there on, that no cell read before it reaches. */
  ghost predicate StartsFirstFree(raw: Raw, starts: seq<seq<nat>>, m: nat, r: nat, k: nat) {
    && r < |raw| && r < |starts| && k < |starts[r]| <= |raw[r]|
    && From(raw, starts, r, k) <= starts[r][k] < m
    && !TakenBefore(raw, starts, r, k, r, starts[r][k])
    && forall j :: From(raw, starts, r, k) <= j < starts[r][k] ==> TakenBefore(raw, starts, r, k, r, j)
  }

  /** If not all cells of row r have been placed, there was no such position for the next one. */
  ghost predicate RestFindsNone(raw: Raw, starts: seq<seq<nat>>, m: nat, r: nat) {
    && r < |raw| && r < |starts| && |starts[r]| <= |raw[r]|
    && (|starts[r]| < |raw[r]| ==>
          forall j :: From(raw, starts, r, |starts[r]|) <= j < m ==> TakenBefore(raw, starts, r, |starts[r]|, r, j))
  }

  /**
   For any rows of cells, at every position of the grid: the text of the winning cell if any
   placed cell reaches it, else nothing.
   */
  lemma EveryPosition(raw: Raw, i: nat, j: nat)
    requires i < |Parse(raw).grid| && j < Parse(raw).columns
    ensures var p := Parse(raw);
            && |p.grid| == |raw| && |p.grid[i]| == p.columns
            && ((forall r, k :: !Reaches(raw, p.starts, r, k, i, j)) ==> p.grid[i][j] == "")
            && ((exists r, k :: Reaches(raw, p.starts, r, k, i, j)) ==>
                  exists r, k :: Wins(raw, p.starts, r, k, i, j) && p.grid[i][j] == raw[r][k].text)
  {
    var m := Width(raw[0]);
    hide Rows, SlotIsWinner, Reaches, Wins, RowIsPlaced;
    AllRowsRead(raw, m, |raw|);
    var g := Rows(Empty(|raw|, m), raw, |raw|).0;
    assert SlotIsWinner(g[i][j], raw, Parse(raw).starts, i, j);
    SlotShows(g[i][j], raw, Parse(raw).starts, i, j);
  }

  lemma SlotShows(o: Option<string>, raw: Raw, starts: seq<seq<nat>>, i: int, j: int)
    requires SlotIsWinner(o, raw, starts, i, j)
    ensures (forall r, k :: !Reaches(raw, starts, r, k, i, j)) ==> TextOf(o) == ""
    ensures (exists r, k :: Reaches(raw, starts, r, k, i, j)) ==>
              exists r, k :: Wins(raw, starts, r, k, i, j) && TextOf(o) == raw[r][k].text
  {
  }

  /** For any rows of cells: which are placed, and where. */
  lemma EveryStart(raw: Raw, r: nat)
    requires r < |Parse(raw).grid|
    ensures var p := Parse(raw);
            && |p.starts| == |raw| && RestFindsNone(raw, p.starts, p.columns, r)
            && forall k :: 0 <= k < |p.starts[r]| ==> StartsFirstFree(raw, p.starts, p.columns, r, k)
  {
    hide Rows, RestFindsNone, StartsFirstFree, AllWinners;
    var m := Width(raw[0]);
    AllRowsRead(raw, m, |raw|);
    assert RowIsPlaced(raw, Parse(raw).starts, m, r);
  }

  /** Without rows, or with a first row that spans nothing, there is no grid. */
  lemma NoGrid(raw: Raw)
    requires raw == [] || forall k :: 0 <= k < |raw[0]| ==> raw[0][k].colspan == 0
    ensures Parse(raw).grid == [] && Parse(raw).columns == 0 && Parse(raw).starts == []
  {
    if raw != [] {
      NoWidth(raw[0]);
    }
  }

  lemma {:induction false} NoWidth(cells: seq<Cell>)
    requires forall k :: 0 <= k < |cells| ==> cells[k].colspan == 0
    ensures Width(cells) == 0
  {
    if cells == [] {
    } else {
      NoWidth(cells[..|cells| - 1]);
    }
  }

  // ------------------------------------------------------------ one cell more

  ghost predicate Agree(starts: seq<seq<nat>>, starts': seq<seq<nat>>, r: nat, k: nat) {
    && r < |starts| && r < |starts'| && starts[..r] == starts'[..r]
    && k <= |starts[r]| && k <= |starts'[r]| && starts[r][..k] == starts'[r][..k]
  }

  /** What is reached before a cell depends only on the cells before it. */
  lemma TakenSame(raw: Raw, starts: seq<seq<nat>>, starts': seq<seq<nat>>, r: nat, k: nat, i: int, j: int)
    requires Agree(starts, starts', r, k)
    ensures TakenBefore(raw, starts, r, k, i, j) <==> TakenBefore(raw, starts', r, k, i, j)
  {
    forall r', k' | ReadBefore(r', k', r, k)
      ensures Reaches(raw, starts, r', k', i, j) <==> Reaches(raw, starts', r', k', i, j)
    {
      if 0 <= r' < r {
        assert starts[..r][r'] == starts'[..r][r'];
      } else if r' == r && 0 <= k' < k {
        assert starts[r][..k][k'] == starts'[r][..k][k'];
      }
    }
  }

  lemma FirstFreeSame(raw: Raw, starts: seq<seq<nat>>, starts': seq<seq<nat>>, m: nat, r: nat, k: nat)
    requires StartsFirstFree(raw, starts, m, r, k)
    requires Agree(starts, starts', r, k + 1) && |starts'[r]| <= |raw[r]|
    ensures StartsFirstFree(raw, starts', m, r, k)
  {
    hide TakenBefore;
    assert forall k' :: 0 <= k' <= k ==> starts[r][k'] == starts[r][..k + 1][k'] == starts'[r][k'];
    assert starts[r][..k + 1][..k] == starts[r][..k] && starts'[r][..k + 1][..k] == starts'[r][..k];
    forall j: nat
      ensures TakenBefore(raw, starts, r, k, r, j) <==> TakenBefore(raw, starts', r, k, r, j)
    {
      TakenSame(raw, starts, starts', r, k, r, j);
    }
  }

  lemma RestSame(raw: Raw, starts: seq<seq<nat>>, starts': seq<seq<nat>>, m: nat, r: nat)
    requires r < |starts| && r < |starts'| && starts[..r + 1] == starts'[..r + 1] && RestFindsNone(raw, starts, m, r)
    ensures RestFindsNone(raw, starts', m, r)
  {
    hide TakenBefore;
    assert starts[r] == starts[..r + 1][r] == starts'[r];
    assert starts[..r + 1][..r] == starts[..r] && starts'[..r + 1][..r] == starts'[..r];
    forall j: nat
      ensures TakenBefore(raw, starts, r, |starts[r]|, r, j) <==> TakenBefore(raw, starts', r, |starts[r]|, r, j)
    {
      TakenSame(raw, starts, starts', r, |starts[r]|, r, j);
    }
  }

  /** Row r has been dealt with: its placed cells stand where they should, and the rest found no place. */
  ghost predicate RowIsPlaced(raw: Raw, starts: seq<seq<nat>>, m: nat, r: nat) {
    && r < |starts| && RestFindsNone(raw, starts, m, r)
    && forall k :: 0 <= k < |starts[r]| ==> StartsFirstFree(raw, starts, m, r, k)
  }

  lemma RowPlacedSame(raw: Raw, starts: seq<seq<nat>>, starts': seq<seq<nat>>, m: nat, r: nat)
    requires r < |starts| && r < |starts'| && starts[..r + 1] == starts'[..r + 1] && RowIsPlaced(raw, starts, m, r)
    ensures RowIsPlaced(raw, starts', m, r)
  {
    hide RestFindsNone, StartsFirstFree;
    RestSame(raw, starts, starts', m, r);
    RestWithin(raw, starts, m, r);
    assert starts[r] == starts[..r + 1][r] == starts'[r];
    assert starts[..r + 1][..r] == starts[..r] && starts'[..r + 1][..r] == starts'[..r];
    forall k | 0 <= k < |starts'[r]|
      ensures StartsFirstFree(raw, starts', m, r, k)
    {
      FirstFreeSame(raw, starts, starts', m, r, k);
    }
  }

  lemma RestWithin(raw: Raw, starts: seq<seq<nat>>, m: nat, r: nat)
    requires RestFindsNone(raw, starts, m, r)
    ensures r < |raw| && |starts[r]| <= |raw[r]|
  {
  }

  /** Placing one more cell adds just its own reach. */
  lemma ReachesMore(raw: Raw, done: seq<seq<nat>>, cur: seq<nat>, col: nat, r: int, k: int, i: int, j: int)
    requires |done| < |raw| && |cur| < |raw[|done|]|
    ensures var n, cell := |done|, raw[|done|][|cur|];
            Reaches(raw, done + [cur + [col]], r, k, i, j) <==>
            || Reaches(raw, done + [cur], r, k, i, j)
            || (r == n && k == |cur| && if i == n then col <= j < col + cell.colspan || j == col
                                        else n < i < n + cell.rowspan && col <= j < col + cell.colspan)
  {
    var n := |done|;
    assert (done + [cur])[n] == cur && (done + [cur + [col]])[n] == cur + [col];
    if 0 <= r < n {
      assert (done + [cur])[r] == (done + [cur + [col]])[r];
    }
  }

  lemma ReachedIsBefore(raw: Raw, done: seq<seq<nat>>, cur: seq<nat>, r: int, k: int, i: int, j: int)
    requires Reaches(raw, done + [cur], r, k, i, j)
    ensures ReadBefore(r, k, |done|, |cur|)
  {
  }

  /** A slot after one more cell has been written. */
  lemma SlotMore(o: Option<string>, raw: Raw, done: seq<seq<nat>>, cur: seq<nat>, col: nat, i: nat, j: nat)
    requires |done| < |raw| && |cur| < |raw[|done|]|
    requires SlotIsWinner(o, raw, done + [cur], i, j)
    ensures SlotIsWinner(Written(o, |done|, col, raw[|done|][|cur|], i, j), raw, done + [cur + [col]], i, j)
  {
    var n, k, starts, starts' := |done|, |cur|, done + [cur], done + [cur + [col]];
    var cell := raw[n][k];
    forall r', k'
      ensures var more := r' == n && k' == k && if i == n then col <= j < col + cell.colspan || j == col
                                                else n < i < n + cell.rowspan && col <= j < col + cell.colspan;
              Reaches(raw, starts', r', k', i, j) <==> Reaches(raw, starts, r', k', i, j) || more
      ensures Reaches(raw, starts, r', k', i, j) ==> ReadBefore(r', k', n, k)
    {
      ReachesMore(raw, done, cur, col, r', k', i, j);
      if Reaches(raw, starts, r', k', i, j) {
        ReachedIsBefore(raw, done, cur, r', k', i, j);
      }
    }
    if Written(o, n, col, cell, i, j) == Some(cell.text) && (i == n || o.None?) && Reaches(raw, starts', n, k, i, j) {
      assert Wins(raw, starts', n, k, i, j);
    } else if o.Some? {
      var r', k' :| Wins(raw, starts, r', k', i, j) && raw[r'][k'].text == o.value;
      assert Wins(raw, starts', r', k', i, j);
    }
  }

  // ------------------------------------------------------------------ the loops

  /** Expanding row |done|, after k of its cells. */
  ghost predicate CursorReads(s: Cursor, raw: Raw, done: seq<seq<nat>>, m: nat, k: nat) {
    var n, starts := |done|, done + [s.starts];
    && n < |raw| && Rectangular(s.slots, |raw|, m) && |s.starts| <= k <= |raw[n]|
    && AllWinners(s.slots, raw, starts)
    && (forall k' :: 0 <= k' < |s.starts| ==> StartsFirstFree(raw, starts, m, n, k'))
    && if s.full then |s.starts| < k && RestFindsNone(raw, starts, m, n)
       else |s.starts| == k && s.col == From(raw, starts, n, k)
  }

  /** A slot of the row is empty just if nothing before reaches it. */
  lemma FreeExactly(s: Cursor, raw: Raw, done: seq<seq<nat>>, m: nat, k: nat, j: nat)
    requires CursorReads(s, raw, done, m, k) && !s.full && j < m
    ensures |s.slots[|done|]| == m
    ensures s.slots[|done|][j].None? <==> !TakenBefore(raw, done + [s.starts], |done|, k, |done|, j)
  {
    hide Reaches, StartsFirstFree;
    var n, starts := |done|, done + [s.starts];
    assert SlotIsWinner(s.slots[n][j], raw, starts, n, j);
    if r', k' :| Reaches(raw, starts, r', k', n, j) {
      ReachedIsBefore(raw, done, s.starts, r', k', n, j);
    }
  }

  lemma StepReads(s: Cursor, raw: Raw, done: seq<seq<nat>>, m: nat, k: nat)
    requires CursorReads(s, raw, done, m, k) && |done| < |s.slots| && k < |raw[|done|]|
    ensures CursorReads(Step(s, |done|, raw[|done|][k]), raw, done, m, k + 1)
  {
    hide AllWinners, StartsFirstFree, TakenBefore;
    if !s.full {
      var n, starts := |done|, done + [s.starts];
      var col := NextFree(s.slots[n], s.col);
      forall j | 0 <= j < m
        ensures s.slots[n][j].None? <==> !TakenBefore(raw, starts, n, k, n, j)
      {
        FreeExactly(s, raw, done, m, k, j);
      }
      if col < m {
        PlaceReads(s, raw, done, m, k, col);
      }
    }
  }

  lemma PlaceReads(s: Cursor, raw: Raw, done: seq<seq<nat>>, m: nat, k: nat, col: nat)
    requires CursorReads(s, raw, done, m, k) && !s.full && k < |raw[|done|]| && s.col <= col < m
    requires !TakenBefore(raw, done + [s.starts], |done|, k, |done|, col)
    requires forall j :: s.col <= j < col ==> TakenBefore(raw, done + [s.starts], |done|, k, |done|, j)
    ensures var cell := raw[|done|][k];
            CursorReads(Cursor(Place(s.slots, |done|, col, cell), col + cell.colspan, s.starts + [col], false), raw,
                        done, m, k + 1)
  {
    hide Reaches, TakenBefore, SlotIsWinner, StartsFirstFree;
    var n, cell := |done|, raw[|done|][k];
    var starts, starts' := done + [s.starts], done + [s.starts + [col]];
    var g := Place(s.slots, n, col, cell);
    assert AllWinners(g, raw, starts') by {
      forall i, j | 0 <= i < |g| && 0 <= j < |g[i]|
        ensures SlotIsWinner(g[i][j], raw, starts', i, j)
      {
        SlotMore(s.slots[i][j], raw, done, s.starts, col, i, j);
      }
    }
    hide AllWinners;
    StartsMore(s, raw, done, m, k, col);
  }

  lemma StartsMore(s: Cursor, raw: Raw, done: seq<seq<nat>>, m: nat, k: nat, col: nat)
    requires CursorReads(s, raw, done, m, k) && !s.full && k < |raw[|done|]| && s.col <= col < m
    requires !TakenBefore(raw, done + [s.starts], |done|, k, |done|, col)
    requires forall j :: s.col <= j < col ==> TakenBefore(raw, done + [s.starts], |done|, k, |done|, j)
    ensures var starts' := done + [s.starts + [col]];
            forall k' :: 0 <= k' <= k ==> StartsFirstFree(raw, starts', m, |done|, k')
  {
    hide TakenBefore, AllWinners;
    var n, starts, starts' := |done|, done + [s.starts], done + [s.starts + [col]];
    assert starts[n] == s.starts && starts'[n] == s.starts + [col] && starts[..n] == done == starts'[..n];
    forall k' | 0 <= k' < k
      ensures StartsFirstFree(raw, starts', m, n, k')
    {
      assert starts[n][..k' + 1] == starts'[n][..k' + 1];
      FirstFreeSame(raw, starts, starts', m, n, k');
    }
    assert starts[n][..k] == starts'[n][..k];
    forall j: nat
      ensures TakenBefore(raw, starts, n, k, n, j) <==> TakenBefore(raw, starts', n, k, n, j)
    {
      TakenSame(raw, starts, starts', n, k, n, j);
    }
  }

  lemma {:induction false} StepsRead(g: Slots, raw: Raw, done: seq<seq<nat>>, m: nat, k: nat)
    requires |done| < |raw| && |done| < |g| && k <= |raw[|done|]|
    requires CursorReads(Cursor(g, 0, [], false), raw, done, m, 0)
    ensures CursorReads(Steps(g, |done|, raw[|done|][..k]), raw, done, m, k)
  {
    hide CursorReads, Step;
    var cells := raw[|done|][..k];
    if k == 0 {
      assert cells == [];
    } else {
      StepsRead(g, raw, done, m, k - 1);
      assert cells[..k - 1] == raw[|done|][..k - 1];
      StepReads(Steps(g, |done|, cells[..k - 1]), raw, done, m, k - 1);
    }
  }

  /** After all rows that have been expanded. */
  ghost predicate RowsRead(g: Slots, raw: Raw, starts: seq<seq<nat>>, m: nat) {
    && |starts| <= |raw| && Rectangular(g, |raw|, m) && AllWinners(g, raw, starts)
    && forall r :: 0 <= r < |starts| ==> RowIsPlaced(raw, starts, m, r)
  }

  lemma StartRow(g: Slots, raw: Raw, done: seq<seq<nat>>, m: nat)
    requires RowsRead(g, raw, done, m) && |done| < |raw|
    ensures CursorReads(Cursor(g, 0, [], false), raw, done, m, 0)
  {
    hide RowIsPlaced;
    forall r, k, i, j
      ensures Reaches(raw, done + [[]], r, k, i, j) <==> Reaches(raw, done, r, k, i, j)
    {
      if 0 <= r < |done| {
        assert (done + [[]])[r] == done[r];
      }
    }
    hide Reaches;
    forall i, j | 0 <= i < |g| && 0 <= j < |g[i]|
      ensures SlotIsWinner(g[i][j], raw, done + [[]], i, j)
    {
      SlotSame(g[i][j], raw, done, done + [[]], i, j);
    }
  }

  lemma SlotSame(o: Option<string>, raw: Raw, starts: seq<seq<nat>>, starts': seq<seq<nat>>, i: int, j: int)
    requires SlotIsWinner(o, raw, starts, i, j)
    requires forall r, k :: Reaches(raw, starts, r, k, i, j) <==> Reaches(raw, starts', r, k, i, j)
    ensures SlotIsWinner(o, raw, starts', i, j)
  {
    if o.Some? {
      var r, k :| Wins(raw, starts, r, k, i, j) && raw[r][k].text == o.value;
      assert Wins(raw, starts', r, k, i, j);
    }
  }

  lemma EndRow(s: Cursor, raw: Raw, done: seq<seq<nat>>, m: nat)
    requires |done| < |raw| && CursorReads(s, raw, done, m, |raw[|done|]|)
    requires forall r :: 0 <= r < |done| ==> RowIsPlaced(raw, done, m, r)
    ensures RowsRead(s.slots, raw, done + [s.starts], m)
  {
    hide AllWinners, StartsFirstFree, TakenBefore;
    var n, starts := |done|, done + [s.starts];
    assert starts[n] == s.starts;
    assert RowIsPlaced(raw, starts, m, n);
    forall r | 0 <= r < n
      ensures RowIsPlaced(raw, starts, m, r)
    {
      assert starts[..r + 1] == done[..r + 1];
      RowPlacedSame(raw, done, starts, m, r);
    }
  }

  lemma {:induction false} AllRowsRead(raw: Raw, m: nat, n: nat)
    requires n <= |raw|
    ensures var s := Rows(Empty(|raw|, m), raw, n);
            |s.1| == n && RowsRead(s.0, raw, s.1, m)
  {
    if n == 0 {
      NothingRead(raw, m);
    } else {
      hide RowsRead, CursorReads, Steps, Empty, RowIsPlaced;
      AllRowsRead(raw, m, n - 1);
      var (g, done) := Rows(Empty(|raw|, m), raw, n - 1);
      StartRow(g, raw, done, m);
      StepsRead(g, raw, done, m, |raw[n - 1]|);
      assert raw[n - 1][..|raw[n - 1]|] == raw[n - 1];
      RowsPlaced(g, raw, done, m);
      EndRow(Steps(g, n - 1, raw[n - 1]), raw, done, m);
    }
  }

  lemma NothingRead(raw: Raw, m: nat)
    ensures RowsRead(Empty(|raw|, m), raw, [], m)
  {
  }

  lemma RowsPlaced(g: Slots, raw: Raw, starts: seq<seq<nat>>, m: nat)
    requires RowsRead(g, raw, starts, m)
    ensures forall r :: 0 <= r < |starts| ==> RowIsPlaced(raw, starts, m, r)
  {
  }
}
