/**
 Tables that run over a page break. The first part of a table is emitted as one block of
 rows per project; a continuation found later is spliced into the flat row list, before
 the management-fee row of its project's block, while a map from project to row index is
 kept correct and the project's verification total is raised. Money is in cents.
 */
module CrossPageJoin {
  import opened Catalogue
  import opened Materials

  const QUOTA := "定"
  const HEADING := "段"
  const SUMMARY := "综"
  const MANAGEMENT := "企业管理费"

  // `value` is the verification column; "" is `None`.
  datatype Row = Row(kind: string, pid: string, name: string, value: Option<int>)

  predicate IsQuota(r: Row) { r.kind == QUOTA }

  predicate IsBlank(r: Row) { r.kind == "" }

  predicate IsManagement(r: Row) { r.kind == SUMMARY && r.name == MANAGEMENT }

  /** A row inside a block: neither its head nor its closing blank. */
  predicate IsInner(r: Row) { !IsQuota(r) && !IsBlank(r) }

  function Cents(r: Row): int {
    if r.value.Some? then r.value.value else 0
  }

  function Total(rows: seq<Row>): int {
    if rows == [] then 0 else Total(rows[..|rows| - 1]) + Cents(rows[|rows| - 1])
  }

  lemma {:induction false} TotalConcat(a: seq<Row>, b: seq<Row>)
    ensures Total(a + b) == Total(a) + Total(b)
  {
    if b == [] {
      assert a + b == a;
    } else {
      TotalConcat(a, b[..|b| - 1]);
      assert (a + b)[..|a + b| - 1] == a + b[..|b| - 1];
    }
  }

  function Cleared(rows: seq<Row>): (r: seq<Row>)
    ensures |r| == |rows| && forall i :: 0 <= i < |rows| ==> r[i] == rows[i].(pid := "")
  {
    seq(|rows|, i requires 0 <= i < |rows| => rows[i].(pid := ""))
  }

  lemma {:induction false} TotalCleared(rows: seq<Row>)
    ensures Total(Cleared(rows)) == Total(rows)
  {
    if rows == [] {
    } else {
      TotalCleared(rows[..|rows| - 1]);
      assert Cleared(rows)[..|rows| - 1] == Cleared(rows[..|rows| - 1]);
    }
  }

  /** The rows of project `pid`. */
  function RowsOf(rows: seq<Row>, pid: string): (r: seq<Row>)
    ensures forall i :: 0 <= i < |r| ==> r[i] in rows
  {
    if rows == [] then []
    else RowsOf(rows[..|rows| - 1], pid) + if rows[|rows| - 1].pid == pid then [rows[|rows| - 1]] else []
  }

  // ------------------------------------------------- reading a continuation

  function ContinuedRow(i: Item, pid: string, cents: Rounding): Row {
    Row(KindOf(i), pid, i.name, if i.proportion then None else Some(cents(ContinuedWorth(i, pid))))
  }

  /** One item's rows, project by project. */
  function ItemRows(i: Item, pids: seq<string>, cents: Rounding): (r: seq<Row>)
    ensures |r| == |pids| && forall k :: 0 <= k < |r| ==> r[k] == ContinuedRow(i, pids[k], cents)
  {
    seq(|pids|, k requires 0 <= k < |pids| => ContinuedRow(i, pids[k], cents))
  }

  /** Every item that is not a main material yields a row for every project, in table order. */
  function ContinuationRows(items: seq<Item>, pids: seq<string>, cents: Rounding): seq<Row> {
    if items == [] then []
    else
      var i := items[|items| - 1];
      ContinuationRows(items[..|items| - 1], pids, cents)
      + if i.category == Unpriced then [] else ItemRows(i, pids, cents)
  }

  /** Every delta is the sum of the verification column over its project's rows. */
  ghost predicate Booked(rows: seq<Row>, deltas: map<string, int>, pids: set<string>) {
    deltas.Keys == pids && forall p :: p in pids ==> deltas[p] == Total(RowsOf(rows, p))
  }

  lemma BookRow(rows: seq<Row>, deltas: map<string, int>, pids: set<string>, r: Row)
    requires Booked(rows, deltas, pids) && r.pid in pids
    ensures Booked(rows + [r], deltas[r.pid := deltas[r.pid] + Cents(r)], pids)
  {
    assert (rows + [r])[..|rows|] == rows;
    forall p | p in pids
      ensures Total(RowsOf(rows + [r], p)) == Total(RowsOf(rows, p)) + if p == r.pid then Cents(r) else 0
    {
      TotalConcat(RowsOf(rows, p), if p == r.pid then [r] else []);
      assert [r][..0] == [];
    }
  }

  /** One item of a continuation: a row per project, each booked unless it is a proportion. */
  method ReadItem(i: Item, pids: seq<string>, cents: Rounding, rows0: seq<Row>, deltas0: map<string, int>,
                  ghost all: set<string>)
    returns (rows: seq<Row>, deltas: map<string, int>)
    requires Booked(rows0, deltas0, all) && forall k :: 0 <= k < |pids| ==> pids[k] in all
    ensures rows == rows0 + ItemRows(i, pids, cents) && Booked(rows, deltas, all)
  {
    hide RowsOf, Total, ContinuedRow;
    rows, deltas := rows0, deltas0;
    var j := 0;
    while j < |pids|
      invariant 0 <= j <= |pids|
      invariant Booked(rows, deltas, all)
      invariant rows == rows0 + ItemRows(i, pids, cents)[..j]
    {
      var r := ContinuedRow(i, pids[j], cents);
      PricedOrNot(i, pids[j], cents);
      BookRow(rows, deltas, all, r);
      rows := rows + [r];
      assert i.proportion ==> deltas[r.pid := deltas[r.pid] + Cents(r)] == deltas;
      if !i.proportion {
        deltas := deltas[pids[j] := deltas[pids[j]] + Cents(r)];
      }
      j := j + 1;
    }
    assert ItemRows(i, pids, cents)[..j] == ItemRows(i, pids, cents);
  }

  /** The rows of a continuation and, per project, the sum of its verification column. */
  method ReadContinuation(items: seq<Item>, pids: seq<string>, cents: Rounding)
    returns (rows: seq<Row>, deltas: map<string, int>)
    ensures rows == ContinuationRows(items, pids, cents)
    ensures Booked(rows, deltas, (set p | p in pids))
  {
    hide Booked, ItemRows;
    ghost var all := set p | p in pids;
    rows := [];
    deltas := map p | p in pids :: 0;
    NothingBooked(deltas, all);
    var k := 0;
    while k < |items|
      invariant 0 <= k <= |items|
      invariant Booked(rows, deltas, all)
      invariant rows == ContinuationRows(items[..k], pids, cents)
    {
      var i := items[k];
      assert items[..k + 1][..k] == items[..k];
      k := k + 1;
      if i.category == Unpriced {
        continue;
      }
      rows, deltas := ReadItem(i, pids, cents, rows, deltas, all);
    }
    assert items[..k] == items;
  }

  lemma PricedOrNot(i: Item, pid: string, cents: Rounding)
    ensures var r := ContinuedRow(i, pid, cents); r.pid == pid && (i.proportion ==> Cents(r) == 0)
  {
  }

  lemma NothingBooked(deltas: map<string, int>, pids: set<string>)
    requires deltas == map p | p in pids :: 0
    ensures Booked([], deltas, pids)
  {
  }

  /** What one project gets out of a continuation. */
  function OwnRows(items: seq<Item>, pid: string, cents: Rounding): seq<Row> {
    if items == [] then []
    else
      var i := items[|items| - 1];
      OwnRows(items[..|items| - 1], pid, cents) + if i.category == Unpriced then [] else [ContinuedRow(i, pid, cents)]
  }

  lemma {:induction false} RowsOfConcat(a: seq<Row>, b: seq<Row>, pid: string)
    ensures RowsOf(a + b, pid) == RowsOf(a, pid) + RowsOf(b, pid)
  {
    if b == [] {
      assert a + b == a;
    } else {
      RowsOfConcat(a, b[..|b| - 1], pid);
      assert (a + b)[..|a + b| - 1] == a + b[..|b| - 1];
    }
  }

  lemma {:induction false} OneRowEach(i: Item, pids: seq<string>, cents: Rounding, n: nat, pid: string)
    requires n <= |pids| && NoRepeats(pids)
    ensures RowsOf(ItemRows(i, pids, cents)[..n], pid) == if pid in pids[..n] then [ContinuedRow(i, pid, cents)] else []
  {
    hide RowsOf, ContinuedRow, NoRepeats;
    var rows := ItemRows(i, pids, cents);
    if n == 0 {
      assert rows[..0] == [];
      RowsOfNothing(pid);
    } else {
      OneRowEach(i, pids, cents, n - 1, pid);
      NextRowOf(rows, n, pid);
      NamedBefore(pids, n, pid);
      PricedOrNot(i, pids[n - 1], cents);
    }
  }

  lemma NextRowOf(rows: seq<Row>, n: nat, pid: string)
    requires 0 < n <= |rows|
    ensures RowsOf(rows[..n], pid) == RowsOf(rows[..n - 1], pid) + if rows[n - 1].pid == pid then [rows[n - 1]] else []
  {
    assert rows[..n][..n - 1] == rows[..n - 1];
  }

  /** Taken apart by project, a continuation gives each project one row per priced item, in order. */
  lemma {:induction false} EachGetsItsRows(items: seq<Item>, pids: seq<string>, cents: Rounding, pid: string)
    requires NoRepeats(pids) && pid in pids
    ensures RowsOf(ContinuationRows(items, pids, cents), pid) == OwnRows(items, pid, cents)
  {
    hide RowsOf, ItemRows, ContinuedRow, NoRepeats;
    RowsOfNothing(pid);
    if items == [] {
    } else {
      var front, i := items[..|items| - 1], items[|items| - 1];
      EachGetsItsRows(front, pids, cents, pid);
      var more := if i.category == Unpriced then [] else ItemRows(i, pids, cents);
      RowsOfConcat(ContinuationRows(front, pids, cents), more, pid);
      OneRowOfItem(i, pids, cents, pid);
    }
  }

  lemma RowsOfNothing(pid: string)
    ensures RowsOf([], pid) == []
  {
  }

  lemma OneRowOfItem(i: Item, pids: seq<string>, cents: Rounding, pid: string)
    requires NoRepeats(pids) && pid in pids
    ensures RowsOf(ItemRows(i, pids, cents), pid) == [ContinuedRow(i, pid, cents)]
  {
    OneRowEach(i, pids, cents, |pids|, pid);
    assert ItemRows(i, pids, cents)[..|pids|] == ItemRows(i, pids, cents) && pids[..|pids|] == pids;
  }

  // ---------------------------------------------------------- the flat list

  datatype Sheet = Sheet(rows: seq<Row>, blanks: map<string, nat>, seen: set<string>)

  /** Where the backward scan from row `b` stops: the nearest management-fee row, else `b`. */
  function InsertIndex(rows: seq<Row>, b: nat, i: nat): (k: nat)
    requires i <= b <= |rows|
    ensures k <= b
    ensures k == b || (k < i && IsManagement(rows[k]))
    ensures forall j :: 0 <= j < i && (k == b || k < j) ==> !IsManagement(rows[j])
  {
    if i == 0 then b
    else if IsManagement(rows[i - 1]) then i - 1
    else InsertIndex(rows, b, i - 1)
  }

  /** Raises the verification total of the nearest head of `pid` above row `i`. */
  function AddToHead(rows: seq<Row>, i: nat, pid: string, delta: int): (r: seq<Row>)
    requires i <= |rows|
    ensures |r| == |rows|
  {
    if i == 0 then rows
    else if IsQuota(rows[i - 1]) && rows[i - 1].pid == pid then
      rows[i - 1 := rows[i - 1].(value := Some(Cents(rows[i - 1]) + delta))]
    else AddToHead(rows, i - 1, pid, delta)
  }

  function Shifted(blanks: map<string, nat>, k: nat, n: nat): map<string, nat> {
    map p | p in blanks :: if blanks[p] >= k then blanks[p] + n else blanks[p]
  }

  /** The index map points into the list. */
  predicate InBounds(s: Sheet) {
    forall p :: p in s.blanks ==> s.blanks[p] < |s.rows|
  }

  /** Joins one project's continuation rows. */
  function JoinOne(s: Sheet, pid: string, ins: seq<Row>, delta: int): Sheet
    requires InBounds(s)
  {
    if ins == [] then s
    else if pid !in s.blanks then s.(rows := s.rows + Cleared(ins))
    else
      var k := InsertIndex(s.rows, s.blanks[pid], s.blanks[pid]);
      var rows := s.rows[..k] + Cleared(ins) + s.rows[k..];
      s.(rows := if delta != 0 then AddToHead(rows, k, pid, delta) else rows,
         blanks := Shifted(s.blanks, k, |ins|))
  }

  lemma JoinOneInBounds(s: Sheet, pid: string, ins: seq<Row>, delta: int)
    requires InBounds(s)
    ensures InBounds(JoinOne(s, pid, ins, delta))
    ensures JoinOne(s, pid, ins, delta).blanks.Keys == s.blanks.Keys && JoinOne(s, pid, ins, delta).seen == s.seen
  {
  }

  /** Joins the first `n` projects of a continuation, the last of them first. */
  function JoinAll(s: Sheet, pids: seq<string>, rows: seq<Row>, deltas: map<string, int>, n: nat): Sheet
    requires InBounds(s) && n <= |pids|
    decreases n
  {
    if n == 0 then s
    else
      var p := pids[n - 1];
      var d := if p in deltas then deltas[p] else 0;
      JoinOneInBounds(s, p, RowsOf(rows, p), d);
      JoinAll(JoinOne(s, p, RowsOf(rows, p), d), pids, rows, deltas, n - 1)
  }

  /** The project of the nearest head above row `i`. */
  function HeadBefore(rows: seq<Row>, i: nat): Option<string>
    requires i <= |rows|
  {
    if i == 0 then None
    else if IsQuota(rows[i - 1]) && rows[i - 1].pid != "" then Some(rows[i - 1].pid)
    else HeadBefore(rows, i - 1)
  }

  /** The index map once the blanks from `i` on have been recorded, the lowest one last. */
  function Record(rows: seq<Row>, base: nat, blanks: map<string, nat>, i: nat): map<string, nat>
    requires i <= |rows|
    decreases |rows| - i
  {
    if i == |rows| then blanks
    else
      var later := Record(rows, base, blanks, i + 1);
      if IsBlank(rows[i]) && HeadBefore(rows, i).Some? then later[HeadBefore(rows, i).value := base + i] else later
  }

  function Heads(rows: seq<Row>): set<string> {
    set r | r in rows && IsQuota(r) && r.pid != "" :: r.pid
  }

  function Emit(s: Sheet, rows: seq<Row>): Sheet {
    Sheet(s.rows + rows, Record(rows, |s.rows|, s.blanks, 0), s.seen + Heads(rows))
  }

  /** `process_md_file`'s flat list and its two indexes. */
  class Book {
    var rows: seq<Row>
    var blanks: map<string, nat>
    var seen: set<string>

    constructor ()
      ensures View() == Sheet([], map[], {})
    {
      rows, blanks, seen := [], map[], {};
    }

    function View(): Sheet
      reads this
    {
      Sheet(rows, blanks, seen)
    }

    method AppendHeadings(headings: seq<Row>)
      modifies this
      ensures View() == old(View()).(rows := old(rows) + headings)
    {
      rows := rows + headings;
    }

    /** Appends a main table and records where each project's block ends. */
    method AppendMain(more: seq<Row>)
      modifies this
      ensures View() == Emit(old(View()), more)
    {
      var base := |rows|;
      rows := rows + more;
      var i := |more|;
      while i > 0
        invariant 0 <= i <= |more|
        invariant rows == old(rows) + more && seen == old(seen)
        invariant blanks == Record(more, base, old(blanks), i)
      {
        i := i - 1;
        if IsBlank(more[i]) {
          var j: nat := i;
          while j > 0 && !(IsQuota(more[j - 1]) && more[j - 1].pid != "")
            invariant 0 <= j <= i
            invariant HeadBefore(more, i) == HeadBefore(more, j)
          {
            j := j - 1;
          }
          if j > 0 {
            blanks := blanks[more[j - 1].pid := base + i];
          }
        }
      }
      seen := seen + Heads(more);
    }

    /** Splices one project's continuation rows into the list. */
    method Splice(pid: string, ins: seq<Row>, delta: int)
      requires InBounds(View())
      modifies this
      ensures View() == JoinOne(old(View()), pid, ins, delta)
    {
      if ins == [] {
        return;
      }
      if pid !in blanks {
        rows := rows + Cleared(ins);
        return;
      }
      var b := blanks[pid];
      var insertAt, i := b, b;
      while i > 0
        invariant 0 <= i <= b && insertAt == b
        invariant InsertIndex(rows, b, b) == InsertIndex(rows, b, i)
      {
        i := i - 1;
        if IsManagement(rows[i]) {
          insertAt := i;
          break;
        }
      }
      rows := rows[..insertAt] + Cleared(ins) + rows[insertAt..];
      blanks := Shifted(blanks, insertAt, |ins|);
      if delta != 0 {
        ghost var spliced := rows;
        i := insertAt;
        while i > 0
          invariant 0 <= i <= insertAt <= |rows| && rows == spliced
          invariant AddToHead(spliced, insertAt, pid, delta) == AddToHead(spliced, i, pid, delta)
        {
          i := i - 1;
          if IsQuota(rows[i]) && rows[i].pid == pid {
            rows := rows[i := rows[i].(value := Some(Cents(rows[i]) + delta))];
            break;
          }
        }
        assert rows == AddToHead(spliced, insertAt, pid, delta);
      }
    }

    /** Joins a continuation, its last project first. */
    method Join(pids: seq<string>, more: seq<Row>, deltas: map<string, int>)
      requires InBounds(View())
      modifies this
      ensures View() == JoinAll(old(View()), pids, more, deltas, |pids|)
    {
      hide JoinOne, RowsOf, InBounds;
      var n := |pids|;
      while n > 0
        invariant 0 <= n <= |pids|
        invariant InBounds(View())
        invariant JoinAll(View(), pids, more, deltas, n) == JoinAll(old(View()), pids, more, deltas, |pids|)
      {
        n := n - 1;
        var p := pids[n];
        var d := if p in deltas then deltas[p] else 0;
        ghost var s := View();
        JoinOneInBounds(s, p, RowsOf(more, p), d);
        Splice(p, RowsOf(more, p), d);
        assert View() == JoinOne(s, p, RowsOf(more, p), d);
        assert JoinAll(s, pids, more, deltas, n + 1) == JoinAll(View(), pids, more, deltas, n);
      }
    }
  }

  // ------------------------------------------------ anchoring, for any input

  /** The map points at blank rows, each closing its own project's rows. */
  ghost predicate Anchored(s: Sheet) {
    s.blanks.Keys == s.seen && forall p :: p in s.blanks ==> ClosesProject(s.rows, s.blanks[p], p)
  }

  ghost predicate ClosesProject(rows: seq<Row>, b: nat, p: string) {
    b < |rows| && IsBlank(rows[b]) && HeadBefore(rows, b) == Some(p)
  }

  ghost predicate AllInner(rows: seq<Row>) {
    forall i :: 0 <= i < |rows| ==> IsInner(rows[i])
  }

  /** Rows that are no heads do not change which head is nearest. */
  lemma {:induction false} HeadBeforeSpliced(rows: seq<Row>, k: nat, ins: seq<Row>, i: nat)
    requires k <= i <= |rows| && AllInner(ins)
    ensures HeadBefore(rows[..k] + ins + rows[k..], i + |ins|) == HeadBefore(rows, i)
    decreases i
  {
    var rows' := rows[..k] + ins + rows[k..];
    if i == k {
      HeadBeforeInserted(rows, k, ins, |ins|);
    } else {
      assert rows'[i - 1 + |ins|] == rows[i - 1];
      if !(IsQuota(rows[i - 1]) && rows[i - 1].pid != "") {
        HeadBeforeSpliced(rows, k, ins, i - 1);
      }
    }
  }

  lemma {:induction false} HeadBeforeInserted(rows: seq<Row>, k: nat, ins: seq<Row>, n: nat)
    requires k <= |rows| && n <= |ins| && AllInner(ins)
    ensures HeadBefore(rows[..k] + ins + rows[k..], k + n) == HeadBefore(rows, k)
  {
    var rows' := rows[..k] + ins + rows[k..];
    if n == 0 {
      HeadBeforePrefix(rows', rows, k);
    } else {
      assert rows'[k + n - 1] == ins[n - 1];
      HeadBeforeInserted(rows, k, ins, n - 1);
    }
  }

  lemma {:induction false} HeadBeforePrefix(rows: seq<Row>, rows': seq<Row>, i: nat)
    requires i <= |rows| && i <= |rows'|
    requires forall j :: 0 <= j < i ==> rows[j].kind == rows'[j].kind && rows[j].pid == rows'[j].pid
    ensures HeadBefore(rows, i) == HeadBefore(rows', i)
  {
    if i == 0 {
    } else {
      HeadBeforePrefix(rows, rows', i - 1);
    }
  }

  lemma {:induction false} AddToHeadKeepsKinds(rows: seq<Row>, i: nat, pid: string, delta: int)
    requires i <= |rows|
    ensures forall j :: 0 <= j < |rows| ==>
              AddToHead(rows, i, pid, delta)[j].kind == rows[j].kind
                  && AddToHead(rows, i, pid, delta)[j].pid == rows[j].pid
  {
    if i == 0 {
    } else {
      AddToHeadKeepsKinds(rows, i - 1, pid, delta);
    }
  }

  lemma SplicedClosing(s: Sheet, k: nat, ins: seq<Row>, b: nat, p: string)
    requires k <= |s.rows| && AllInner(ins) && ClosesProject(s.rows, b, p)
    ensures ClosesProject(s.rows[..k] + ins + s.rows[k..], if b >= k then b + |ins| else b, p)
  {
    var spliced := s.rows[..k] + ins + s.rows[k..];
    if b >= k {
      HeadBeforeSpliced(s.rows, k, ins, b);
      assert spliced[b + |ins|] == s.rows[b];
    } else {
      HeadBeforePrefix(spliced, s.rows, b);
    }
  }

  lemma RaisedClosing(rows: seq<Row>, k: nat, pid: string, delta: int, b: nat, p: string)
    requires k <= |rows| && ClosesProject(rows, b, p)
    ensures ClosesProject(AddToHead(rows, k, pid, delta), b, p)
  {
    AddToHeadKeepsKinds(rows, k, pid, delta);
    HeadBeforePrefix(AddToHead(rows, k, pid, delta), rows, b);
  }

  /** Wherever the backward scan puts the rows, the map stays right for every project. */
  lemma JoinOneKeepsAnchored(s: Sheet, pid: string, ins: seq<Row>, delta: int)
    requires Anchored(s) && AllInner(ins) && pid in s.seen
    ensures Anchored(JoinOne(s, pid, ins, delta)) && JoinOne(s, pid, ins, delta).seen == s.seen
  {
    if ins != [] {
      hide HeadBefore, AddToHead, IsBlank;
      assert ClosesProject(s.rows, s.blanks[pid], pid);
      var k := InsertIndex(s.rows, s.blanks[pid], s.blanks[pid]);
      var s' := JoinOne(s, pid, ins, delta);
      forall p | p in s'.blanks
        ensures ClosesProject(s'.rows, s'.blanks[p], p)
      {
        SplicedClosing(s, k, Cleared(ins), s.blanks[p], p);
        RaisedClosing(s.rows[..k] + Cleared(ins) + s.rows[k..], k, pid, delta, s'.blanks[p], p);
      }
    }
  }

  lemma {:induction false} RowsOfInner(rows: seq<Row>, p: string)
    requires AllInner(rows)
    ensures AllInner(RowsOf(rows, p))
  {
    if rows == [] {
    } else {
      RowsOfInner(rows[..|rows| - 1], p);
    }
  }

  lemma AnchoredInBounds(s: Sheet)
    requires Anchored(s)
    ensures InBounds(s)
  {
  }

  /** Joining any continuation keeps the map right, and never needs the fallback that appends. */
  lemma {:induction false} JoinAllKeepsAnchored(s: Sheet, pids: seq<string>, rows: seq<Row>, deltas: map<string, int>,
                                                n: nat)
    requires Anchored(s) && n <= |pids| && AllInner(rows)
    requires forall i :: 0 <= i < |pids| ==> pids[i] in s.seen
    ensures InBounds(s) && Anchored(JoinAll(s, pids, rows, deltas, n))
            && JoinAll(s, pids, rows, deltas, n).seen == s.seen
    decreases n
  {
    hide JoinOne, RowsOf, Anchored, InBounds, AllInner;
    AnchoredInBounds(s);
    if n == 0 {
    } else {
      var p := pids[n - 1];
      var d := if p in deltas then deltas[p] else 0;
      RowsOfInner(rows, p);
      JoinOneKeepsAnchored(s, p, RowsOf(rows, p), d);
      JoinAllKeepsAnchored(JoinOne(s, p, RowsOf(rows, p), d), pids, rows, deltas, n - 1);
    }
  }

  /** The rows of a main table: every head has an id and is closed by a blank before the next head. */
  ghost predicate Closed(rows: seq<Row>) {
    forall p :: p in Heads(rows) ==> exists j :: ClosesProject(rows, j, p)
  }

  lemma {:induction false} HeadBeforeShift(front: seq<Row>, rows: seq<Row>, i: nat)
    requires i <= |rows| && HeadBefore(rows, i).Some?
    ensures HeadBefore(front + rows, |front| + i) == HeadBefore(rows, i)
  {
    if i > 0 && !(IsQuota(rows[i - 1]) && rows[i - 1].pid != "") {
      HeadBeforeShift(front, rows, i - 1);
    }
  }

  lemma {:induction false} RecordExact(rows: seq<Row>, base: nat, blanks: map<string, nat>, i: nat, p: string)
    requires i <= |rows|
    ensures p in Record(rows, base, blanks, i) <==> p in blanks || exists j: nat :: i <= j && ClosesProject(rows, j, p)
    ensures p in Record(rows, base, blanks, i) ==>
              || (p in blanks && Record(rows, base, blanks, i)[p] == blanks[p])
              || (exists j: nat :: i <= j && ClosesProject(rows, j, p) && Record(rows, base, blanks, i)[p] == base + j)
    decreases |rows| - i
  {
    if i < |rows| {
      hide HeadBefore, IsBlank;
      RecordExact(rows, base, blanks, i + 1, p);
      assert IsBlank(rows[i]) && HeadBefore(rows, i) == Some(p) <==> ClosesProject(rows, i, p);
    }
  }

  lemma {:induction false} HeadBeforeIsHead(rows: seq<Row>, i: nat)
    requires i <= |rows| && HeadBefore(rows, i).Some?
    ensures HeadBefore(rows, i).value in Heads(rows)
  {
    if !(IsQuota(rows[i - 1]) && rows[i - 1].pid != "") {
      HeadBeforeIsHead(rows, i - 1);
    } else {
      assert rows[i - 1] in rows;
    }
  }

  /** Emitting a main table keeps the map right. */
  lemma EmitKeepsAnchored(s: Sheet, rows: seq<Row>)
    requires Anchored(s) && Closed(rows)
    ensures Anchored(Emit(s, rows))
  {
    hide Record, Heads, IsBlank, HeadBefore;
    var s' := Emit(s, rows);
    forall p
      ensures p in s'.blanks <==> p in s'.seen
    {
      RecordExact(rows, |s.rows|, s.blanks, 0, p);
      if j :| ClosesProject(rows, j, p) {
        HeadBeforeIsHead(rows, j);
      }
    }
    forall p | p in s'.blanks
      ensures ClosesProject(s'.rows, s'.blanks[p], p)
    {
      RecordExact(rows, |s.rows|, s.blanks, 0, p);
      if p in s.blanks && s'.blanks[p] == s.blanks[p] {
        HeadBeforePrefix(s'.rows, s.rows, s.blanks[p]);
      } else {
        var j: nat :| ClosesProject(rows, j, p) && s'.blanks[p] == |s.rows| + j;
        HeadBeforeShift(s.rows, rows, j);
      }
    }
  }
}
