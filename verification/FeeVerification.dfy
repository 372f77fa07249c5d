/**
 Emitting the rows of one quota table: a head per project, fee rows, materials and summary
 rows as the province's strategy asks, a blank, and in the head's verification column the
 sum of what the strategy counts. Fees are in cents as printed; the worth of a material is
 computed and rounded to cents.
 */
module FeeVerification {
  import opened Catalogue
  import opened Materials
  import opened CrossPageJoin
  import opened JoinedBlocks

  datatype FeeStrategy = Always | ThreeCorrespondence | NoFees

  datatype AutoMaterialFee = SC | CQ | GD | HU | NoAuto

  type Amounts = map<string, int>

  datatype Profile = Profile(
    fees: FeeStrategy, auto: AutoMaterialFee, forceLaborFee: bool, sortMaterials: bool, joinsPages: bool,
    cents: Rounding)

  // The cost rows that the table has, and the projects known elsewhere to have machines or materials.
  datatype Quota = Quota(
    pids: seq<string>, items: seq<Item>,
    laborFee: Option<Amounts>, materialFee: Option<Amounts>, machineFee: Option<Amounts>,
    summaries: seq<(string, Amounts)>,
    hasMachine: set<string>, hasMaterial: set<string>)

  function At(a: Amounts, pid: string): int {
    if pid in a then a[pid] else 0
  }

  function FeeAt(a: Option<Amounts>, pid: string): int {
    if a.Some? then At(a.value, pid) else 0
  }

  // ------------------------------------------------------------ what is emitted

  // Which rule put a row there.
  datatype Origin = LaborFeeRow | MainMaterialRow | MaterialFeeRow | DetailRow(item: Item) | MachineFeeRow | SummaryRow

  datatype Emitted = Emitted(row: Row, origin: Origin)

  /** Does the strategy count a row of this origin towards the verification total? */
  predicate Counted(p: Profile, o: Origin) {
    match o
    case LaborFeeRow => true
    case MainMaterialRow => false
    case MaterialFeeRow => p.auto == SC
    case DetailRow(i) => !i.proportion && !i.appendix && p.fees != NoFees
    case MachineFeeRow => p.fees == Always
    case SummaryRow => true
  }

  function CountedTotal(p: Profile, es: seq<Emitted>): int {
    if es == [] then 0
    else
      var e := es[|es| - 1];
      CountedTotal(p, es[..|es| - 1]) + if Counted(p, e.origin) then Cents(e.row) else 0
  }

  predicate Below(q: Quota, c: Category) {
    exists i :: i in q.items && i.category == c
  }

  predicate EmitsLaborFee(p: Profile, q: Quota) {
    q.laborFee.Some? && (p.forceLaborFee || p.fees == Always || (p.fees == ThreeCorrespondence && !Below(q, Labor)))
  }

  predicate EmitsMaterialFee(p: Profile, q: Quota, pid: string) {
    match p.auto
    case SC => Below(q, Unpriced) || (!Below(q, Priced) && !Below(q, Mixed) && FeeAt(q.materialFee, pid) > 0)
    case NoAuto => false
    case _ =>
      && q.materialFee.Some? && !Below(q, Priced) && !Below(q, Mixed) && FeeAt(q.materialFee, pid) > 0
      && (p.auto == CQ || forall x :: x in q.pids ==> x !in q.hasMaterial)
  }

  predicate EmitsMachineFee(p: Profile, q: Quota, pid: string) {
    && q.machineFee.Some?
    && (|| p.fees == Always
        || (p.fees == ThreeCorrespondence && !Below(q, Machine) && FeeAt(q.machineFee, pid) > 0
            && ((p.auto == GD || p.auto == HU) ==> forall x :: x in q.pids ==> x !in q.hasMachine)))
  }

  function FeeRow(kind: string, name: string, v: int, o: Origin): Emitted {
    Emitted(Row(kind, "", name, Some(v)), o)
  }

  function MainRow(i: Item): Emitted {
    Emitted(Row("主材", "", i.name, None), MainMaterialRow)
  }

  /** What a priced row says, and counts if it is counted. */
  function Amount(p: Profile, i: Item, pid: string, basis: real): int {
    p.cents(Worth(i, pid, basis))
  }

  function DetailOf(p: Profile, i: Item, pid: string, basis: real): Emitted {
    var value := if i.proportion || p.fees == NoFees then None else Some(Amount(p, i, pid, basis));
    Emitted(Row(KindOf(i), "", i.name, value), DetailRow(i))
  }

  function SummaryOf(s: (string, Amounts), pid: string): Emitted {
    FeeRow(SUMMARY, s.0, At(s.1, pid), SummaryRow)
  }

  /** Materials in the order of the table, or sorted. */
  function Ordered(p: Profile, items: seq<Item>): seq<Item> {
    if p.sortMaterials then Sorted(items) else items
  }

  function MainRows(items: seq<Item>): seq<Emitted> {
    if items == [] then []
    else
      var i := items[|items| - 1];
      MainRows(items[..|items| - 1]) + if i.category == Unpriced then [MainRow(i)] else []
  }

  function DetailRows(p: Profile, items: seq<Item>, pid: string, basis: real): seq<Emitted> {
    if items == [] then []
    else
      var i := items[|items| - 1];
      DetailRows(p, items[..|items| - 1], pid, basis)
      + if i.category == Unpriced then [] else [DetailOf(p, i, pid, basis)]
  }

  function SummaryRows(ss: seq<(string, Amounts)>, pid: string): seq<Emitted> {
    if ss == [] then [] else SummaryRows(ss[..|ss| - 1], pid) + [SummaryOf(ss[|ss| - 1], pid)]
  }

  /** Everything between a project's head and its blank. */
  function Inner(p: Profile, q: Quota, pid: string): seq<Emitted> {
    (if EmitsLaborFee(p, q) then [FeeRow("工", "人工费", FeeAt(q.laborFee, pid), LaborFeeRow)] else [])
    + MainRows(q.items)
    + (if EmitsMaterialFee(p, q, pid) then [FeeRow("料", "材料费", FeeAt(q.materialFee, pid), MaterialFeeRow)] else [])
    + DetailRows(p, Ordered(p, q.items), pid, Basis(Ordered(p, q.items), pid))
    + (if EmitsMachineFee(p, q, pid) then [FeeRow("机", "机械费", FeeAt(q.machineFee, pid), MachineFeeRow)] else [])
    + SummaryRows(q.summaries, pid)
  }

  function RowsIn(es: seq<Emitted>): (r: seq<Row>)
    ensures |r| == |es| && forall i :: 0 <= i < |es| ==> r[i] == es[i].row
  {
    seq(|es|, i requires 0 <= i < |es| => es[i].row)
  }

  const BLANK := Row("", "", "", None)

  /** One project's rows; the head carries the counted total unless the strategy has no fees. */
  function ProjectRows(p: Profile, q: Quota, pid: string): seq<Row> {
    var inner := Inner(p, q, pid);
    [Row(QUOTA, pid, "", if p.fees == NoFees then None else Some(CountedTotal(p, inner)))] + RowsIn(inner) + [BLANK]
  }

  function TableRows(p: Profile, q: Quota, n: nat): seq<Row>
    requires n <= |q.pids|
  {
    if n == 0 then [] else TableRows(p, q, n - 1) + ProjectRows(p, q, q.pids[n - 1])
  }

  // --------------------------------------------------------------- the loops

  lemma {:induction false} CountedConcat(p: Profile, a: seq<Emitted>, b: seq<Emitted>)
    ensures CountedTotal(p, a + b) == CountedTotal(p, a) + CountedTotal(p, b)
  {
    if b == [] {
      assert a + b == a;
    } else {
      CountedConcat(p, a, b[..|b| - 1]);
      assert (a + b)[..|a + b| - 1] == a + b[..|b| - 1];
    }
  }

  /** A project in the making: the rows after its head, and the running total. */
  ghost predicate Running(p: Profile, es: seq<Emitted>, rows: seq<Row>, total: int) {
    rows == RowsIn(es) && total == CountedTotal(p, es)
  }

  lemma RunningMore(p: Profile, es: seq<Emitted>, rows: seq<Row>, total: int, e: Emitted)
    requires Running(p, es, rows, total)
    ensures Running(p, es + [e], rows + [e.row], total + if Counted(p, e.origin) then Cents(e.row) else 0)
  {
    assert (es + [e])[..|es|] == es;
  }

  /** Main materials: unpriced, no value, never counted. */
  method EmitMain(p: Profile, items: seq<Item>, rows0: seq<Row>, total: int, ghost es: seq<Emitted>)
    returns (rows: seq<Row>)
    requires Running(p, es, rows0, total)
    ensures Running(p, es + MainRows(items), rows, total)
  {
    hide Running;
    rows := rows0;
    var i := 0;
    assert es + [] == es;
    while i < |items|
      invariant 0 <= i <= |items|
      invariant Running(p, es + MainRows(items[..i]), rows, total)
    {
      assert items[..i + 1][..i] == items[..i];
      if items[i].category == Unpriced {
        RunningMore(p, es + MainRows(items[..i]), rows, total, MainRow(items[i]));
        assert es + MainRows(items[..i + 1]) == es + MainRows(items[..i]) + [MainRow(items[i])];
        rows := rows + [Row("主材", "", items[i].name, None)];
      } else {
        assert MainRows(items[..i + 1]) == MainRows(items[..i]);
      }
      i := i + 1;
    }
    assert items[..i] == items;
  }

  /** Priced rows: counted unless they are proportions, appendices, or the strategy has no fees. */
  method EmitDetails(p: Profile, items: seq<Item>, pid: string, basis: real, rows0: seq<Row>, total0: int,
                     ghost es: seq<Emitted>)
    returns (rows: seq<Row>, total: int)
    requires Running(p, es, rows0, total0)
    ensures Running(p, es + DetailRows(p, items, pid, basis), rows, total)
  {
    hide Running;
    rows, total := rows0, total0;
    var k := 0;
    assert es + [] == es;
    while k < |items|
      invariant 0 <= k <= |items|
      invariant Running(p, es + DetailRows(p, items[..k], pid, basis), rows, total)
    {
      assert items[..k + 1][..k] == items[..k];
      var i := items[k];
      if i.category != Unpriced {
        RunningMore(p, es + DetailRows(p, items[..k], pid, basis), rows, total, DetailOf(p, i, pid, basis));
        assert es + DetailRows(p, items[..k + 1], pid, basis)
            == es + DetailRows(p, items[..k], pid, basis) + [DetailOf(p, i, pid, basis)];
        var value := None;
        if !i.proportion && p.fees != NoFees {
          value := Some(Amount(p, i, pid, basis));
        }
        rows := rows + [Row(KindOf(i), "", i.name, value)];
        if !i.proportion && !i.appendix && p.fees != NoFees {
          total := total + Amount(p, i, pid, basis);
        }
      } else {
        assert DetailRows(p, items[..k + 1], pid, basis) == DetailRows(p, items[..k], pid, basis);
      }
      k := k + 1;
    }
    assert items[..k] == items;
  }

  /** Summary rows: management fee, profit and the like, all counted. */
  method EmitSummaries(p: Profile, ss: seq<(string, Amounts)>, pid: string, rows0: seq<Row>, total0: int,
                       ghost es: seq<Emitted>)
    returns (rows: seq<Row>, total: int)
    requires Running(p, es, rows0, total0)
    ensures Running(p, es + SummaryRows(ss, pid), rows, total)
  {
    hide Running;
    rows, total := rows0, total0;
    var i := 0;
    assert es + [] == es;
    while i < |ss|
      invariant 0 <= i <= |ss|
      invariant Running(p, es + SummaryRows(ss[..i], pid), rows, total)
    {
      assert ss[..i + 1][..i] == ss[..i];
      RunningMore(p, es + SummaryRows(ss[..i], pid), rows, total, SummaryOf(ss[i], pid));
      assert es + SummaryRows(ss[..i + 1], pid) == es + SummaryRows(ss[..i], pid) + [SummaryOf(ss[i], pid)];
      rows := rows + [Row(SUMMARY, "", ss[i].0, Some(At(ss[i].1, pid)))];
      total := total + At(ss[i].1, pid);
      i := i + 1;
    }
    assert ss[..i] == ss;
  }

  /** The rows of one project and the total of what was counted on the way. */
  method EmitInner(p: Profile, q: Quota, pid: string) returns (rows: seq<Row>, total: int)
    ensures Running(p, Inner(p, q, pid), rows, total)
  {
    hide CountedTotal, MainRows, DetailRows, SummaryRows, Ordered, Below, Running;
    ghost var es: seq<Emitted> := [];
    rows, total := [], 0;
    NothingRunning(p);
    if EmitsLaborFee(p, q) {
      RunningMore(p, es, rows, total, FeeRow("工", "人工费", FeeAt(q.laborFee, pid), LaborFeeRow));
      es := es + [FeeRow("工", "人工费", FeeAt(q.laborFee, pid), LaborFeeRow)];
      rows := rows + [Row("工", "", "人工费", Some(FeeAt(q.laborFee, pid)))];
      total := total + FeeAt(q.laborFee, pid);
    }
    rows := EmitMain(p, q.items, rows, total, es);
    es := es + MainRows(q.items);
    if EmitsMaterialFee(p, q, pid) {
      RunningMore(p, es, rows, total, FeeRow("料", "材料费", FeeAt(q.materialFee, pid), MaterialFeeRow));
      es := es + [FeeRow("料", "材料费", FeeAt(q.materialFee, pid), MaterialFeeRow)];
      rows := rows + [Row("料", "", "材料费", Some(FeeAt(q.materialFee, pid)))];
      if p.auto == SC {
        total := total + FeeAt(q.materialFee, pid);
      }
    }
    var items := Ordered(p, q.items);
    var basis := AddBasis(items, pid);
    rows, total := EmitDetails(p, items, pid, basis, rows, total, es);
    es := es + DetailRows(p, items, pid, basis);
    if EmitsMachineFee(p, q, pid) {
      RunningMore(p, es, rows, total, FeeRow("机", "机械费", FeeAt(q.machineFee, pid), MachineFeeRow));
      es := es + [FeeRow("机", "机械费", FeeAt(q.machineFee, pid), MachineFeeRow)];
      rows := rows + [Row("机", "", "机械费", Some(FeeAt(q.machineFee, pid)))];
      if p.fees == Always {
        total := total + FeeAt(q.machineFee, pid);
      }
    }
    rows, total := EmitSummaries(p, q.summaries, pid, rows, total, es);
    es := es + SummaryRows(q.summaries, pid);
    assert es == Inner(p, q, pid);
  }

  lemma NothingRunning(p: Profile)
    ensures Running(p, [], [], 0)
  {
  }

  /** One project: its head is written first and its total filled in from the end. */
  method EmitProject(p: Profile, q: Quota, pid: string, before: seq<Row>) returns (rows: seq<Row>)
    ensures rows == before + ProjectRows(p, q, pid)
  {
    hide Inner, CountedTotal;
    var inner, total := EmitInner(p, q, pid);
    InnerHasNoHead(p, q, pid);
    ghost var head := Row(QUOTA, pid, "", None);
    rows := before + [Row(QUOTA, pid, "", None)] + inner;
    if p.fees != NoFees {
      var i := |rows|;
      while i > 0 && !IsQuota(rows[i - 1])
        invariant |before| < i <= |rows|
      {
        i := i - 1;
      }
      rows := rows[i - 1 := rows[i - 1].(value := Some(total))];
      assert rows == before + [head.(value := Some(total))] + inner;
    }
    rows := rows + [BLANK];
    assert rows == before + ProjectRows(p, q, pid);
  }

  /** The emit loop over the projects of a table. */
  method EmitTable(p: Profile, q: Quota) returns (rows: seq<Row>)
    ensures rows == TableRows(p, q, |q.pids|)
  {
    hide ProjectRows;
    rows := [];
    var j := 0;
    while j < |q.pids|
      invariant 0 <= j <= |q.pids|
      invariant rows == TableRows(p, q, j)
    {
      rows := EmitProject(p, q, q.pids[j], rows);
      j := j + 1;
    }
  }

  predicate InnerRow(e: Emitted) {
    IsInner(e.row) && e.row.pid == ""
  }

  lemma {:induction false} MainInner(items: seq<Item>)
    ensures forall i :: 0 <= i < |MainRows(items)| ==> InnerRow(MainRows(items)[i])
  {
    if items == [] {
    } else {
      MainInner(items[..|items| - 1]);
    }
  }

  lemma {:induction false} DetailInner(p: Profile, items: seq<Item>, pid: string, basis: real)
    ensures forall i :: 0 <= i < |DetailRows(p, items, pid, basis)| ==> InnerRow(DetailRows(p, items, pid, basis)[i])
  {
    if items == [] {
    } else {
      DetailInner(p, items[..|items| - 1], pid, basis);
    }
  }

  lemma {:induction false} SummaryInner(ss: seq<(string, Amounts)>, pid: string)
    ensures forall i :: 0 <= i < |SummaryRows(ss, pid)| ==> InnerRow(SummaryRows(ss, pid)[i])
  {
    if ss == [] {
    } else {
      SummaryInner(ss[..|ss| - 1], pid);
    }
  }

  lemma InnerHasNoHead(p: Profile, q: Quota, pid: string)
    ensures AllInner(RowsIn(Inner(p, q, pid)))
  {
    hide MainRows, DetailRows, SummaryRows, Ordered, Below;
    MainInner(q.items);
    DetailInner(p, Ordered(p, q.items), pid, Basis(Ordered(p, q.items), pid));
    SummaryInner(q.summaries, pid);
    var es := Inner(p, q, pid);
    assert forall i :: 0 <= i < |es| ==> InnerRow(es[i]);
  }

  // ---------------------------------------------------------------- theorems

  /** How the counted total comes about, rule by rule, and independently of how the materials are sorted. */
  lemma TotalByRule(p: Profile, q: Quota, pid: string)
    ensures CountedTotal(p, Inner(p, q, pid)) ==
            (if EmitsLaborFee(p, q) then FeeAt(q.laborFee, pid) else 0)
            + (if EmitsMaterialFee(p, q, pid) && p.auto == SC then FeeAt(q.materialFee, pid) else 0)
            + CountedDetails(p, q.items, pid, Basis(q.items, pid))
            + (if EmitsMachineFee(p, q, pid) && p.fees == Always then FeeAt(q.machineFee, pid) else 0)
            + SummaryTotal(q.summaries, pid)
  {
    hide MainRows, DetailRows, SummaryRows, Ordered, Below, EmitsLaborFee, EmitsMaterialFee, EmitsMachineFee, Basis;
    var items := Ordered(p, q.items);
    var a := if EmitsLaborFee(p, q) then [FeeRow("工", "人工费", FeeAt(q.laborFee, pid), LaborFeeRow)] else [];
    var b := MainRows(q.items);
    var c := if EmitsMaterialFee(p, q, pid) then [FeeRow("料", "材料费", FeeAt(q.materialFee, pid), MaterialFeeRow)]
        else [];
    var d := DetailRows(p, items, pid, Basis(items, pid));
    var e := if EmitsMachineFee(p, q, pid) then [FeeRow("机", "机械费", FeeAt(q.machineFee, pid), MachineFeeRow)] else [];
    var f := SummaryRows(q.summaries, pid);
    CountedConcat(p, a + b + c + d + e, f);
    CountedConcat(p, a + b + c + d, e);
    CountedConcat(p, a + b + c, d);
    CountedConcat(p, a + b, c);
    CountedConcat(p, a, b);
    MainUncounted(p, q.items);
    DetailsCounted(p, items, pid, Basis(items, pid));
    OrderDoesNotMatter(p, q.items, pid);
    SummariesCounted(p, q.summaries, pid);
  }

  predicate CountsDetail(p: Profile, i: Item) {
    i.category != Unpriced && !i.proportion && !i.appendix && p.fees != NoFees
  }

  function CountedDetails(p: Profile, items: seq<Item>, pid: string, basis: real): int {
    if items == [] then 0
    else
      var i := items[|items| - 1];
      CountedDetails(p, items[..|items| - 1], pid, basis) + if CountsDetail(p, i) then Amount(p, i, pid, basis) else 0
  }

  function SummaryTotal(ss: seq<(string, Amounts)>, pid: string): int {
    if ss == [] then 0 else SummaryTotal(ss[..|ss| - 1], pid) + At(ss[|ss| - 1].1, pid)
  }

  lemma {:induction false} MainUncounted(p: Profile, items: seq<Item>)
    ensures CountedTotal(p, MainRows(items)) == 0
  {
    if items == [] {
    } else {
      MainUncounted(p, items[..|items| - 1]);
      var i := items[|items| - 1];
      CountedConcat(p, MainRows(items[..|items| - 1]), if i.category == Unpriced then [MainRow(i)] else []);
    }
  }

  lemma {:induction false} DetailsCounted(p: Profile, items: seq<Item>, pid: string, basis: real)
    ensures CountedTotal(p, DetailRows(p, items, pid, basis)) == CountedDetails(p, items, pid, basis)
  {
    if items == [] {
    } else {
      DetailsCounted(p, items[..|items| - 1], pid, basis);
      var i := items[|items| - 1];
      CountedConcat(p, DetailRows(p, items[..|items| - 1], pid, basis),
                    if i.category == Unpriced then [] else [DetailOf(p, i, pid, basis)]);
    }
  }

  lemma {:induction false} SummariesCounted(p: Profile, ss: seq<(string, Amounts)>, pid: string)
    ensures CountedTotal(p, SummaryRows(ss, pid)) == SummaryTotal(ss, pid)
  {
    if ss == [] {
    } else {
      SummariesCounted(p, ss[..|ss| - 1], pid);
      CountedConcat(p, SummaryRows(ss[..|ss| - 1], pid), [SummaryOf(ss[|ss| - 1], pid)]);
    }
  }

  function Counts(p: Profile, pid: string, basis: real): Item -> real {
    (i: Item) => if CountsDetail(p, i) then Amount(p, i, pid, basis) as real else 0.0
  }

  lemma {:induction false} DetailsAreSum(p: Profile, items: seq<Item>, pid: string, basis: real)
    ensures CountedDetails(p, items, pid, basis) as real == Sum(items, Counts(p, pid, basis))
  {
    if items == [] {
    } else {
      DetailsAreSum(p, items[..|items| - 1], pid, basis);
    }
  }

  /** Sorting the materials, as two provinces do, changes neither the basis nor what is counted. */
  lemma OrderDoesNotMatter(p: Profile, items: seq<Item>, pid: string)
    ensures Basis(Ordered(p, items), pid) == Basis(items, pid)
    ensures CountedDetails(p, Ordered(p, items), pid, Basis(items, pid))
            == CountedDetails(p, items, pid, Basis(items, pid))
  {
    hide Sorted, Amount;
    var basis := Basis(items, pid);
    SortedSum(items, BasicWorth(pid));
    SortedSum(items, Counts(p, pid, basis));
    DetailsAreSum(p, items, pid, basis);
    DetailsAreSum(p, Sorted(items), pid, basis);
  }

  /** A block of the joined list, before any continuation, with the counted total as its base. */
  ghost function FreshBlock(p: Profile, q: Quota, pid: string, k: nat): Block
    requires k <= |Inner(p, q, pid)|
  {
    var rows := RowsIn(Inner(p, q, pid));
    var total := CountedTotal(p, Inner(p, q, pid));
    Block(Row(QUOTA, pid, "", if p.fees == NoFees then None else Some(total)), rows[..k], [], rows[k..], BLANK,
          if p.fees == NoFees then 0 else total)
  }

  /** Where the last management row stands, or the end. */
  function LastManagement(rows: seq<Row>, n: nat): (k: nat)
    requires n <= |rows|
    ensures k == |rows| || (k < n && IsManagement(rows[k]))
    ensures forall i :: 0 <= i < n && (k == |rows| || k < i) ==> !IsManagement(rows[i])
  {
    if n == 0 then |rows| else if IsManagement(rows[n - 1]) then n - 1 else LastManagement(rows, n - 1)
  }

  /** The block a project is emitted as. */
  ghost function FreshOf(p: Profile, q: Quota, pid: string): Block {
    var rows := RowsIn(Inner(p, q, pid));
    FreshBlock(p, q, pid, LastManagement(rows, |rows|))
  }

  /** The table has a management-fee row. */
  predicate Managed(q: Quota) {
    exists k :: 0 <= k < |q.summaries| && q.summaries[k].0 == MANAGEMENT
  }

  /**
   What a table emits is what the cross-page join expects: per project one fresh block, whose
   total is the sum of exactly the rows that the strategy counts, and which has a management
   row exactly when the table has one.
   */
  lemma EmitsFreshBlocks(p: Profile, q: Quota, pid: string)
    requires pid != ""
    ensures var b := FreshOf(p, q, pid);
            && Fresh(b) && BlockRows(b) == ProjectRows(p, q, pid) && b.head.pid == pid
            && b.pre + b.post == RowsIn(Inner(p, q, pid)) && (b.post != [] <==> Managed(q))
            && b.base == (if p.fees == NoFees then 0 else CountedTotal(p, Inner(p, q, pid)))
            && b.head.value == (if p.fees == NoFees then None else Some(b.base))
  {
    hide *;
    var rows := RowsIn(Inner(p, q, pid));
    var k := LastManagement(rows, |rows|);
    InnerHasNoHead(p, q, pid);
    OnlySummariesManage(p, q, pid);
    FreshShape(p, q, pid);
    CutAtLast(rows, k);
    CutIsGood(FreshOf(p, q, pid), rows, k);
    CutIsFresh(p, q, FreshOf(p, q, pid), pid, rows, k);
  }

  lemma FreshShape(p: Profile, q: Quota, pid: string)
    ensures var b, rows := FreshOf(p, q, pid), RowsIn(Inner(p, q, pid));
            var k := LastManagement(rows, |rows|);
            && k <= |rows| && b.pre == rows[..k] && b.added == [] && b.post == rows[k..] && b.blank == BLANK
            && b.base == (if p.fees == NoFees then 0 else CountedTotal(p, Inner(p, q, pid)))
            && b.head == Row(QUOTA, pid, "", if p.fees == NoFees then None else Some(b.base))
            && IsQuota(b.head) && IsBlank(b.blank) && Cents(b.head) == b.base
  {
    hide Inner, CountedTotal, RowsIn, LastManagement;
  }

  lemma CutIsFresh(p: Profile, q: Quota, b: Block, pid: string, rows: seq<Row>, k: nat)
    requires GoodBlock(b) && rows == RowsIn(Inner(p, q, pid))
    requires k <= |rows| && b.pre == rows[..k] && b.added == [] && b.post == rows[k..] && b.blank == BLANK
    requires b.base == (if p.fees == NoFees then 0 else CountedTotal(p, Inner(p, q, pid)))
    requires b.head == Row(QUOTA, pid, "", if p.fees == NoFees then None else Some(b.base))
    ensures Fresh(b) && BlockRows(b) == ProjectRows(p, q, pid) && b.pre + b.post == rows
  {
    hide Inner, CountedTotal, RowsIn, GoodBlock;
    assert rows == rows[..k] + rows[k..];
  }

  lemma CutAtLast(rows: seq<Row>, k: nat)
    requires k == LastManagement(rows, |rows|)
    ensures if rows[k..] == [] then NoManagement(rows[..k])
            else IsManagement(rows[k..][0]) && NoManagement(rows[k..][1..])
    ensures rows[k..] != [] <==> !NoManagement(rows)
  {
    hide IsManagement, LastManagement;
    if k < |rows| {
      forall i | 0 <= i < |rows[k..][1..]|
        ensures !IsManagement(rows[k..][1..][i])
      {
        assert rows[k..][1..][i] == rows[k + 1 + i];
      }
    }
  }

  ghost predicate Unmanaged(es: seq<Emitted>) {
    forall k :: 0 <= k < |es| ==> !IsManagement(es[k].row)
  }

  lemma UnmanagedConcat(a: seq<Emitted>, b: seq<Emitted>)
    ensures Unmanaged(a + b) <==> Unmanaged(a) && Unmanaged(b)
  {
    if Unmanaged(a + b) {
      assert forall k :: 0 <= k < |a| ==> a[k] == (a + b)[k];
      assert forall k :: 0 <= k < |b| ==> b[k] == (a + b)[|a| + k];
    }
  }

  lemma OnlySummariesManage(p: Profile, q: Quota, pid: string)
    ensures NoManagement(RowsIn(Inner(p, q, pid))) <==> !Managed(q)
  {
    var items := Ordered(p, q.items);
    var a := if EmitsLaborFee(p, q) then [FeeRow("工", "人工费", FeeAt(q.laborFee, pid), LaborFeeRow)] else [];
    var b := MainRows(q.items);
    var c := if EmitsMaterialFee(p, q, pid) then [FeeRow("料", "材料费", FeeAt(q.materialFee, pid), MaterialFeeRow)]
        else [];
    var d := DetailRows(p, items, pid, Basis(items, pid));
    var e := if EmitsMachineFee(p, q, pid) then [FeeRow("机", "机械费", FeeAt(q.machineFee, pid), MachineFeeRow)] else [];
    var f := SummaryRows(q.summaries, pid);
    assert Unmanaged(a) && Unmanaged(c) && Unmanaged(e);
    assert Inner(p, q, pid) == a + b + c + d + e + f;
    hide Inner, MainRows, DetailRows, SummaryRows, Unmanaged, Managed, RowsIn, NoManagement, FeeRow, Ordered, Basis;
    MainUnmanaged(q.items);
    DetailUnmanaged(p, items, pid, Basis(items, pid));
    SummariesManage(q, pid);
    UnmanagedConcat(a, b);
    UnmanagedConcat(a + b, c);
    UnmanagedConcat(a + b + c, d);
    UnmanagedConcat(a + b + c + d, e);
    UnmanagedConcat(a + b + c + d + e, f);
    RowsUnmanaged(Inner(p, q, pid));
  }

  lemma RowsUnmanaged(es: seq<Emitted>)
    ensures NoManagement(RowsIn(es)) <==> Unmanaged(es)
  {
    if NoManagement(RowsIn(es)) {
      assert forall k :: 0 <= k < |es| ==> RowsIn(es)[k] == es[k].row;
    }
  }

  lemma SummariesManage(q: Quota, pid: string)
    ensures Unmanaged(SummaryRows(q.summaries, pid)) <==> !Managed(q)
  {
    SummariesAt(q.summaries, pid);
    var es := SummaryRows(q.summaries, pid);
    if k :| 0 <= k < |q.summaries| && q.summaries[k].0 == MANAGEMENT {
      assert IsManagement(es[k].row);
    }
  }

  lemma {:induction false} MainUnmanaged(items: seq<Item>)
    ensures Unmanaged(MainRows(items))
  {
    if items == [] {
    } else {
      MainUnmanaged(items[..|items| - 1]);
    }
  }

  lemma {:induction false} DetailUnmanaged(p: Profile, items: seq<Item>, pid: string, basis: real)
    ensures Unmanaged(DetailRows(p, items, pid, basis))
  {
    if items == [] {
    } else {
      DetailUnmanaged(p, items[..|items| - 1], pid, basis);
    }
  }

  lemma {:induction false} SummariesAt(ss: seq<(string, Amounts)>, pid: string)
    ensures |SummaryRows(ss, pid)| == |ss|
    ensures forall k :: 0 <= k < |ss| ==> SummaryRows(ss, pid)[k] == SummaryOf(ss[k], pid)
  {
    if ss == [] {
    } else {
      SummariesAt(ss[..|ss| - 1], pid);
    }
  }

  lemma CutIsGood(b: Block, rows: seq<Row>, k: nat)
    requires k <= |rows| && AllInner(rows) && b.pre == rows[..k] && b.added == [] && b.post == rows[k..]
    requires if b.post == [] then NoManagement(b.pre) else IsManagement(b.post[0]) && NoManagement(b.post[1..])
    requires IsQuota(b.head) && b.head.pid != "" && IsBlank(b.blank) && Cents(b.head) == b.base
    ensures GoodBlock(b)
  {
    assert Total([]) == 0;
  }

  /** The blocks of a table's first `n` projects. */
  ghost function BlocksOf(p: Profile, q: Quota, n: nat): (blocks: seq<Block>)
    requires n <= |q.pids|
    ensures |blocks| == n && forall i :: 0 <= i < n ==> blocks[i] == FreshOf(p, q, q.pids[i])
  {
    seq(n, i requires 0 <= i < n => FreshOf(p, q, q.pids[i]))
  }

  /** A table's rows are its projects' blocks, one after another. */
  lemma {:induction false} TableEmitsFreshBlocks(p: Profile, q: Quota, n: nat)
    requires n <= |q.pids| && forall i :: 0 <= i < n ==> q.pids[i] != ""
    ensures TableRows(p, q, n) == Flat(Projects(BlocksOf(p, q, n)))
    ensures forall i :: 0 <= i < n ==> Fresh(BlocksOf(p, q, n)[i])
  {
    hide FreshOf, ProjectRows, BlockRows, Fresh, BlocksOf, Projects;
    if n == 0 {
      NoRowsYet(p, q);
    } else {
      TableEmitsFreshBlocks(p, q, n - 1);
      EmitsFreshBlocks(p, q, q.pids[n - 1]);
      assert Projects(BlocksOf(p, q, n))[..n - 1] == Projects(BlocksOf(p, q, n - 1));
    }
  }

  lemma NoRowsYet(p: Profile, q: Quota)
    ensures TableRows(p, q, 0) == Flat(Projects(BlocksOf(p, q, 0)))
  {
  }
}
