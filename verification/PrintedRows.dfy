/**
 What a quota table prints, said of its cells alone: which rows a project gets, in which
 order, what each of them shows, and what its total comes to; and the same for a continuation.
 */
module PrintedRows {
  import opened Catalogue
  import opened Materials
  import opened CrossPageJoin
  import opened FeeVerification

  // ----------------------------------------------------- amounts, by cases

  /** An item's quantity for a project; 0 where the table gives none. */
  function Given(i: Item, pid: string): real {
    if pid in i.quantities then i.quantities[pid] else 0.0
  }

  /** What other materials are a percentage of: quantity times price over the plain materials. */
  function PercentBase(items: seq<Item>, pid: string): real {
    if items == [] then 0.0
    else
      var i := items[|items| - 1];
      var n := Given(i, pid);
      PercentBase(items[..|items| - 1], pid)
      + if i.category in {Priced, Mixed} && !i.other && !i.proportion && !i.appendix && !i.fuel && n != 0.0 then
          (if i.price == 0.0 then n else n * i.price)
        else 0.0
  }

  /** What an item comes to: a percentage, a sum, or quantity times price. */
  function ItemWorth(i: Item, pid: string, base: real): real {
    var n := Given(i, pid);
    if i.other && i.percent then base * n / 100.0
    else if i.other || (n != 0.0 && i.price == 0.0) then n
    else if n == 0.0 then 0.0
    else n * i.price
  }

  /** The value that an item's row shows, given the base of percentages. */
  function ShownValue(p: Profile, i: Item, pid: string, base: real): Option<int> {
    if i.proportion || p.fees == NoFees then None else Some(p.cents(ItemWorth(i, pid, base)))
  }

  function ShownKind(i: Item): string {
    if i.category == Labor then "工"
    else if i.category == Machine then "机"
    else if i.category == Mixed || i.proportion then "配"
    else "料"
  }

  /** The sum over the priced items that count. */
  function PricedTotal(p: Profile, items: seq<Item>, pid: string, base: real): int {
    if items == [] then 0
    else
      var i := items[|items| - 1];
      var v := ShownValue(p, i, pid, base);
      PricedTotal(p, items[..|items| - 1], pid, base)
      + if i.category == Unpriced || i.appendix || v == None then 0 else v.value
  }

  function FeesTotal(ss: seq<(string, Amounts)>, pid: string): int {
    if ss == [] then 0
    else
      var fee := ss[|ss| - 1].1;
      FeesTotal(ss[..|ss| - 1], pid) + if pid in fee then fee[pid] else 0
  }

  /** The fee of a cost row for a project; 0 where there is none. */
  function Fee(a: Option<Amounts>, pid: string): int {
    if a.Some? && pid in a.value then a.value[pid] else 0
  }

  // --------------------------------------------------- which rows, in order

  ghost predicate Ascending(sel: seq<nat>) {
    forall a, b :: 0 <= a < b < |sel| ==> sel[a] < sel[b]
  }

  ghost predicate Within(items: seq<Item>, sel: seq<nat>) {
    forall k :: 0 <= k < |sel| ==> sel[k] < |items|
  }

  /** Plain items, then appendices, then machines. */
  function Rank(i: Item): int {
    if i.appendix then 1 else if i.category == Machine then 2 else 0
  }

  ghost predicate ByRank(items: seq<Item>, sel: seq<nat>)
    requires Within(items, sel)
  {
    forall a, b :: 0 <= a < b < |sel| ==>
      || Rank(items[sel[a]]) < Rank(items[sel[b]])
      || (Rank(items[sel[a]]) == Rank(items[sel[b]]) && sel[a] < sel[b])
  }

  /** `sel` names the unpriced items, or the others, each once. */
  ghost predicate Selects(items: seq<Item>, sel: seq<nat>, unpriced: bool) {
    && NoRepeats(sel) && Within(items, sel)
    && (forall k :: 0 <= k < |sel| ==> (items[sel[k]].category == Unpriced) == unpriced)
    && (forall n: nat :: n < |items| && (items[n].category == Unpriced) == unpriced ==> n in sel)
  }

  ghost predicate HasCategory(q: Quota, c: Category) {
    exists k :: 0 <= k < |q.items| && q.items[k].category == c
  }

  ghost predicate ShowsLaborFee(p: Profile, q: Quota) {
    && q.laborFee.Some?
    && (p.forceLaborFee || p.fees == Always || (p.fees == ThreeCorrespondence && !HasCategory(q, Labor)))
  }

  ghost predicate ShowsMaterialFee(p: Profile, q: Quota, pid: string) {
    var noMaterial := !HasCategory(q, Priced) && !HasCategory(q, Mixed);
    if p.auto == SC then HasCategory(q, Unpriced) || (noMaterial && Fee(q.materialFee, pid) > 0)
    else
      && p.auto != NoAuto && q.materialFee.Some? && noMaterial && Fee(q.materialFee, pid) > 0
      && (p.auto in {GD, HU} ==> forall k :: 0 <= k < |q.pids| ==> q.pids[k] !in q.hasMaterial)
  }

  ghost predicate ShowsMachineFee(p: Profile, q: Quota, pid: string) {
    && q.machineFee.Some?
    && (p.fees == Always
        || (p.fees == ThreeCorrespondence && !HasCategory(q, Machine) && Fee(q.machineFee, pid) > 0
            && (p.auto in {GD, HU} ==> forall k :: 0 <= k < |q.pids| ==> q.pids[k] !in q.hasMachine)))
  }

  /** The head's total. */
  ghost function HeadTotal(p: Profile, q: Quota, pid: string): int {
    (if ShowsLaborFee(p, q) then Fee(q.laborFee, pid) else 0)
    + (if p.auto == SC && ShowsMaterialFee(p, q, pid) then Fee(q.materialFee, pid) else 0)
    + PricedTotal(p, q.items, pid, PercentBase(q.items, pid))
    + (if p.fees == Always && q.machineFee.Some? then Fee(q.machineFee, pid) else 0)
    + FeesTotal(q.summaries, pid)
  }

  // The rows of a project in six groups, and which items stand in two of them.
  datatype Printed = Printed(
    labor: seq<Row>, main: seq<Row>, material: seq<Row>, priced: seq<Row>, machine: seq<Row>, summaries: seq<Row>,
    mainItems: seq<nat>, pricedItems: seq<nat>)

  ghost predicate FeeRowsRight(p: Profile, q: Quota, pid: string, r: Printed) {
    && r.labor == (if ShowsLaborFee(p, q) then [Row("工", "", "人工费", Some(Fee(q.laborFee, pid)))] else [])
    && r.material
       == (if ShowsMaterialFee(p, q, pid) then [Row("料", "", "材料费", Some(Fee(q.materialFee, pid)))] else [])
    && r.machine
       == (if ShowsMachineFee(p, q, pid) then [Row("机", "", "机械费", Some(Fee(q.machineFee, pid)))] else [])
    && |r.summaries| == |q.summaries|
    && forall k :: 0 <= k < |r.summaries| ==>
         r.summaries[k] == Row("综", "", q.summaries[k].0, Some(Fee(Some(q.summaries[k].1), pid)))
  }

  ghost predicate MainRowsRight(q: Quota, r: Printed) {
    && Selects(q.items, r.mainItems, true) && Ascending(r.mainItems) && |r.main| == |r.mainItems|
    && forall k :: 0 <= k < |r.main| ==> r.main[k] == Row("主材", "", q.items[r.mainItems[k]].name, None)
  }

  ghost predicate PricedRowsRight(p: Profile, q: Quota, pid: string, r: Printed) {
    && Selects(q.items, r.pricedItems, false) && |r.priced| == |r.pricedItems|
    && (if p.sortMaterials then ByRank(q.items, r.pricedItems) else Ascending(r.pricedItems))
    && forall k :: 0 <= k < |r.priced| ==>
         var i := q.items[r.pricedItems[k]];
         r.priced[k] == Row(ShownKind(i), "", i.name, ShownValue(p, i, pid, PercentBase(q.items, pid)))
  }

  /** The rows of one project, every one of them, and the total of its head. */
  lemma ProjectPrints(p: Profile, q: Quota, pid: string) returns (r: Printed)
    ensures ProjectRows(p, q, pid)
         == [Row("定", pid, "", if p.fees == NoFees then None else Some(HeadTotal(p, q, pid)))]
            + r.labor + r.main + r.material + r.priced + r.machine + r.summaries + [Row("", "", "", None)]
    ensures FeeRowsRight(p, q, pid, r) && MainRowsRight(q, r) && PricedRowsRight(p, q, pid, r)
  {
    var main, mainItems := PrintsMain(q.items);
    var priced, pricedItems := PrintsPriced(p, q, pid);
    r := Printed(RowsIn(LaborPart(p, q, pid)), main, RowsIn(MaterialPart(p, q, pid)), priced,
                 RowsIn(MachinePart(p, q, pid)), RowsIn(SummaryRows(q.summaries, pid)), mainItems, pricedItems);
    PrintsFees(p, q, pid, r);
    hide *;
    RowsOfInner(p, q, pid);
    TotalIs(p, q, pid);
    HeadIs(p, q, pid, r);
  }

  lemma HeadIs(p: Profile, q: Quota, pid: string, r: Printed)
    requires RowsIn(Inner(p, q, pid)) == r.labor + r.main + r.material + r.priced + r.machine + r.summaries
    requires CountedTotal(p, Inner(p, q, pid)) == HeadTotal(p, q, pid) || p.fees == NoFees
    ensures ProjectRows(p, q, pid)
         == [Row("定", pid, "", if p.fees == NoFees then None else Some(HeadTotal(p, q, pid)))]
            + r.labor + r.main + r.material + r.priced + r.machine + r.summaries + [Row("", "", "", None)]
  {
    hide Inner, RowsIn, CountedTotal, HeadTotal;
    var inner := r.labor + r.main + r.material + r.priced + r.machine + r.summaries;
    assert ProjectRows(p, q, pid)
        == [Row("定", pid, "", if p.fees == NoFees then None else Some(HeadTotal(p, q, pid)))] + inner
           + [Row("", "", "", None)];
  }

  // -------------------------------------------------------- the six groups

  ghost function LaborPart(p: Profile, q: Quota, pid: string): seq<Emitted> {
    if EmitsLaborFee(p, q) then [FeeRow("工", "人工费", FeeAt(q.laborFee, pid), LaborFeeRow)] else []
  }

  ghost function MaterialPart(p: Profile, q: Quota, pid: string): seq<Emitted> {
    if EmitsMaterialFee(p, q, pid) then [FeeRow("料", "材料费", FeeAt(q.materialFee, pid), MaterialFeeRow)] else []
  }

  ghost function MachinePart(p: Profile, q: Quota, pid: string): seq<Emitted> {
    if EmitsMachineFee(p, q, pid) then [FeeRow("机", "机械费", FeeAt(q.machineFee, pid), MachineFeeRow)] else []
  }

  ghost function PricedPart(p: Profile, q: Quota, pid: string): seq<Emitted> {
    DetailRows(p, Ordered(p, q.items), pid, Basis(Ordered(p, q.items), pid))
  }

  lemma RowsOfInner(p: Profile, q: Quota, pid: string)
    ensures RowsIn(Inner(p, q, pid))
         == RowsIn(LaborPart(p, q, pid)) + RowsIn(MainRows(q.items)) + RowsIn(MaterialPart(p, q, pid))
            + RowsIn(PricedPart(p, q, pid)) + RowsIn(MachinePart(p, q, pid)) + RowsIn(SummaryRows(q.summaries, pid))
  {
    InnerParts(p, q, pid);
    hide *;
    RowsInConcat(LaborPart(p, q, pid), MainRows(q.items));
    RowsInConcat(LaborPart(p, q, pid) + MainRows(q.items), MaterialPart(p, q, pid));
    RowsInConcat(LaborPart(p, q, pid) + MainRows(q.items) + MaterialPart(p, q, pid), PricedPart(p, q, pid));
    RowsInConcat(LaborPart(p, q, pid) + MainRows(q.items) + MaterialPart(p, q, pid) + PricedPart(p, q, pid),
                 MachinePart(p, q, pid));
    RowsInConcat(LaborPart(p, q, pid) + MainRows(q.items) + MaterialPart(p, q, pid) + PricedPart(p, q, pid)
                 + MachinePart(p, q, pid), SummaryRows(q.summaries, pid));
  }

  lemma InnerParts(p: Profile, q: Quota, pid: string)
    ensures Inner(p, q, pid)
         == LaborPart(p, q, pid) + MainRows(q.items) + MaterialPart(p, q, pid) + PricedPart(p, q, pid)
            + MachinePart(p, q, pid) + SummaryRows(q.summaries, pid)
  {
  }

  lemma RowsInConcat(a: seq<Emitted>, b: seq<Emitted>)
    ensures RowsIn(a + b) == RowsIn(a) + RowsIn(b)
  {
  }

  lemma BelowIs(q: Quota, c: Category)
    ensures Below(q, c) <==> HasCategory(q, c)
  {
    if i :| i in q.items && i.category == c {
      var k :| 0 <= k < |q.items| && q.items[k] == i;
    }
  }

  /** The three fees are printed when they should be, with what the cost rows say. */
  lemma FeesShown(p: Profile, q: Quota, pid: string)
    ensures EmitsLaborFee(p, q) <==> ShowsLaborFee(p, q)
    ensures EmitsMaterialFee(p, q, pid) <==> ShowsMaterialFee(p, q, pid)
    ensures EmitsMachineFee(p, q, pid) <==> ShowsMachineFee(p, q, pid)
    ensures forall a: Option<Amounts> :: FeeAt(a, pid) == Fee(a, pid)
  {
    BelowIs(q, Labor);
    BelowIs(q, Priced);
    BelowIs(q, Mixed);
    BelowIs(q, Unpriced);
    BelowIs(q, Machine);
    hide Below, HasCategory;
  }

  lemma PrintsFees(p: Profile, q: Quota, pid: string, r: Printed)
    requires r.labor == RowsIn(LaborPart(p, q, pid)) && r.material == RowsIn(MaterialPart(p, q, pid))
    requires r.machine == RowsIn(MachinePart(p, q, pid)) && r.summaries == RowsIn(SummaryRows(q.summaries, pid))
    ensures FeeRowsRight(p, q, pid, r)
  {
    FeesShown(p, q, pid);
    SummariesAt(q.summaries, pid);
    hide EmitsLaborFee, EmitsMaterialFee, EmitsMachineFee, ShowsLaborFee, ShowsMaterialFee, ShowsMachineFee;
    hide SummaryRows;
  }

  // ------------------------------------------------ the items, by position

  /** `sel` names the items that `keep` keeps, in table order. */
  ghost predicate Chosen(items: seq<Item>, keep: Item -> bool, sel: seq<nat>) {
    && Within(items, sel) && Ascending(sel)
    && (forall k :: 0 <= k < |sel| ==> keep(items[sel[k]]))
    && (forall n: nat :: n < |items| && keep(items[n]) ==> n in sel)
  }

  ghost predicate Lists(items: seq<Item>, sel: seq<nat>, kept: seq<Item>) {
    |sel| == |kept| && Within(items, sel) && forall k :: 0 <= k < |sel| ==> kept[k] == items[sel[k]]
  }

  lemma {:induction false} Filtered(items: seq<Item>, keep: Item -> bool) returns (sel: seq<nat>)
    ensures Chosen(items, keep, sel) && Lists(items, sel, Filter(items, keep))
  {
    if items == [] {
      sel := [];
    } else {
      hide Chosen, Lists;
      var n := |items| - 1;
      var front := Filtered(items[..n], keep);
      sel := if keep(items[n]) then front + [n] else front;
      ChooseNext(items, keep, front, sel);
      ListNext(items, front, Filter(items[..n], keep), n);
    }
  }

  lemma ListNext(items: seq<Item>, front: seq<nat>, kept: seq<Item>, n: nat)
    requires n < |items| && Lists(items[..n], front, kept)
    ensures Lists(items, front, kept) && Lists(items, front + [n], kept + [items[n]])
  {
  }

  lemma ChooseNext(items: seq<Item>, keep: Item -> bool, front: seq<nat>, sel: seq<nat>)
    requires items != [] && Chosen(items[..|items| - 1], keep, front)
    requires sel == if keep(items[|items| - 1]) then front + [|items| - 1] else front
    ensures Chosen(items, keep, sel)
  {
    var n := |items| - 1;
    forall m: nat | m < |items| && keep(items[m])
      ensures m in sel
    {
      if m == n {
        assert sel[|front|] == n;
      } else {
        assert items[..n][m] == items[m] && m in front;
      }
    }
  }

  lemma {:induction false} MainRowsAre(items: seq<Item>)
    ensures var kept, rows := Filter(items, (i: Item) => i.category == Unpriced), RowsIn(MainRows(items));
            |rows| == |kept| && forall k :: 0 <= k < |rows| ==> rows[k] == Row("主材", "", kept[k].name, None)
  {
    if items == [] {
    } else {
      MainRowsAre(items[..|items| - 1]);
    }
  }

  lemma PrintsMain(items: seq<Item>) returns (rows: seq<Row>, sel: seq<nat>)
    ensures rows == RowsIn(MainRows(items))
    ensures Selects(items, sel, true) && Ascending(sel) && |rows| == |sel|
    ensures forall k :: 0 <= k < |rows| ==> rows[k] == Row("主材", "", items[sel[k]].name, None)
  {
    sel := Filtered(items, (i: Item) => i.category == Unpriced);
    rows := RowsIn(MainRows(items));
    MainRowsAre(items);
  }

  /** The rows of priced items, in whatever order the items come. */
  lemma {:induction false} DetailRowsAre(p: Profile, items: seq<Item>, pid: string, base: real)
    ensures var kept := Filter(items, (i: Item) => i.category != Unpriced);
            var rows := RowsIn(DetailRows(p, items, pid, base));
            && |rows| == |kept|
            && forall k :: 0 <= k < |rows| ==>
                 rows[k] == Row(ShownKind(kept[k]), "", kept[k].name, ShownValue(p, kept[k], pid, base))
  {
    if items == [] {
    } else {
      hide DetailOf, ShownKind, ShownValue;
      DetailRowsAre(p, items[..|items| - 1], pid, base);
      if items[|items| - 1].category != Unpriced {
        DetailShows(p, items[|items| - 1], pid, base);
      }
    }
  }

  lemma DetailShows(p: Profile, i: Item, pid: string, base: real)
    requires i.category != Unpriced
    ensures DetailOf(p, i, pid, base).row == Row(ShownKind(i), "", i.name, ShownValue(p, i, pid, base))
  {
    WorthIs(i, pid, base);
    hide Worth, ItemWorth;
  }

  lemma WorthIs(i: Item, pid: string, base: real)
    ensures Worth(i, pid, base) == ItemWorth(i, pid, base)
  {
    assert Quantity(i, pid) == Given(i, pid);
  }

  lemma {:induction false} BaseIs(items: seq<Item>, pid: string)
    ensures Basis(items, pid) == PercentBase(items, pid)
  {
    if items == [] {
    } else {
      BaseIs(items[..|items| - 1], pid);
    }
  }

  lemma {:induction false} FilterConcat(a: seq<Item>, b: seq<Item>, keep: Item -> bool)
    ensures Filter(a + b, keep) == Filter(a, keep) + Filter(b, keep)
  {
    if b == [] {
      assert a + b == a;
    } else {
      FilterConcat(a, b[..|b| - 1], keep);
      assert (a + b)[..|a + b| - 1] == a + b[..|b| - 1];
    }
  }

  lemma {:induction false} FilterTwice(items: seq<Item>, f: Item -> bool, g: Item -> bool)
    ensures (forall i :: f(i) ==> g(i)) ==> Filter(Filter(items, f), g) == Filter(items, f)
    ensures (forall i :: f(i) ==> !g(i)) ==> Filter(Filter(items, f), g) == []
  {
    if items == [] {
    } else {
      FilterTwice(items[..|items| - 1], f, g);
      var front := Filter(items[..|items| - 1], f);
      FilterConcat(front, if f(items[|items| - 1]) then [items[|items| - 1]] else [], g);
    }
  }

  /** The priced items of a sorted list are three parts of the table, one after another. */
  lemma SortedParts(items: seq<Item>)
    ensures var plain := Filter(items, (i: Item) => i.category != Unpriced && !i.appendix && i.category != Machine);
            var appendices := Filter(items, (i: Item) => i.category != Unpriced && i.appendix);
            var machines := Filter(items, (i: Item) => i.category == Machine && !i.appendix);
            Filter(Sorted(items), (i: Item) => i.category != Unpriced) == plain + appendices + machines
  {
    hide Filter;
    FourParts(items, (i: Item) => i.category == Unpriced,
              (i: Item) => i.category != Unpriced && !i.appendix && i.category != Machine,
              (i: Item) => i.category != Unpriced && i.appendix,
              (i: Item) => i.category == Machine && !i.appendix, (i: Item) => i.category != Unpriced);
  }

  lemma FourParts(items: seq<Item>, f: Item -> bool, g: Item -> bool, h: Item -> bool, m: Item -> bool,
                  priced: Item -> bool)
    requires (forall i :: f(i) ==> !priced(i)) && (forall i :: g(i) ==> priced(i))
    requires (forall i :: h(i) ==> priced(i)) && (forall i :: m(i) ==> priced(i))
    ensures Filter(Filter(items, f) + Filter(items, g) + Filter(items, h) + Filter(items, m), priced)
         == Filter(items, g) + Filter(items, h) + Filter(items, m)
  {
    hide Filter;
    var a, b, c, d := Filter(items, f), Filter(items, g), Filter(items, h), Filter(items, m);
    FilterTwice(items, f, priced);
    FilterTwice(items, g, priced);
    FilterTwice(items, h, priced);
    FilterTwice(items, m, priced);
    FilterConcat(a + b + c, d, priced);
    FilterConcat(a + b, c, priced);
    FilterConcat(a, b, priced);
  }

  lemma SortedItems(items: seq<Item>) returns (sel: seq<nat>)
    ensures Selects(items, sel, false) && ByRank(items, sel)
    ensures var kept := Filter(Sorted(items), (i: Item) => i.category != Unpriced);
            |sel| == |kept| && forall k :: 0 <= k < |sel| ==> kept[k] == items[sel[k]]
  {
    SortedParts(items);
    var b := Filtered(items, (i: Item) => i.category != Unpriced && !i.appendix && i.category != Machine);
    var c := Filtered(items, (i: Item) => i.category != Unpriced && i.appendix);
    var d := Filtered(items, (i: Item) => i.category == Machine && !i.appendix);
    sel := b + c + d;
    ThreeParts(items, b, c, d);
  }

  lemma ThreeParts(items: seq<Item>, b: seq<nat>, c: seq<nat>, d: seq<nat>)
    requires Chosen(items, (i: Item) => i.category != Unpriced && !i.appendix && i.category != Machine, b)
    requires Chosen(items, (i: Item) => i.category != Unpriced && i.appendix, c)
    requires Chosen(items, (i: Item) => i.category == Machine && !i.appendix, d)
    ensures Selects(items, b + c + d, false) && ByRank(items, b + c + d)
  {
    var sel := b + c + d;
    assert Within(items, sel);
    assert ByRank(items, sel);
    forall x, y | 0 <= x < y < |sel|
      ensures sel[x] != sel[y]
    {
    }
  }

  lemma PrintsPriced(p: Profile, q: Quota, pid: string) returns (rows: seq<Row>, sel: seq<nat>)
    ensures rows == RowsIn(PricedPart(p, q, pid)) && |rows| == |sel| && Selects(q.items, sel, false)
    ensures if p.sortMaterials then ByRank(q.items, sel) else Ascending(sel)
    ensures forall k :: 0 <= k < |rows| ==>
              var i := q.items[sel[k]];
              rows[k] == Row(ShownKind(i), "", i.name, ShownValue(p, i, pid, PercentBase(q.items, pid)))
  {
    hide ShownKind, ShownValue, PercentBase, Basis, DetailRows, Filter;
    rows := RowsIn(PricedPart(p, q, pid));
    OrderDoesNotMatter(p, q.items, pid);
    BaseIs(q.items, pid);
    DetailRowsAre(p, Ordered(p, q.items), pid, PercentBase(q.items, pid));
    if p.sortMaterials {
      sel := SortedItems(q.items);
    } else {
      sel := Filtered(q.items, (i: Item) => i.category != Unpriced);
    }
  }

  // --------------------------------------------------------------- the total

  lemma {:induction false} DetailsCount(p: Profile, items: seq<Item>, pid: string, base: real)
    requires p.fees != NoFees
    ensures CountedDetails(p, items, pid, base) == PricedTotal(p, items, pid, base)
  {
    if items == [] {
    } else {
      DetailsCount(p, items[..|items| - 1], pid, base);
      WorthIs(items[|items| - 1], pid, base);
      hide Worth, ItemWorth;
    }
  }

  lemma {:induction false} FeesCount(ss: seq<(string, Amounts)>, pid: string)
    ensures SummaryTotal(ss, pid) == FeesTotal(ss, pid)
  {
    if ss == [] {
    } else {
      FeesCount(ss[..|ss| - 1], pid);
    }
  }

  lemma TotalIs(p: Profile, q: Quota, pid: string)
    ensures p.fees != NoFees ==> CountedTotal(p, Inner(p, q, pid)) == HeadTotal(p, q, pid)
  {
    if p.fees != NoFees {
      TotalByRule(p, q, pid);
      FeesShown(p, q, pid);
      BaseIs(q.items, pid);
      DetailsCount(p, q.items, pid, Basis(q.items, pid));
      FeesCount(q.summaries, pid);
    }
  }

  // ---------------------------------------------------------- continuations

  /** What an item of a continuation comes to: there is no base, so a percentage is a sum. */
  function ContinuedItemWorth(i: Item, pid: string): real {
    var n := Given(i, pid);
    if i.other || (n != 0.0 && i.price == 0.0) then n else if n == 0.0 then 0.0 else n * i.price
  }

  function ContinuedValue(i: Item, pid: string, cents: Rounding): Option<int> {
    if i.proportion then None else Some(cents(ContinuedItemWorth(i, pid)))
  }

  function ContinuedTotal(items: seq<Item>, pid: string, cents: Rounding): int {
    if items == [] then 0
    else
      var i := items[|items| - 1];
      ContinuedTotal(items[..|items| - 1], pid, cents)
      + if i.category == Unpriced || i.proportion then 0 else ContinuedValue(i, pid, cents).value
  }

  lemma ContinuedIs(i: Item, pid: string, cents: Rounding)
    requires i.category != Unpriced
    ensures ContinuedRow(i, pid, cents) == Row(ShownKind(i), pid, i.name, ContinuedValue(i, pid, cents))
  {
    assert Quantity(i, pid) == Given(i, pid);
    assert ContinuedWorth(i, pid) == ContinuedItemWorth(i, pid);
    hide ContinuedWorth, ContinuedItemWorth;
  }

  lemma {:induction false} OwnRowsAre(items: seq<Item>, pid: string, cents: Rounding)
    ensures var kept, rows := Filter(items, (i: Item) => i.category != Unpriced), OwnRows(items, pid, cents);
            && |rows| == |kept|
            && (forall k :: 0 <= k < |rows| ==>
                 rows[k] == Row(ShownKind(kept[k]), pid, kept[k].name, ContinuedValue(kept[k], pid, cents)))
  {
    if items == [] {
    } else {
      var front, i := items[..|items| - 1], items[|items| - 1];
      hide ContinuedRow, ShownKind, ContinuedValue;
      OwnRowsAre(front, pid, cents);
      if i.category != Unpriced {
        ContinuedIs(i, pid, cents);
      }
    }
  }

  lemma {:induction false} OwnTotal(items: seq<Item>, pid: string, cents: Rounding)
    ensures Total(OwnRows(items, pid, cents)) == ContinuedTotal(items, pid, cents)
  {
    if items == [] {
    } else {
      var front, i := items[..|items| - 1], items[|items| - 1];
      hide ContinuedRow, ShownKind, ContinuedItemWorth, Total;
      OwnTotal(front, pid, cents);
      if i.category != Unpriced {
        ContinuedIs(i, pid, cents);
        OneRowTotals(OwnRows(front, pid, cents), ContinuedRow(i, pid, cents));
      } else {
        assert OwnRows(front, pid, cents) + [] == OwnRows(front, pid, cents);
      }
    }
  }

  lemma OneRowTotals(rows: seq<Row>, r: Row)
    ensures Total(rows + [r]) == Total(rows) + if r.value.Some? then r.value.value else 0
  {
    assert (rows + [r])[..|rows|] == rows;
  }

  /** What a project gets out of a continuation, row by row, and what its total is raised by. */
  lemma ContinuationPrints(items: seq<Item>, pids: seq<string>, cents: Rounding, pid: string)
    returns (rows: seq<Row>, sel: seq<nat>)
    requires NoRepeats(pids) && pid in pids
    ensures rows == RowsOf(ContinuationRows(items, pids, cents), pid)
    ensures Selects(items, sel, false) && Ascending(sel) && |rows| == |sel|
    ensures forall k :: 0 <= k < |rows| ==>
              var i := items[sel[k]]; rows[k] == Row(ShownKind(i), pid, i.name, ContinuedValue(i, pid, cents))
    ensures Total(rows) == ContinuedTotal(items, pid, cents)
  {
    hide Filter, ShownKind, ContinuedValue, OwnRows, ContinuationRows, RowsOf, Total;
    rows := OwnRows(items, pid, cents);
    EachGetsItsRows(items, pids, cents, pid);
    OwnRowsAre(items, pid, cents);
    OwnTotal(items, pid, cents);
    sel := Filtered(items, (i: Item) => i.category != Unpriced);
  }
}
