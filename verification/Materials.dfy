/**
 The material rows of a quota table, as read from its cells, and what they come to: quantity
 times price, or for other materials a sum or a percentage. Quantities and prices are exact;
 how an amount is rounded to cents when it is printed is a parameter.
 */
module Materials {
  import opened Catalogue

  datatype Category = Labor | Priced | Mixed | Machine | Unpriced

  // `other` marks other materials, `fuel` the ones named as belonging to a machine.
  datatype Item = Item(
    category: Category, name: string, proportion: bool, appendix: bool, other: bool, percent: bool, fuel: bool,
    price: real, quantities: map<string, real>)

  type Rounding = real -> int

  /** The kind of row that an item is printed as. */
  function KindOf(i: Item): string {
    match i.category
    case Labor => "工"
    case Priced => if i.proportion then "配" else "料"
    case Mixed => "配"
    case Machine => "机"
    case Unpriced => "主材"
  }

  function Quantity(i: Item, pid: string): real {
    if pid in i.quantities then i.quantities[pid] else 0.0
  }

  /** Without a price the quantity is the amount. */
  function Plain(i: Item, pid: string): real {
    var n := Quantity(i, pid);
    if n == 0.0 then 0.0 else if i.price == 0.0 then n else n * i.price
  }

  /** In a main table other materials may be a percentage of the basis. */
  function Worth(i: Item, pid: string, basis: real): real {
    if !i.other then Plain(i, pid)
    else if i.percent then basis * Quantity(i, pid) / 100.0
    else Quantity(i, pid)
  }

  /** In a continuation they never are. */
  function ContinuedWorth(i: Item, pid: string): real {
    if i.other then Quantity(i, pid) else Plain(i, pid)
  }

  function Sum(items: seq<Item>, f: Item -> real): real {
    if items == [] then 0.0 else Sum(items[..|items| - 1], f) + f(items[|items| - 1])
  }

  /** Does an item belong to what other materials are a percentage of? */
  predicate IsBasic(i: Item) {
    !i.other && (i.category == Priced || i.category == Mixed) && !i.proportion && !i.appendix && !i.fuel
  }

  function BasicWorth(pid: string): Item -> real {
    (i: Item) => if IsBasic(i) then Plain(i, pid) else 0.0
  }

  /** What other materials are a percentage of. */
  function Basis(items: seq<Item>, pid: string): real {
    Sum(items, BasicWorth(pid))
  }

  /** The loop that adds it up. */
  method AddBasis(items: seq<Item>, pid: string) returns (basis: real)
    ensures basis == Basis(items, pid)
  {
    basis := 0.0;
    var k := 0;
    while k < |items|
      invariant 0 <= k <= |items|
      invariant basis == Sum(items[..k], BasicWorth(pid))
    {
      var i := items[k];
      assert items[..k + 1][..k] == items[..k];
      k := k + 1;
      if i.other || (i.category != Priced && i.category != Mixed) || i.proportion || i.appendix || i.fuel {
        continue;
      }
      basis := basis + Plain(i, pid);
    }
    assert items[..k] == items;
  }

  // ------------------------------------------------------ sums in any order

  lemma {:induction false} SumConcat(a: seq<Item>, b: seq<Item>, f: Item -> real)
    ensures Sum(a + b, f) == Sum(a, f) + Sum(b, f)
  {
    if b == [] {
      assert a + b == a;
    } else {
      SumConcat(a, b[..|b| - 1], f);
      assert (a + b)[..|a + b| - 1] == a + b[..|b| - 1];
    }
  }

  /** Plain materials first, then appendices, then machines; unpriced ones in front of all. */
  function Sorted(items: seq<Item>): seq<Item> {
    Filter(items, (i: Item) => i.category == Unpriced)
    + Filter(items, (i: Item) => i.category != Unpriced && !i.appendix && i.category != Machine)
    + Filter(items, (i: Item) => i.category != Unpriced && i.appendix)
    + Filter(items, (i: Item) => i.category == Machine && !i.appendix)
  }

  /** Sorting changes no sum. */
  lemma SortedSum(items: seq<Item>, f: Item -> real)
    ensures Sum(Sorted(items), f) == Sum(items, f)
  {
    var a := Filter(items, (i: Item) => i.category == Unpriced);
    var b := Filter(items, (i: Item) => i.category != Unpriced && !i.appendix && i.category != Machine);
    var c := Filter(items, (i: Item) => i.category != Unpriced && i.appendix);
    var d := Filter(items, (i: Item) => i.category == Machine && !i.appendix);
    SumConcat(a + b + c, d, f);
    SumConcat(a + b, c, f);
    SumConcat(a, b, f);
    PartsAddUp(items, f);
  }

  lemma {:induction false} PartsAddUp(items: seq<Item>, f: Item -> real)
    ensures Sum(items, f) ==
            Sum(Filter(items, (i: Item) => i.category == Unpriced), f)
            + Sum(Filter(items, (i: Item) => i.category != Unpriced && !i.appendix && i.category != Machine), f)
            + Sum(Filter(items, (i: Item) => i.category != Unpriced && i.appendix), f)
            + Sum(Filter(items, (i: Item) => i.category == Machine && !i.appendix), f)
  {
    if items == [] {
    } else {
      PartsAddUp(items[..|items| - 1], f);
      FilterLast(items, (i: Item) => i.category == Unpriced, f);
      FilterLast(items, (i: Item) => i.category != Unpriced && !i.appendix && i.category != Machine, f);
      FilterLast(items, (i: Item) => i.category != Unpriced && i.appendix, f);
      FilterLast(items, (i: Item) => i.category == Machine && !i.appendix, f);
    }
  }

  lemma FilterLast(items: seq<Item>, keep: Item -> bool, f: Item -> real)
    requires items != []
    ensures var front, last := items[..|items| - 1], items[|items| - 1];
            Sum(Filter(items, keep), f) == Sum(Filter(front, keep), f) + if keep(last) then f(last) else 0.0
  {
    var front, last := items[..|items| - 1], items[|items| - 1];
    SumConcat(Filter(front, keep), if keep(last) then [last] else [], f);
    assert [last][..0] == [] && Sum([], f) == 0.0;
    assert Sum([last], f) == f(last);
  }
}
