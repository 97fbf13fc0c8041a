// From a client's cart to the amount due: merging lines, 64-bit totals, discount,
// tax and loyalty redemption; and the same totals as a quote computes them.

module Pricing {
  import opened Int64
  import opened Options
  import opened Tables
  import opened Orders

  const MAX_LINES := 500
  const MAX_QTY := 100_000

  // A price of 0 asks for the catalogue price.
  datatype Item = Item(product: int, qty: int, price: int64)

  datatype Listed = Listed(price: int64, active: bool)

  datatype Entry = Entry(qty: nat, price: int64)

  // The lines so far, by product, and the products in order of first mention.
  datatype Merged = Merged(acc: map<int, Entry>, order: seq<int>)

  // ---- merging ----

  function UnitPrice(catalog: map<int, Listed>, mayOverride: bool, it: Item): Option<int64> {
    if it.product !in catalog || !catalog[it.product].active then None
    else
      var listed := catalog[it.product].price;
      if it.price != 0 && it.price != listed then
        if mayOverride && 0 <= it.price <= MAX_PRICE_CENTS then Some(it.price) else None
      else if listed > MAX_PRICE_CENTS then None
      else Some(listed)
  }

  function TakeItem(catalog: map<int, Listed>, mayOverride: bool, m: Merged, it: Item): Option<Merged> {
    if it.qty <= 0 || it.qty > MAX_QTY then None
    else if it.product in m.acc then
      var e := m.acc[it.product];
      if e.qty + it.qty > MAX_QTY then None else Some(m.(acc := m.acc[it.product := e.(qty := e.qty + it.qty)]))
    else match UnitPrice(catalog, mayOverride, it)
         case None => None
         case Some(price) => Some(Merged(m.acc[it.product := Entry(it.qty, price)], m.order + [it.product]))
  }

  function Merge(catalog: map<int, Listed>, mayOverride: bool, items: seq<Item>): Option<Merged> {
    if items == [] then Some(Merged(map[], []))
    else match Merge(catalog, mayOverride, items[..|items| - 1])
         case None => None
         case Some(m) => TakeItem(catalog, mayOverride, m, items[|items| - 1])
  }

  lemma {:induction false} MergeStaysNone(catalog: map<int, Listed>, mayOverride: bool, items: seq<Item>, n: nat)
    requires n <= |items| && Merge(catalog, mayOverride, items[..n]).None?
    ensures Merge(catalog, mayOverride, items).None?
  {
    if n == |items| {
      assert items[..n] == items;
    } else {
      assert items[..|items| - 1][..n] == items[..n];
      MergeStaysNone(catalog, mayOverride, items[..|items| - 1], n);
    }
  }

  method MergeItems(catalog: map<int, Listed>, mayOverride: bool, items: seq<Item>) returns (merged: Option<Merged>)
    ensures merged == Merge(catalog, mayOverride, items)
  {
    var acc: map<int, Entry> := map[];
    var order: seq<int> := [];
    for i := 0 to |items|
      invariant Merge(catalog, mayOverride, items[..i]) == Some(Merged(acc, order))
    {
      var it := items[i];
      assert items[..i + 1][..i] == items[..i];
      if TakeItem(catalog, mayOverride, Merged(acc, order), it).None? {
        MergeStaysNone(catalog, mayOverride, items, i + 1);
      }
      if it.qty <= 0 || it.qty > MAX_QTY {
        return None;
      }
      if it.product in acc {
        var e := acc[it.product];
        if e.qty + it.qty > MAX_QTY {
          return None;
        }
        acc := acc[it.product := e.(qty := e.qty + it.qty)];
      } else {
        var price := UnitPrice(catalog, mayOverride, it);
        if price.None? {
          return None;
        }
        acc := acc[it.product := Entry(it.qty, price.value)];
        order := order + [it.product];
      }
    }
    assert items[..|items|] == items;
    merged := Some(Merged(acc, order));
  }

  // ---- what merging means ----

  function QtyOf(items: seq<Item>, p: int): int {
    if items == [] then 0
    else QtyOf(items[..|items| - 1], p) + if items[|items| - 1].product == p then items[|items| - 1].qty else 0
  }

  // Index of the first item for product p, or |items|.
  function First(items: seq<Item>, p: int): (i: nat)
    ensures i <= |items|
    ensures i < |items| ==> items[i].product == p
    ensures forall j :: 0 <= j < i ==> items[j].product != p
  {
    if items == [] then 0
    else
      var n := |items| - 1;
      var i := First(items[..n], p);
      if i < n then i else if items[n].product == p then n else |items|
  }

  // Product p has its whole quantity and the price of its first item.
  ghost predicate EntryOk(catalog: map<int, Listed>, mayOverride: bool, items: seq<Item>, e: Entry, p: int) {
    && First(items, p) < |items|
    && e.qty == QtyOf(items, p) && 1 <= e.qty <= MAX_QTY
    && UnitPrice(catalog, mayOverride, items[First(items, p)]) == Some(e.price)
  }

  // In order of first mention.
  predicate InOrder(items: seq<Item>, order: seq<int>) {
    forall i, j :: 0 <= i < j < |order| ==> First(items, order[i]) < First(items, order[j])
  }

  // Every product of the items once.
  ghost predicate MergedFrom(catalog: map<int, Listed>, mayOverride: bool, items: seq<Item>, m: Merged) {
    && (forall p :: p in m.order <==> p in m.acc)
    && (forall p :: p in m.acc ==> EntryOk(catalog, mayOverride, items, m.acc[p], p))
    && (forall it :: it in items ==> it.product in m.acc)
    && InOrder(items, m.order)
  }

  lemma {:induction false} QtyNone(items: seq<Item>, p: int)
    requires forall it :: it in items ==> it.product != p
    ensures QtyOf(items, p) == 0 && First(items, p) == |items|
  {
    if items != [] {
      QtyNone(items[..|items| - 1], p);
    }
  }

  lemma OtherEntryOk(catalog: map<int, Listed>, mayOverride: bool, items: seq<Item>, it: Item, e: Entry, p: int)
    requires EntryOk(catalog, mayOverride, items, e, p) && it.product != p
    ensures EntryOk(catalog, mayOverride, items + [it], e, p) && First(items + [it], p) == First(items, p)
  {
  }

  lemma OwnEntryOk(catalog: map<int, Listed>, mayOverride: bool, items: seq<Item>, it: Item, e: Entry)
    requires EntryOk(catalog, mayOverride, items, e, it.product) && 0 < it.qty && e.qty + it.qty <= MAX_QTY
    ensures EntryOk(catalog, mayOverride, items + [it], e.(qty := e.qty + it.qty), it.product)
    ensures First(items + [it], it.product) == First(items, it.product)
  {
  }

  lemma NewEntryOk(catalog: map<int, Listed>, mayOverride: bool, items: seq<Item>, it: Item, price: int64)
    requires forall x :: x in items ==> x.product != it.product
    requires 0 < it.qty <= MAX_QTY && UnitPrice(catalog, mayOverride, it) == Some(price)
    ensures EntryOk(catalog, mayOverride, items + [it], Entry(it.qty, price), it.product)
    ensures First(items + [it], it.product) == |items|
  {
  }

  // Another item does not move the products already mentioned.
  lemma OrderStays(items: seq<Item>, it: Item, order: seq<int>)
    requires InOrder(items, order) && forall i :: 0 <= i < |order| ==> First(items, order[i]) < |items|
    ensures InOrder(items + [it], order) && forall i :: 0 <= i < |order| ==> First(items + [it], order[i]) == First(items, order[i])
  {
  }

  lemma OrderKnown(catalog: map<int, Listed>, mayOverride: bool, items: seq<Item>, m: Merged, i: nat)
    requires MergedFrom(catalog, mayOverride, items, m) && i < |m.order|
    ensures m.order[i] in m.acc && First(items, m.order[i]) < |items|
  {
  }

  lemma EntriesStayOk(catalog: map<int, Listed>, mayOverride: bool, items: seq<Item>, m: Merged, it: Item, t: Merged, p: int)
    requires MergedFrom(catalog, mayOverride, items, m) && TakeItem(catalog, mayOverride, m, it) == Some(t) && p in t.acc
    ensures EntryOk(catalog, mayOverride, items + [it], t.acc[p], p)
  {
    if p != it.product {
      OtherEntryOk(catalog, mayOverride, items, it, m.acc[p], p);
    } else if p in m.acc {
      OwnEntryOk(catalog, mayOverride, items, it, m.acc[p]);
    } else {
      NewEntryOk(catalog, mayOverride, items, it, t.acc[p].price);
    }
  }

  lemma TakeItemMerges(catalog: map<int, Listed>, mayOverride: bool, items: seq<Item>, m: Merged, it: Item, t: Merged)
    requires MergedFrom(catalog, mayOverride, items, m) && TakeItem(catalog, mayOverride, m, it) == Some(t)
    ensures MergedFrom(catalog, mayOverride, items + [it], t)
  {
    forall i | 0 <= i < |m.order|
      ensures First(items, m.order[i]) < |items|
    {
      OrderKnown(catalog, mayOverride, items, m, i);
    }
    OrderStays(items, it, m.order);
    forall p | p in t.acc
      ensures EntryOk(catalog, mayOverride, items + [it], t.acc[p], p)
    {
      EntriesStayOk(catalog, mayOverride, items, m, it, t, p);
    }
    if it.product !in m.acc {
      NewEntryOk(catalog, mayOverride, items, it, t.acc[it.product].price);
    }
  }

  lemma {:induction false} MergeMeans(catalog: map<int, Listed>, mayOverride: bool, items: seq<Item>)
    requires Merge(catalog, mayOverride, items).Some?
    ensures MergedFrom(catalog, mayOverride, items, Merge(catalog, mayOverride, items).value)
  {
    if items != [] {
      var rest := items[..|items| - 1];
      MergeMeans(catalog, mayOverride, rest);
      assert rest + [items[|items| - 1]] == items;
      TakeItemMerges(catalog, mayOverride, rest, Merge(catalog, mayOverride, rest).value, items[|items| - 1],
                     Merge(catalog, mayOverride, items).value);
    }
  }

  // ---- which carts merge ----

  // The catalogue price, or another one within range for those who may set it.
  predicate FairPrice(catalog: map<int, Listed>, mayOverride: bool, it: Item, price: int64) {
    && it.product in catalog && catalog[it.product].active
    && (if it.price == 0 || it.price == catalog[it.product].price then price == catalog[it.product].price
        else price == it.price && price >= 0 && mayOverride)
    && price <= 1_000_000_000_000
  }

  lemma UnitPriceIff(catalog: map<int, Listed>, mayOverride: bool, it: Item, price: int64)
    ensures UnitPrice(catalog, mayOverride, it) == Some(price) <==> FairPrice(catalog, mayOverride, it, price)
  {
  }

  // Sensible quantities, line by line and product by product, and a price for every
  // product at its first mention.
  ghost predicate Mergeable(catalog: map<int, Listed>, mayOverride: bool, items: seq<Item>) {
    forall i :: 0 <= i < |items| ==>
      && 0 < items[i].qty <= 100_000 && QtyOf(items, items[i].product) <= 100_000
      && (First(items, items[i].product) == i ==> exists price :: FairPrice(catalog, mayOverride, items[i], price))
  }

  lemma {:induction false} QtyPositive(items: seq<Item>, p: int)
    requires forall i :: 0 <= i < |items| ==> items[i].qty > 0
    ensures QtyOf(items, p) >= 0
  {
    if items != [] {
      QtyPositive(items[..|items| - 1], p);
    }
  }

  lemma FirstBefore(items: seq<Item>, it: Item, i: nat)
    requires i < |items|
    ensures First(items + [it], items[i].product) == First(items, items[i].product) <= i
  {
  }

  lemma MergeableBefore(catalog: map<int, Listed>, mayOverride: bool, items: seq<Item>, it: Item)
    requires Mergeable(catalog, mayOverride, items + [it])
    ensures Mergeable(catalog, mayOverride, items)
  {
    var all := items + [it];
    assert all[|items|] == it;
    forall i | 0 <= i < |items|
      ensures 0 < items[i].qty <= 100_000 && QtyOf(items, items[i].product) <= 100_000
      ensures First(items, items[i].product) == i ==> exists price :: FairPrice(catalog, mayOverride, items[i], price)
    {
      assert all[i] == items[i];
      FirstBefore(items, it, i);
    }
  }

  // The next item is taken exactly when the cart with it is still mergeable.
  lemma TakeIff(catalog: map<int, Listed>, mayOverride: bool, items: seq<Item>, m: Merged, it: Item)
    requires Mergeable(catalog, mayOverride, items) && MergedFrom(catalog, mayOverride, items, m)
    ensures TakeItem(catalog, mayOverride, m, it).Some? <==> Mergeable(catalog, mayOverride, items + [it])
  {
    var all := items + [it];
    var n := |items|;
    assert all[n] == it && all[..n] == items;
    forall i | 0 <= i < n
      ensures First(all, items[i].product) == First(items, items[i].product)
      ensures all[i] == items[i] && items[i].product in m.acc
    {
      FirstBefore(items, it, i);
      assert items[i] in items;
    }
    if it.product in m.acc {
      assert EntryOk(catalog, mayOverride, items, m.acc[it.product], it.product);
      assert First(all, it.product) < n;
    } else {
      QtyNone(items, it.product);
      assert First(all, it.product) == n;
      assert UnitPrice(catalog, mayOverride, it).Some? <==> exists price :: FairPrice(catalog, mayOverride, it, price) by {
        FairIff(catalog, mayOverride, it);
      }
    }
    if TakeItem(catalog, mayOverride, m, it).Some? {
      TakenMergeable(catalog, mayOverride, items, m, it);
    }
  }

  lemma FairIff(catalog: map<int, Listed>, mayOverride: bool, it: Item)
    ensures UnitPrice(catalog, mayOverride, it).Some? <==> exists price :: FairPrice(catalog, mayOverride, it, price)
  {
    var u := UnitPrice(catalog, mayOverride, it);
    if u.Some? {
      UnitPriceIff(catalog, mayOverride, it, u.value);
    }
    if exists price :: FairPrice(catalog, mayOverride, it, price) {
      var price :| FairPrice(catalog, mayOverride, it, price);
      UnitPriceIff(catalog, mayOverride, it, price);
    }
  }

  lemma TakenMergeable(catalog: map<int, Listed>, mayOverride: bool, items: seq<Item>, m: Merged, it: Item)
    requires Mergeable(catalog, mayOverride, items) && MergedFrom(catalog, mayOverride, items, m)
    requires TakeItem(catalog, mayOverride, m, it).Some?
    ensures Mergeable(catalog, mayOverride, items + [it])
  {
    var all := items + [it];
    var n := |items|;
    assert all[n] == it && all[..n] == items;
    forall i | 0 <= i < n
      ensures First(all, items[i].product) == First(items, items[i].product)
      ensures all[i] == items[i] && items[i].product in m.acc
    {
      FirstBefore(items, it, i);
      assert items[i] in items;
    }
    if it.product in m.acc {
      assert EntryOk(catalog, mayOverride, items, m.acc[it.product], it.product);
    } else {
      QtyNone(items, it.product);
      FairIff(catalog, mayOverride, it);
    }
  }

  // A cart is merged exactly when it is mergeable.
  lemma {:induction false} MergeIff(catalog: map<int, Listed>, mayOverride: bool, items: seq<Item>)
    ensures Merge(catalog, mayOverride, items).Some? <==> Mergeable(catalog, mayOverride, items)
  {
    if items != [] {
      var n := |items| - 1;
      MergeIff(catalog, mayOverride, items[..n]);
      assert items == items[..n] + [items[n]];
      if Mergeable(catalog, mayOverride, items) {
        MergeableBefore(catalog, mayOverride, items[..n], items[n]);
      }
      if Merge(catalog, mayOverride, items[..n]).Some? {
        MergeMeans(catalog, mayOverride, items[..n]);
        TakeIff(catalog, mayOverride, items[..n], Merge(catalog, mayOverride, items[..n]).value, items[n]);
      }
    }
  }

  function LinesOf(m: Merged): (lines: seq<Line>)
    ensures |lines| == |m.order|
  {
    seq(|m.order|, i requires 0 <= i < |m.order| => LineOf(m, m.order[i]))
  }

  function LineOf(m: Merged, p: int): Line {
    if p in m.acc then Line(p, m.acc[p].qty, m.acc[p].price) else Line(p, 0, 0)
  }
}
