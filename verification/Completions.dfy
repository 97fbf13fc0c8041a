// What one completed payment does to each table, for callers who never saw the code.

module Completions {
  import opened Sums
  import opened Tables
  import opened Tallies
  import opened TallyLaws
  import opened Orders
  import opened StockLaw
  import opened TillSteps

  // ---- the tables of a sale that becomes PAID ----

  predicate Earns(order: Order, cfg: Config) {
    order.customer != NO_CUSTOMER && cfg.loyalty && 0 < cfg.earnPer <= order.total
  }

  // A tracked line asks for more than the shelf holds.
  predicate Oversold(ps: map<int, Product>, lines: seq<Line>) {
    exists l :: l in lines && l.product in ps && ps[l.product].tracked && ps[l.product].stock < l.qty
  }

  // Tracked lines that the shelf covers leave it; nothing else moves.
  predicate ShelvesSold(ps: map<int, Product>, qs: map<int, Product>, lines: seq<Line>) {
    && qs.Keys == ps.Keys
    && (forall q :: q in ps ==> qs[q] == ps[q].(stock := qs[q].stock))
    && (forall l :: l in lines && l.product in ps ==>
          qs[l.product].stock
          == ps[l.product].stock - if ps[l.product].tracked && l.qty <= ps[l.product].stock then l.qty else 0)
    && (forall q :: q in ps && (forall l :: l in lines ==> l.product != q) ==> qs[q].stock == ps[q].stock)
  }

  // One loyalty row and its points, when the order earns any: a point for every
  // full earnPer cents.
  predicate PointsEarned(s: Shop, t: Shop, order: Order, o: nat, cfg: Config) {
    if Earns(order, cfg) then
      && order.customer in s.customers && |t.ledger| == |s.ledger| + 1
      && var r := t.ledger[|s.ledger|];
         && t.ledger == s.ledger + [Row(order.customer, o, Loyalty, 0, r.points, Earned)]
         && r.points * cfg.earnPer <= order.total < (r.points + 1) * cfg.earnPer
         && t.customers == s.customers[order.customer := s.customers[order.customer].(points := s.customers[order.customer].points + r.points)]
    else
      t.ledger == s.ledger && t.customers == s.customers
  }

  function FaceIs(v: int): Card -> int { (k: Card) => One(k.initial == v) }

  function UnitsAt(ps: map<int, Product>, v: int): Line -> int {
    (l: Line) => if l.product in ps && ps[l.product].gift && l.price == v then l.qty else 0
  }

  predicate FreshCard(k: Card, o: nat) {
    k == Card(o, k.initial, k.initial, CardActive, NO_CUSTOMER)
  }

  // New cards only, and of every face value as many as gift units sold at that price.
  ghost predicate CardsSold(a: seq<Card>, b: seq<Card>, o: nat, lines: seq<Line>, ps: map<int, Product>) {
    && a <= b
    && (forall k :: k in b[|a|..] ==> FreshCard(k, o))
    && (forall v :: Sum(b[|a|..], FaceIs(v)) == Sum(lines, UnitsAt(ps, v)))
  }

  // The order remembers which lines left the shelf and what it earned.
  predicate Remembered(s: Shop, t: Shop, order: Order, effects: Effects, cfg: Config) {
    && effects.PaidWith? && |effects.taken| == |order.lines|
    && (forall i :: 0 <= i < |order.lines| ==> effects.taken[i] == Covers(s.products, order.lines[i]))
    && (if Earns(order, cfg) then |t.ledger| == |s.ledger| + 1 && effects.earned == t.ledger[|s.ledger|].points else effects.earned == 0)
  }

  // The tables other than payments, once PENDING order o has become PAID. What is left
  // open is the order's discrepancy flag.
  ghost predicate SaleDone(s: Shop, t: Shop, o: nat, cfg: Config) {
    && o < |s.orders| && |t.orders| == |s.orders|
    && var order := s.orders[o];
       && t.orders == s.orders[o := order.(status := Paid, flagged := t.orders[o].flagged, effects := t.orders[o].effects)]
       && Remembered(s, t, order, t.orders[o].effects, cfg)
       && ShelvesSold(s.products, t.products, order.lines)
       && PointsEarned(s, t, order, o, cfg)
       && CardsSold(s.cards, t.cards, o, order.lines, s.products)
  }

  // ---- pieces ----

  lemma PointsDue(order: Order, cfg: Config)
    ensures EarnDue(order, cfg) > 0 <==> Earns(order, cfg)
    ensures Earns(order, cfg) ==> EarnDue(order, cfg) * cfg.earnPer <= order.total < (EarnDue(order, cfg) + 1) * cfg.earnPer
  {
    if order.customer != NO_CUSTOMER && cfg.loyalty && cfg.earnPer > 0 && order.total > 0 {
      Quotient(order.total, cfg.earnPer);
    }
  }

  lemma Quotient(total: int, per: int)
    requires total > 0 && per > 0
    ensures total / per * per <= total < (total / per + 1) * per
    ensures total / per > 0 <==> per <= total
  {
    assert total == total / per * per + total % per;
    assert (total / per + 1) * per == total / per * per + per;
    if total / per > 0 {
      assert total / per * per >= per by { AtLeastOnce(total / per, per); }
    }
  }

  lemma AtLeastOnce(n: int, per: int)
    requires n > 0 && per > 0
    ensures n * per >= per
  {
  }

  lemma DeductedLine(ps: map<int, Product>, lines: seq<Line>, l: Line)
    requires Distinct(lines) && l in lines && l.product in ps
    ensures var qs := Deduct(ps, lines).products;
            qs[l.product].stock == ps[l.product].stock - if ps[l.product].tracked && l.qty <= ps[l.product].stock then l.qty else 0
  {
    var i :| 0 <= i < |lines| && lines[i] == l;
    DeductedAt(ps, lines, i);
  }

  lemma {:induction false} DeductedAt(ps: map<int, Product>, lines: seq<Line>, i: nat)
    requires Distinct(lines) && i < |lines| && lines[i].product in ps
    ensures var qs := Deduct(ps, lines).products; var p := ps[lines[i].product];
            qs[lines[i].product].stock == p.stock - if p.tracked && lines[i].qty <= p.stock then lines[i].qty else 0
  {
    var n := |lines| - 1;
    if i < n {
      DeductedAt(ps, lines[..n], i);
    } else {
      forall l | l in lines[..n]
        ensures l.product != lines[n].product
      {
        var j :| 0 <= j < n && lines[j] == l;
      }
      DeductUntouched(ps, lines[..n], lines[n].product);
    }
  }

  lemma {:induction false} DeductMovesStock(ps: map<int, Product>, lines: seq<Line>, q: int)
    requires q in ps
    ensures var qs := Deduct(ps, lines).products; qs[q] == ps[q].(stock := qs[q].stock)
  {
    if lines != [] {
      DeductMovesStock(ps, lines[..|lines| - 1], q);
    }
  }

  lemma DeductSells(ps: map<int, Product>, lines: seq<Line>)
    requires Distinct(lines)
    ensures ShelvesSold(ps, Deduct(ps, lines).products, lines)
  {
    var qs := Deduct(ps, lines).products;
    forall q | q in ps
      ensures qs[q] == ps[q].(stock := qs[q].stock)
    {
      DeductMovesStock(ps, lines, q);
    }
    forall l | l in lines && l.product in ps
      ensures qs[l.product].stock == ps[l.product].stock - if ps[l.product].tracked && l.qty <= ps[l.product].stock then l.qty else 0
    {
      DeductedLine(ps, lines, l);
    }
    forall q | q in ps && forall l :: l in lines ==> l.product != q
      ensures qs[q].stock == ps[q].stock
    {
      DeductUntouched(ps, lines, q);
    }
  }

  lemma ShortIffOversold(ps: map<int, Product>, lines: seq<Line>)
    requires Distinct(lines)
    ensures Short(ps, lines) <==> Oversold(ps, lines)
  {
    CoveredIffNotShort(ps, lines);
  }

  lemma {:induction false} MintFaces(o: nat, lines: seq<Line>, ps: map<int, Product>, v: int)
    ensures Sum(Mint(o, lines, ps), FaceIs(v)) == Sum(lines, UnitsAt(ps, v))
  {
    if lines != [] {
      var n := |lines| - 1;
      var l := lines[n];
      MintFaces(o, lines[..n], ps, v);
      if l.product in ps && ps[l.product].gift {
        var card := Card(o, l.price, l.price, CardActive, NO_CUSTOMER);
        CopiesSummed(l.qty, card, FaceIs(v));
        SumConcat(Mint(o, lines[..n], ps), seq(l.qty, _ => card), FaceIs(v));
      } else {
        assert Mint(o, lines, ps) == Mint(o, lines[..n], ps);
      }
    }
  }

  lemma {:induction false} MintIsFresh(o: nat, lines: seq<Line>, ps: map<int, Product>)
    ensures forall k :: k in Mint(o, lines, ps) ==> FreshCard(k, o)
  {
    if lines != [] {
      MintIsFresh(o, lines[..|lines| - 1], ps);
    }
  }

  lemma MintSells(a: seq<Card>, o: nat, lines: seq<Line>, ps: map<int, Product>)
    ensures CardsSold(a, a + Mint(o, lines, ps), o, lines, ps)
  {
    var b := a + Mint(o, lines, ps);
    assert b[|a|..] == Mint(o, lines, ps);
    MintIsFresh(o, lines, ps);
    forall v
      ensures Sum(b[|a|..], FaceIs(v)) == Sum(lines, UnitsAt(ps, v))
    {
      MintFaces(o, lines, ps, v);
    }
  }

  // What a sale needs of the other tables to become PAID.
  predicate Sellable(s: Shop, order: Order, cfg: Config) {
    KnownLines(s.products, order.lines) && Distinct(order.lines) && (Earns(order, cfg) ==> order.customer in s.customers)
  }

  lemma SellableSettles(s: Shop, order: Order, cfg: Config)
    requires Distinct(order.lines)
    ensures Sellable(s, order, cfg) <==> Settleable(s, order, cfg)
  {
    PointsDue(order, cfg);
  }

  lemma SettleSells(s: Shop, o: nat, cfg: Config)
    requires o < |s.orders| && Sellable(s, s.orders[o], cfg) && Settleable(s, s.orders[o], cfg)
    ensures var t := Settle(s, o, cfg); SaleDone(s, t, o, cfg) && t.legs == s.legs && t.orders[o].flagged == s.orders[o].flagged
  {
    var order := s.orders[o];
    PointsDue(order, cfg);
    DeductSells(s.products, order.lines);
    forall i | 0 <= i < |order.lines|
      ensures Deduct(s.products, order.lines).taken[i] == Covers(s.products, order.lines[i])
    {
      DeductTakes(s.products, order.lines, i);
    }
    MintSells(s.cards, o, order.lines, s.products);
  }

  // ---- completePayment ----

  predicate ReceiptFree(legs: seq<Leg>, receipt: string, p: nat) {
    receipt == "" || forall j :: 0 <= j < |legs| && j != p ==> legs[j].receipt != receipt
  }

  // Leg p is open, its order can take the money, and no other leg carries the receipt.
  predicate Payable(s: Shop, p: nat, receipt: string, cfg: Config) {
    && p < |s.legs| && s.legs[p].order < |s.orders| && s.legs[p].status != LegCompleted
    && s.orders[s.legs[p].order].status != Voided && ReceiptFree(s.legs, receipt, p)
    && Distinct(s.orders[s.legs[p].order].lines)
    && (s.orders[s.legs[p].order].status == Pending ==> Sellable(s, s.orders[s.legs[p].order], cfg))
  }

  // The amount reported is not the leg's, the order had been paid, or stock is short.
  predicate Suspicious(s: Shop, p: nat, amount: int)
    requires p < |s.legs| && s.legs[p].order < |s.orders|
  {
    var order := s.orders[s.legs[p].order];
    amount <= 0 || amount != s.legs[p].amount || order.status == Paid || Oversold(s.products, order.lines)
  }

  lemma PayableGoes(s: Shop, p: nat, receipt: string, amount: int, cfg: Config)
    requires Payable(s, p, receipt, cfg)
    ensures var o := s.legs[p].order; var order := s.orders[o]; var tx := Complete(s, p, receipt, amount, cfg);
            && !ReceiptTaken(s.legs, receipt, p)
            && (order.status == Pending ==> Settleable(s, order, cfg))
            && (Short(s.products, order.lines) <==> Oversold(s.products, order.lines))
            && tx.out == Ok
            && tx.shop == Flag(if order.status == Pending then Settle(s, o, cfg) else s, o, Suspicious(s, p, amount)).(legs := tx.shop.legs)
  {
    SellableSettles(s, s.orders[s.legs[p].order], cfg);
    ShortIffOversold(s.products, s.orders[s.legs[p].order].lines);
  }

  // Exactly one leg is written: COMPLETED, with the receipt if there is one and with
  // what it had otherwise.
  lemma CompletedLeg(s: Shop, p: nat, receipt: string, amount: int, cfg: Config)
    requires Payable(s, p, receipt, cfg)
    ensures var tx := Complete(s, p, receipt, amount, cfg); var leg := s.legs[p];
            && tx.out == Ok
            && tx.shop.legs == s.legs[p := leg.(status := LegCompleted, receipt := if receipt == "" then leg.receipt else receipt,
                                                flagged := Suspicious(s, p, amount))]
  {
    PayableGoes(s, p, receipt, amount, cfg);
  }

  // A PENDING order becomes PAID with all that goes with it, and is flagged when
  // anything is suspicious.
  lemma CompletedSale(s: Shop, p: nat, receipt: string, amount: int, cfg: Config)
    requires Payable(s, p, receipt, cfg) && s.orders[s.legs[p].order].status == Pending
    ensures var t := Complete(s, p, receipt, amount, cfg).shop; var o := s.legs[p].order;
            && SaleDone(s, t, o, cfg)
            && (t.orders[o].flagged <==> s.orders[o].flagged || Suspicious(s, p, amount))
  {
    var o := s.legs[p].order;
    PayableGoes(s, p, receipt, amount, cfg);
    SettleSells(s, o, cfg);
    FlaggedSale(s, Settle(s, o, cfg), Complete(s, p, receipt, amount, cfg).shop, o, cfg, Suspicious(s, p, amount));
  }

  lemma FlaggedSale(s: Shop, u: Shop, t: Shop, o: nat, cfg: Config, cond: bool)
    requires SaleDone(s, u, o, cfg) && t == Flag(u, o, cond).(legs := t.legs) && u.orders[o].flagged == s.orders[o].flagged
    ensures SaleDone(s, t, o, cfg) && (t.orders[o].flagged <==> s.orders[o].flagged || cond)
  {
  }

  // A second payment of a PAID order only flags it.
  lemma PaidAgain(s: Shop, p: nat, receipt: string, amount: int, cfg: Config)
    requires Payable(s, p, receipt, cfg) && s.orders[s.legs[p].order].status == Paid
    ensures var t := Complete(s, p, receipt, amount, cfg).shop; var o := s.legs[p].order;
            t == s.(legs := t.legs, orders := s.orders[o := s.orders[o].(flagged := true)])
  {
    PayableGoes(s, p, receipt, amount, cfg);
  }

  // Every other call: what it answers, and that nothing moves but the leg of late money.
  lemma CompletionRefused(s: Shop, p: nat, receipt: string, amount: int, cfg: Config)
    requires p < |s.legs| && s.legs[p].order < |s.orders| ==> Distinct(s.orders[s.legs[p].order].lines)
    requires !Payable(s, p, receipt, cfg)
    ensures var tx := Complete(s, p, receipt, amount, cfg);
            if p >= |s.legs| || s.legs[p].order >= |s.orders| then tx == Tx(s, Err(NotFound))
            else if s.legs[p].status == LegCompleted then tx == Tx(s, Ok)
            else if s.orders[s.legs[p].order].status == Voided then
              tx == Tx(s.(legs := s.legs[p := s.legs[p].(status := LegFailed)]), Err(InvalidState))
            else if !ReceiptFree(s.legs, receipt, p) then tx == Tx(s, Err(DuplicateReceipt))
            else s.orders[s.legs[p].order].status == Pending && tx == Tx(s, Err(NotFound))
  {
    if p < |s.legs| && s.legs[p].order < |s.orders| {
      SellableSettles(s, s.orders[s.legs[p].order], cfg);
    }
  }
}
