// Who may void what, and what a void writes to each table.

module VoidEffects {
  import opened Sums
  import opened Tables
  import opened Tallies
  import opened TallyLaws
  import opened Orders
  import opened Soundness
  import opened Transitions
  import opened VoidLaw

  // ---- who ----

  // On a sound database a void goes through exactly for those who may see the order,
  // once. Whoever may not is told that it does not exist, and nothing is changed.
  lemma VoidAnswers(s: Shop, o: nat, caller: Caller)
    requires Inv(s)
    ensures var tx := Void(s, o, caller);
            var mine := o < |s.orders| && (caller.seesAll || s.orders[o].cashier == caller.id);
            && (tx.out == Ok <==> mine && s.orders[o].status != Voided)
            && (tx.out == Err(NotFound) <==> !mine)
            && (tx.out == Err(InvalidState) <==> mine && s.orders[o].status == Voided)
            && (tx.out != Ok ==> tx.shop == s)
  {
    if o < |s.orders| && MayVoid(s, o, caller) && !s.orders[o].status.Voided? {
      VoidSucceeds(s, o, caller);
    }
  }

  // ---- what ----

  // M-Pesa money that has landed is owed back through the provider.
  predicate RefundOwed(s: Shop, o: nat) {
    && o < |s.orders| && s.orders[o].status == Paid
    && exists l :: l in s.legs && l.order == o && l.rail == Mpesa && l.status == LegCompleted && l.amount > 0
  }

  lemma OwedIs(s: Shop, o: nat)
    requires o < |s.orders| && s.orders[o].status == Paid
    ensures RefundOwed(s, o) <==> OwedOnline(s.legs, o)
  {
    if OwedOnline(s.legs, o) {
      var i :| 0 <= i < |s.legs| && s.legs[i].order == o && s.legs[i].rail == Mpesa
               && s.legs[i].status == LegCompleted && s.legs[i].amount > 0;
      assert s.legs[i] in s.legs;
    }
    if RefundOwed(s, o) {
      var l :| l in s.legs && l.order == o && l.rail == Mpesa && l.status == LegCompleted && l.amount > 0;
      var i :| 0 <= i < |s.legs| && s.legs[i] == l;
    }
  }

  lemma VoidIs(s: Shop, o: nat, caller: Caller)
    requires Inv(s) && Void(s, o, caller).out == Ok
    ensures Reversible(s, o) && Void(s, o, caller).shop == Undone(s, o)
  {
    VoidAnswers(s, o, caller);
    VoidSucceeds(s, o, caller);
  }

  // The order is VOIDED, and flagged when it was or when a refund is owed; its open and
  // completed legs are VOIDED; no other order and no other leg is written.
  lemma VoidedOrder(s: Shop, o: nat, caller: Caller)
    requires Inv(s) && Void(s, o, caller).out == Ok
    ensures var t := Void(s, o, caller).shop;
            && o < |s.orders| && |t.legs| == |s.legs|
            && t.orders == s.orders[o := s.orders[o].(status := Voided, flagged := s.orders[o].flagged || RefundOwed(s, o))]
            && forall i :: 0 <= i < |s.legs| ==>
                 t.legs[i] == if s.legs[i].order == o && (s.legs[i].status == LegPending || s.legs[i].status == LegCompleted)
                              then s.legs[i].(status := LegVoided) else s.legs[i]
  {
    VoidIs(s, o, caller);
    if s.orders[o].status == Paid {
      OwedIs(s, o);
    }
  }

  // Every line of a PAID order goes back on its shelf; a PENDING one had taken nothing.
  predicate ShelvesRestored(ps: map<int, Product>, qs: map<int, Product>, lines: seq<Line>) {
    && qs.Keys == ps.Keys
    && (forall l :: l in lines && l.product in ps ==> qs[l.product] == ps[l.product].(stock := ps[l.product].stock + l.qty))
    && (forall q :: q in ps && (forall l :: l in lines ==> l.product != q) ==> qs[q] == ps[q])
  }

  lemma {:induction false} RestoredAt(ps: map<int, Product>, lines: seq<Line>, i: nat)
    requires Distinct(lines) && i < |lines| && lines[i].product in ps
    ensures var p := lines[i].product; Restore(ps, lines)[p] == ps[p].(stock := ps[p].stock + lines[i].qty)
  {
    var n := |lines| - 1;
    if i < n {
      RestoredAt(ps, lines[..n], i);
    } else {
      forall l | l in lines[..n]
        ensures l.product != lines[n].product
      {
        var j :| 0 <= j < n && lines[j] == l;
      }
      NotRestored(ps, lines[..n], lines[n].product);
    }
  }

  lemma {:induction false} NotRestored(ps: map<int, Product>, lines: seq<Line>, q: int)
    requires q in ps && forall l :: l in lines ==> l.product != q
    ensures Restore(ps, lines)[q] == ps[q]
  {
    if lines != [] {
      NotRestored(ps, lines[..|lines| - 1], q);
    }
  }

  lemma RestoreFills(ps: map<int, Product>, lines: seq<Line>)
    requires Distinct(lines)
    ensures ShelvesRestored(ps, Restore(ps, lines), lines)
  {
    forall l | l in lines && l.product in ps
      ensures Restore(ps, lines)[l.product] == ps[l.product].(stock := ps[l.product].stock + l.qty)
    {
      var i :| 0 <= i < |lines| && lines[i] == l;
      RestoredAt(ps, lines, i);
    }
    forall q | q in ps && forall l :: l in lines ==> l.product != q
      ensures Restore(ps, lines)[q] == ps[q]
    {
      NotRestored(ps, lines, q);
    }
  }

  // Shelves and cards move only when the order had been PAID.
  lemma VoidedGoods(s: Shop, o: nat, caller: Caller)
    requires Inv(s) && Void(s, o, caller).out == Ok
    ensures var t := Void(s, o, caller).shop;
            && o < |s.orders| && |t.cards| == |s.cards|
            && (s.orders[o].status != Paid ==> t.products == s.products && t.cards == s.cards)
            && (s.orders[o].status == Paid ==>
                  && ShelvesRestored(s.products, t.products, s.orders[o].lines)
                  && forall i :: 0 <= i < |s.cards| ==>
                       t.cards[i] == if s.cards[i].order == o && s.cards[i].status == CardActive
                                     then s.cards[i].(status := CardVoid, remaining := 0) else s.cards[i])
  {
    VoidIs(s, o, caller);
    assert s.orders[o] in s.orders;
    RestoreFills(s.products, s.orders[o].lines);
  }

  function CreditPaid(o: nat): Leg -> int { (l: Leg) => if l.order == o && l.rail == Credit then l.amount else 0 }

  predicate OnTab(legs: seq<Leg>, o: nat) {
    exists l :: l in legs && l.order == o && l.rail == Account
  }

  lemma TabIs(legs: seq<Leg>, o: nat)
    ensures OnTab(legs, o) <==> LegTally(legs, o).tabs > 0
  {
    if OnTab(legs, o) {
      var l :| l in legs && l.order == o && l.rail == Account;
      var i :| 0 <= i < |legs| && legs[i] == l;
      LegCounted(legs, o, i);
    } else {
      SumZero(legs, TabLegs(o));
    }
  }

  // The order's customer owes the tab no longer, has the store credit back, the points
  // spent on it back and those earned by it gone; no other customer is touched.
  lemma VoidedCustomers(s: Shop, o: nat, caller: Caller)
    requires Inv(s) && Void(s, o, caller).out == Ok
    ensures var t := Void(s, o, caller).shop;
            && o < |s.orders| && t.customers.Keys == s.customers.Keys
            && var order := s.orders[o];
               forall c :: c in s.customers ==>
                 t.customers[c] == if c != order.customer then s.customers[c]
                                   else Customer(s.customers[c].balance - (if OnTab(s.legs, o) then order.total else 0),
                                                 s.customers[c].points + order.redeemed
                                                   - (if order.effects.PaidWith? then order.effects.earned else 0),
                                                 s.customers[c].credit + Sum(s.legs, CreditPaid(o)), s.customers[c].active)
  {
    VoidIs(s, o, caller);
    TabIs(s.legs, o);
    SumMatched(s.legs, CreditPaid(o), s.legs, CreditCents(o));
    UndoneRefunds(s, o);
  }

  // The ledger only grows, by rows of this order and its customer.
  lemma VoidedLedger(s: Shop, o: nat, caller: Caller)
    requires Inv(s) && Void(s, o, caller).out == Ok
    ensures var t := Void(s, o, caller).shop;
            && o < |s.orders| && s.ledger <= t.ledger
            && forall r :: r in t.ledger[|s.ledger|..] ==> r.customer == s.orders[o].customer && r.order == o
  {
    VoidIs(s, o, caller);
    ReversalRows(s, o);
    assert Void(s, o, caller).shop.ledger[|s.ledger|..] == Reversals(s, o);
  }
}
