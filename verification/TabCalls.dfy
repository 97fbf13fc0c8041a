// One settlement call with nothing in between: when it reads a tab, what it is answered,
// and the row it posts.

module TabCalls {
  import opened Sums
  import opened Tables
  import opened Tallies
  import opened Orders
  import opened TabSettlement
  import opened TillSteps
  import opened Completions

  // The first PENDING account leg of order o.
  predicate FirstTab(legs: seq<Leg>, o: nat, p: nat) {
    && p < |legs| && WaitsOnTab(legs[p], o)
    && forall i :: 0 <= i < p ==> !WaitsOnTab(legs[i], o)
  }

  predicate WaitsOnTab(leg: Leg, o: nat) {
    leg.order == o && leg.rail == Account && leg.status == LegPending
  }

  lemma {:induction false} FirstTabIs(legs: seq<Leg>, o: nat, p: nat)
    requires FirstTab(legs, o, p)
    ensures TabLeg(legs, o) == p
  {
    var n := |legs| - 1;
    if p < n {
      FirstTabIs(legs[..n], o, p);
    } else {
      NoTabBefore(legs[..n], o);
    }
  }

  lemma {:induction false} NoTabBefore(legs: seq<Leg>, o: nat)
    requires forall i :: 0 <= i < |legs| ==> !WaitsOnTab(legs[i], o)
    ensures TabLeg(legs, o) == |legs|
  {
    if legs != [] {
      assert !WaitsOnTab(legs[|legs| - 1], o);
      NoTabBefore(legs[..|legs| - 1], o);
    }
  }

  predicate TabRow(r: Row, o: nat) {
    r.order == o && r.kind == Payment && r.note == TabSettled
  }

  predicate TabPaidOff(ledger: seq<Row>, o: nat) {
    exists r :: r in ledger && TabRow(r, o)
  }

  lemma PaidOffIs(ledger: seq<Row>, o: nat)
    ensures TabPaidOff(ledger, o) <==> RowTally(ledger, o).settlements != 0
  {
    if TabPaidOff(ledger, o) {
      var r :| r in ledger && TabRow(r, o);
      var i :| 0 <= i < |ledger| && ledger[i] == r;
      SumCounts(ledger, Settlements(o), i);
    } else {
      assert forall i :: 0 <= i < |ledger| ==> ledger[i] in ledger;
      SumZero(ledger, Settlements(o));
    }
  }

  // The order's customer has paid its total off the tab, once.
  predicate PaidOff(u: Shop, t: Shop, o: nat)
    requires o < |u.orders|
  {
    var order := u.orders[o];
    if TabPaidOff(u.ledger, o) then t == u
    else
      && order.customer in u.customers
      && var k := u.customers[order.customer];
         t == u.(ledger := u.ledger + [Row(order.customer, o, Payment, -order.total, 0, TabSettled)],
                 customers := u.customers[order.customer := k.(balance := k.balance - order.total)])
  }

  lemma PostPaysOff(u: Shop, o: nat)
    requires o < |u.orders| && u.orders[o].customer in u.customers
    ensures PaidOff(u, PostSettlement(u, o), o)
  {
    PaidOffIs(u.ledger, o);
  }

  function Alone(s: Shop, o: nat, mpesa: bool, code: string, cfg: Config): System {
    Behave(System(s, [Start]), o, SettleMoves(mpesa, code, cfg))
  }

  // An order that is not PENDING, has no PENDING tab leg or no customer is not settled.
  lemma TabRefused(s: Shop, o: nat, mpesa: bool, code: string, cfg: Config)
    requires o < |s.orders| && s.orders[o].status == Pending && s.orders[o].customer != NO_CUSTOMER
             ==> forall l :: l in s.legs ==> !WaitsOnTab(l, o)
    ensures Alone(s, o, mpesa, code, cfg) == System(s, [GaveUp])
  {
    AloneBehaves(s, o, mpesa, code, cfg);
    assert TabLeg(s.legs, o) < |s.legs| ==> s.legs[TabLeg(s.legs, o)] in s.legs;
  }

  // Otherwise the call is answered as its payment is: cash completes the first tab leg
  // for its own amount, a receipt code goes through manual confirmation. After a
  // payment the tab is paid off, and otherwise nothing but the payment's own refusal stands.
  lemma TabCall(s: Shop, o: nat, mpesa: bool, code: string, cfg: Config, p: nat)
    requires o < |s.orders| && s.orders[o].status == Pending && s.orders[o].customer != NO_CUSTOMER && FirstTab(s.legs, o, p)
    ensures var tx := if mpesa then ManualConfirm(s, o, code, cfg) else Complete(s, p, "", s.legs[p].amount, cfg);
            var sys := Alone(s, o, mpesa, code, cfg);
            if tx.out == Ok && o < |tx.shop.orders| && tx.shop.orders[o].customer in tx.shop.customers then
              sys.calls == [Succeeded] && PaidOff(tx.shop, sys.shop, o)
            else
              sys == System(tx.shop, [GaveUp])
  {
    FirstTabIs(s.legs, o, p);
    AloneBehaves(s, o, mpesa, code, cfg);
    var tx := if mpesa then ManualConfirm(s, o, code, cfg) else Complete(s, p, "", s.legs[p].amount, cfg);
    if tx.out == Ok && o < |tx.shop.orders| && tx.shop.orders[o].customer in tx.shop.customers {
      PostPaysOff(tx.shop, o);
    }
  }

  // A tab settled in cash, from start to end: the sale is PAID and the customer owes its
  // total less than before.
  lemma CashSettles(s: Shop, o: nat, cfg: Config, p: nat)
    requires o < |s.orders| && s.orders[o].status == Pending && s.orders[o].customer in s.customers
    requires s.orders[o].customer != NO_CUSTOMER && FirstTab(s.legs, o, p) && Payable(s, p, "", cfg)
    requires !TabPaidOff(s.ledger, o)
    ensures var sys := Alone(s, o, false, "", cfg); var c := s.orders[o].customer; var t := sys.shop;
            && sys.calls == [Succeeded] && o < |t.orders| && t.orders[o].status == Paid
            && p < |t.legs| && t.legs[p].status == LegCompleted && TabPaidOff(t.ledger, o)
            && c in t.customers && t.customers[c].balance == s.customers[c].balance - s.orders[o].total
  {
    TabCall(s, o, false, "", cfg, p);
    CompletedLeg(s, p, "", s.legs[p].amount, cfg);
    CompletedSale(s, p, "", s.legs[p].amount, cfg);
    var u := Complete(s, p, "", s.legs[p].amount, cfg).shop;
    var t := Alone(s, o, false, "", cfg).shop;
    assert !TabPaidOff(u.ledger, o) by {
      if Earns(s.orders[o], cfg) {
        assert !TabRow(u.ledger[|s.ledger|], o);
      }
    }
    assert TabRow(t.ledger[|t.ledger| - 1], o);
  }
}
