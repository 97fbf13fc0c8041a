// Checkout, completion, callbacks and void keep the database sound.

module Transitions {
  import opened Tables
  import opened Tallies
  import opened TallyLaws
  import opened Orders
  import opened Soundness

  // ---- completion ----

  lemma DeliverBase(s: Shop, o: nat, cfg: Config)
    requires BaseOk(s) && o < |s.orders|
    ensures BaseOk(Deliver(s, o, cfg))
  {
    var order := s.orders[o];
    var minted := Mint(o, order.lines, s.products);
    var t := Deliver(s, o, cfg);
    DeductKeeps(s.products, order.lines);
    MintFresh(o, order.lines, s.products);
    forall c | c in t.customers
      ensures RedeemedBy(t.cards, c) == RedeemedBy(s.cards, c)
    {
      CardsAppended(s.cards, minted, o, c);
      MintTallied(o, order.lines, s.products, o, c);
    }
    assert order in s.orders;
    SwappedBase(s, t);
  }

  lemma DeliverTallies(s: Shop, o: nat, cfg: Config, k: nat)
    requires o < |s.orders|
    ensures var t := Deliver(s, o, cfg); var n := if k == o then GiftUnits(s.orders[o].lines, s.products) else 0;
            && CardTally(t.cards, k) == Cards(CardTally(s.cards, k).minted + n, CardTally(s.cards, k).active + n)
            && SameCatalogue(s.products, t.products)
  {
    var order := s.orders[o];
    DeductKeeps(s.products, order.lines);
    CardsAppended(s.cards, Mint(o, order.lines, s.products), k, 0);
    MintTallied(o, order.lines, s.products, k, 0);
  }

  lemma SettleBase(s: Shop, o: nat, cfg: Config)
    requires BaseOk(s) && o < |s.orders| && Settleable(s, s.orders[o], cfg)
    ensures BaseOk(Settle(s, o, cfg))
  {
    DeliverBase(s, o, cfg);
    var earned := EarnDue(s.orders[o], cfg);
    if earned > 0 {
      PostedBase(Deliver(s, o, cfg), EarnRow(s.orders[o], o, earned));
    }
  }

  lemma SettleElsewhere(s: Shop, o: nat, cfg: Config, k: nat)
    requires o < |s.orders| && Settleable(s, s.orders[o], cfg) && k < |s.orders| && k != o
    ensures Untouched(s, Settle(s, o, cfg), k)
  {
    DeliverTallies(s, o, cfg, k);
    var earned := EarnDue(s.orders[o], cfg);
    if earned > 0 {
      PostedElsewhere(Deliver(s, o, cfg), EarnRow(s.orders[o], o, earned), k);
    }
  }

  // What settling does to the tallies of its own order.
  lemma SettleTallies(s: Shop, o: nat, cfg: Config)
    requires o < |s.orders| && Settleable(s, s.orders[o], cfg)
    ensures var t := Settle(s, o, cfg); var e := EarnDue(s.orders[o], cfg); var n := GiftUnits(s.orders[o].lines, s.products);
            && t.legs == s.legs
            && RowTally(t.ledger, o) == RowTally(s.ledger, o).Plus(NO_ROWS.(points := e, gained := e, earns := One(e > 0)))
            && CardTally(t.cards, o) == Cards(CardTally(s.cards, o).minted + n, CardTally(s.cards, o).active + n)
            && SameCatalogue(s.products, t.products)
  {
    DeliverTallies(s, o, cfg, o);
    var earned := EarnDue(s.orders[o], cfg);
    if earned > 0 {
      PostedTally(Deliver(s, o, cfg), EarnRow(s.orders[o], o, earned), o);
    }
  }

  // Record arithmetic of a settlement.
  lemma SettledSound(a: Order, b: Order, known: bool, L: Legs, R: Rows, C: Cards, taken: seq<bool>, e: int, gifts: int)
    requires OrderSound(a, known, L, R, C, gifts) && a.status.Pending?
    requires b == a.(status := Paid, effects := PaidWith(taken, e)) && |taken| == |a.lines| && e >= 0 && (!known ==> e == 0)
    ensures OrderSound(b, known, L, R.Plus(NO_ROWS.(points := e, gained := e, earns := One(e > 0))),
                       Cards(C.minted + gifts, C.active + gifts), gifts)
  {
  }

  lemma SettleOrder(s: Shop, o: nat, cfg: Config)
    requires o < |s.orders| && OrderOk(s, o) && s.orders[o].status.Pending? && Settleable(s, s.orders[o], cfg)
    ensures OrderOk(Settle(s, o, cfg), o)
  {
    var t := Settle(s, o, cfg);
    var order := s.orders[o];
    SettleTallies(s, o, cfg);
    GiftUnitsSame(order.lines, s.products, t.products);
    SettledSound(order, t.orders[o], order.customer in s.customers, LegTally(s.legs, o), RowTally(s.ledger, o),
                 CardTally(s.cards, o), Deduct(s.products, order.lines).taken, EarnDue(order, cfg),
                 GiftUnits(order.lines, s.products));
  }

  lemma SettleKeeps(s: Shop, o: nat, cfg: Config)
    requires Inv(s) && o < |s.orders| && s.orders[o].status.Pending? && Settleable(s, s.orders[o], cfg)
    ensures Inv(Settle(s, o, cfg))
  {
    var t := Settle(s, o, cfg);
    SettleBase(s, o, cfg);
    assert OrderOk(s, o);
    SettleOrder(s, o, cfg);
    forall k: nat | k < |t.orders| && k != o
      ensures OrderOk(t, k)
    {
      SettleElsewhere(s, o, cfg, k);
      UntouchedOk(s, t, k);
    }
  }

  lemma FlagKeeps(s: Shop, o: nat, cond: bool)
    requires Inv(s) && o < |s.orders|
    ensures Inv(Flag(s, o, cond))
  {
    if cond {
      var t := Flag(s, o, true);
      assert s.orders[o] in s.orders;
      SwappedBase(s, t);
      forall k: nat | k < |t.orders|
        ensures OrderOk(t, k)
      {
        assert OrderOk(s, k);
      }
    }
  }

  // A leg of a PAID order lands, or a leg of a VOIDED order is failed.
  lemma LegClosedKeeps(s: Shop, p: nat, leg: Leg)
    requires Inv(s) && p < |s.legs| && !s.legs[p].status.LegCompleted?
    requires leg.order == s.legs[p].order && leg.rail == s.legs[p].rail && leg.amount == s.legs[p].amount
    requires s.legs[p].order < |s.orders|
    requires var status := s.orders[leg.order].status;
             (status.Paid? && leg.status.LegCompleted?) || (status.Voided? && leg.status.LegFailed?)
    ensures Inv(s.(legs := s.legs[p := leg]))
  {
    var legs := s.legs[p := leg];
    forall o: nat | o < |s.orders|
      ensures OrderOk(s.(legs := legs), o)
    {
      assert OrderOk(s, o);
      LegUpdated(s.legs, p, leg, o);
      LegCounted(s.legs, o, p);
      LegBounds(legs, o);
    }
    LegsKeep(s, legs);
  }

  lemma CompleteKeeps(s: Shop, p: nat, receipt: string, amount: int, cfg: Config)
    requires Inv(s)
    ensures Inv(Complete(s, p, receipt, amount, cfg).shop)
  {
    var r := Complete(s, p, receipt, amount, cfg);
    if r.shop != s {
      var leg := s.legs[p];
      var o := leg.order;
      if s.orders[o].status.Voided? {
        LegClosedKeeps(s, p, leg.(status := LegFailed));
      } else {
        var won := s.orders[o].status.Pending?;
        var flag := amount <= 0 || amount != leg.amount || !won || Short(s.products, s.orders[o].lines);
        if won {
          SettleKeeps(s, o, cfg);
        }
        var t := if won then Settle(s, o, cfg) else s;
        FlagKeeps(t, o, flag);
        LegClosedKeeps(Flag(t, o, flag), p, Landed(leg, receipt, flag));
      }
    }
  }

  lemma CollectingKeeps(s: Shop, o: nat)
    requires Inv(s) && o < |s.orders| && s.orders[o].status.Pending?
    ensures Inv(s.(legs := Collecting(s, o)))
  {
    var leg := ManualLeg(o, s.orders[o].total - LegTally(s.legs, o).completed);
    if LastPending(s.legs, o) == |s.legs| {
      MpesaLegKeeps(s, leg);
      assert Collecting(s, o) == s.legs + [leg];
    } else {
      assert s.(legs := Collecting(s, o)) == s;
    }
  }

  lemma ManualConfirmKeeps(s: Shop, o: nat, code: string, cfg: Config)
    requires Inv(s)
    ensures Inv(ManualConfirm(s, o, code, cfg).shop)
  {
    if o < |s.orders| && s.orders[o].status.Pending? {
      var p := LastPending(s.legs, o);
      var legs := Collecting(s, o);
      CollectingKeeps(s, o);
      CompleteKeeps(s.(legs := legs), p, code, legs[p].amount, cfg);
    }
  }

  lemma CallbackOnKeeps(s: Shop, p: nat, cb: Callback, cfg: Config)
    requires Inv(s) && p < |s.legs|
    ensures Inv(CallbackOn(s, p, cb, cfg).shop)
  {
    FailLegKeeps(s, p);
    assert s.legs[p] in s.legs;
    FlagKeeps(FailLeg(s, p), s.legs[p].order, true);
    CompleteKeeps(s, p, cb.receipt, cb.amount, cfg);
  }

  lemma HandleCallbackKeeps(s: Shop, cb: Callback, cfg: Config)
    requires Inv(s)
    ensures Inv(HandleCallback(s, cb, cfg).shop)
  {
    var p := FindCheckout(s.legs, cb.checkout);
    if p < |s.legs| {
      CallbackOnKeeps(s, p, cb, cfg);
    }
  }

  // ---- settling a tab ----

  lemma SettlementOrder(s: Shop, o: nat)
    requires Inv(s) && o < |s.orders| && s.orders[o].customer in s.customers
    requires RowTally(s.ledger, o).settlements == 0
    ensures OrderOk(Post(s, SettleRow(s.orders[o], o)), o)
  {
    assert OrderOk(s, o);
    var r := SettleRow(s.orders[o], o);
    PostedTally(s, r, o);
    assert RowPart(r, o) == NO_ROWS.(settlements := 1, settled := r.amount);
  }

  lemma PostSettlementKeeps(s: Shop, o: nat)
    requires Inv(s) && o < |s.orders| && s.orders[o].customer in s.customers
    ensures Inv(PostSettlement(s, o))
  {
    var t := PostSettlement(s, o);
    if t != s {
      var r := SettleRow(s.orders[o], o);
      PostedBase(s, r);
      SettlementOrder(s, o);
      forall k: nat | k < |t.orders| && k != o
        ensures OrderOk(t, k)
      {
        PostedElsewhere(s, r, k);
        UntouchedOk(s, t, k);
      }
    }
  }

  // ---- void ----

  // A void of a sound order never needs a customer that is not on file.
  lemma ReversalsKnown(s: Shop, o: nat)
    requires Inv(s) && o < |s.orders| && !s.orders[o].status.Voided?
    ensures Reversals(s, o) != [] ==> s.orders[o].customer in s.customers
  {
    assert OrderOk(s, o);
    LegsVoided(s.legs, o);
  }

  function Alone(cond: bool, r: Row): seq<Row> {
    if cond then [r] else []
  }

  lemma AloneTally(cond: bool, r: Row, o: int)
    ensures RowTally(Alone(cond, r), o) == if cond then RowPart(r, o) else NO_ROWS
  {
    RowAlone(r, o);
  }

  lemma RowsConcatFour(a: seq<Row>, b: seq<Row>, c: seq<Row>, d: seq<Row>, o: int)
    ensures RowTally(a + b + c + d, o) == RowTally(a, o).Plus(RowTally(b, o)).Plus(RowTally(c, o)).Plus(RowTally(d, o))
  {
    RowsConcat(a, b, o);
    RowsConcat(a + b, c, o);
    RowsConcat(a + b + c, d, o);
  }

  lemma FourParts(t: Rows, w: Rows, x: Rows, y: Rows, z: Rows, credit: int, reversal: int, earned: int, redeemed: int)
    requires t == w.Plus(x).Plus(y).Plus(z)
    requires w == NO_ROWS.(credit := credit)
    requires x == NO_ROWS.(reversal := reversal)
    requires y == NO_ROWS.(points := -earned)
    requires z == NO_ROWS.(points := redeemed, gained := redeemed)
    ensures t == NO_ROWS.(points := redeemed - earned, gained := redeemed, credit := credit, reversal := reversal)
  {
  }

  lemma CreditRefundTally(c: int, o: nat, credit: int)
    requires credit >= 0
    ensures RowTally(Alone(credit > 0, Row(c, o, CreditTopup, credit, 0, Plain)), o) == NO_ROWS.(credit := credit)
  {
    AloneTally(credit > 0, Row(c, o, CreditTopup, credit, 0, Plain), o);
  }

  lemma TabReversalTally(c: int, o: nat, tab: bool, total: int)
    ensures RowTally(Alone(tab, Row(c, o, Adjustment, -total, 0, Plain)), o)
            == NO_ROWS.(reversal := if tab then -total else 0)
  {
    AloneTally(tab, Row(c, o, Adjustment, -total, 0, Plain), o);
  }

  lemma EarnReversalTally(c: int, o: nat, earned: int)
    requires earned >= 0
    ensures RowTally(Alone(earned > 0, Row(c, o, Loyalty, 0, -earned, Plain)), o) == NO_ROWS.(points := -earned)
  {
    AloneTally(earned > 0, Row(c, o, Loyalty, 0, -earned, Plain), o);
  }

  lemma PointsRefundTally(c: int, o: nat, redeemed: int)
    requires redeemed >= 0
    ensures RowTally(Alone(redeemed > 0, Row(c, o, Loyalty, 0, redeemed, Plain)), o)
            == NO_ROWS.(points := redeemed, gained := redeemed)
  {
    AloneTally(redeemed > 0, Row(c, o, Loyalty, 0, redeemed, Plain), o);
  }

  function ReversalRowsOf(c: int, o: nat, credit: int, tab: bool, total: int, earned: int, redeemed: int): seq<Row> {
    Alone(credit > 0, Row(c, o, CreditTopup, credit, 0, Plain)) + Alone(tab, Row(c, o, Adjustment, -total, 0, Plain))
    + Alone(earned > 0, Row(c, o, Loyalty, 0, -earned, Plain)) + Alone(redeemed > 0, Row(c, o, Loyalty, 0, redeemed, Plain))
  }

  // The four reversal rows, as the ledger of their order sees them.
  lemma ReversalTally(c: int, o: nat, credit: int, tab: bool, total: int, earned: int, redeemed: int)
    requires earned >= 0 && redeemed >= 0 && credit >= 0
    ensures RowTally(ReversalRowsOf(c, o, credit, tab, total, earned, redeemed), o)
            == NO_ROWS.(points := redeemed - earned, gained := redeemed, credit := credit, reversal := if tab then -total else 0)
  {
    CreditRefundTally(c, o, credit);
    TabReversalTally(c, o, tab, total);
    EarnReversalTally(c, o, earned);
    PointsRefundTally(c, o, redeemed);
    var a := Alone(credit > 0, Row(c, o, CreditTopup, credit, 0, Plain));
    var b := Alone(tab, Row(c, o, Adjustment, -total, 0, Plain));
    var d := Alone(earned > 0, Row(c, o, Loyalty, 0, -earned, Plain));
    var e := Alone(redeemed > 0, Row(c, o, Loyalty, 0, redeemed, Plain));
    RowsConcatFour(a, b, d, e, o);
    FourParts(RowTally(a + b + d + e, o), RowTally(a, o), RowTally(b, o), RowTally(d, o), RowTally(e, o),
              credit, if tab then -total else 0, earned, redeemed);
  }

  lemma ReversalsAre(s: Shop, o: nat)
    requires o < |s.orders| && s.orders[o].customer != NO_CUSTOMER
    ensures var order := s.orders[o];
            Reversals(s, o)
            == ReversalRowsOf(order.customer, o, LegTally(VoidLegs(s.legs, o), o).voidedCredit, LegTally(s.legs, o).tabs > 0,
                              order.total, if order.status == Paid then RowTally(s.ledger, o).gained else 0, order.redeemed)
  {
  }

  // What the reversal rows of an order add to its ledger tally.
  function Undoing(order: Order, L: Legs): Rows {
    NO_ROWS.(points := order.redeemed - order.effects.Points(), gained := order.redeemed, credit := L.credit,
             reversal := if L.tabs > 0 then -order.total else 0)
  }

  lemma ReversalsTally(s: Shop, o: nat)
    requires o < |s.orders| && OrderOk(s, o) && !s.orders[o].status.Voided? && NO_CUSTOMER !in s.customers
    ensures RowTally(Reversals(s, o), o) == Undoing(s.orders[o], LegTally(s.legs, o))
  {
    var order := s.orders[o];
    var L, R := LegTally(s.legs, o), RowTally(s.ledger, o);
    if order.customer == NO_CUSTOMER {
      LegBounds(s.legs, o);
      RowsUnlinked([], o);
    } else {
      LegsVoided(s.legs, o);
      ReversalsAre(s, o);
      ReversalTally(order.customer, o, L.credit, L.tabs > 0, order.total, order.effects.Points(), order.redeemed);
    }
  }

  lemma {:induction false} PostAllBase(s: Shop, rows: seq<Row>)
    requires BaseOk(s)
    requires forall r :: r in rows ==> r.customer in s.customers && NO_ORDER <= r.order < |s.orders|
                                       && (r.kind.IsCredit() ==> r.amount >= 0)
    ensures BaseOk(PostAll(s, rows))
  {
    if rows != [] {
      var n := |rows| - 1;
      var t := PostAll(s, rows[..n]);
      PostAllBase(s, rows[..n]);
      assert rows[n] in rows;
      assert t.customers[rows[n].customer].credit >= 0;
      PostedBase(t, rows[n]);
    }
  }

  lemma VoidTablesBase(s: Shop, o: nat)
    requires BaseOk(s) && o < |s.orders|
    ensures BaseOk(VoidTables(s, o))
  {
    var t := VoidTables(s, o);
    RestoreKeeps(s.products, s.orders[o].lines);
    assert s.orders[o] in s.orders;
    forall c | c in t.customers
      ensures RedeemedBy(t.cards, c) == RedeemedBy(s.cards, c)
    {
      CardsVoided(s.cards, o, o, c);
    }
    forall x | x in t.cards
      ensures CardLinked(t, x)
    {
      var i :| 0 <= i < |t.cards| && t.cards[i] == x;
      assert CardLinked(s, s.cards[i]);
    }
    SwappedBase(s, t);
  }

  lemma VoidTablesElsewhere(s: Shop, o: nat, k: nat)
    requires o < |s.orders| && k < |s.orders| && k != o
    ensures Untouched(s, VoidTables(s, o), k)
  {
    RestoreKeeps(s.products, s.orders[o].lines);
    LegsVoidedElsewhere(s.legs, o, k);
    CardsVoided(s.cards, o, k, 0);
  }

  lemma ReversalRows(s: Shop, o: nat)
    requires o < |s.orders|
    ensures forall r :: r in Reversals(s, o) ==>
              r.customer == s.orders[o].customer && r.order == o && (r.kind.IsCredit() ==> r.amount >= 0)
  {
  }

  lemma VoidShape(s: Shop, o: nat, caller: Caller)
    requires o < |s.orders| && Void(s, o, caller).out.Ok?
    ensures var t := Void(s, o, caller).shop;
            && t.customers.Keys == s.customers.Keys
            && t == VoidTables(s, o).(ledger := s.ledger + Reversals(s, o), customers := t.customers)
  {
  }

  // The tallies of a voided order.
  lemma VoidTallies(s: Shop, o: nat, caller: Caller)
    requires o < |s.orders| && OrderOk(s, o) && NO_CUSTOMER !in s.customers && Void(s, o, caller).out.Ok?
    ensures var t := Void(s, o, caller).shop;
            && LegTally(t.legs, o) == LegTally(VoidLegs(s.legs, o), o)
            && RowTally(t.ledger, o) == RowTally(s.ledger, o).Plus(Undoing(s.orders[o], LegTally(s.legs, o)))
            && CardTally(t.cards, o).minted == CardTally(s.cards, o).minted
            && (s.orders[o].status.Paid? ==> CardTally(t.cards, o).active == 0)
            && (!s.orders[o].status.Paid? ==> CardTally(t.cards, o) == CardTally(s.cards, o))
            && SameCatalogue(s.products, t.products)
  {
    VoidShape(s, o, caller);
    RestoreKeeps(s.products, s.orders[o].lines);
    CardsVoided(s.cards, o, o, 0);
    ReversalsTally(s, o);
    RowsConcat(s.ledger, Reversals(s, o), o);
  }

  // Record arithmetic of a void.
  lemma VoidedSound(a: Order, b: Order, known: bool, L: Legs, M: Legs, R: Rows, C: Cards, D: Cards, gifts: int)
    requires OrderSound(a, known, L, R, C, gifts) && !a.status.Voided?
    requires b == a.(status := Voided, flagged := b.flagged)
    requires M.asyncDone == 0 && M.credit == L.credit && M.tabs == L.tabs
    requires D.minted == C.minted && D.active == 0
    ensures OrderSound(b, known, M, R.Plus(Undoing(a, L)), D, gifts)
  {
  }

  lemma VoidOrderSound(s: Shop, o: nat, caller: Caller)
    requires o < |s.orders| && OrderOk(s, o) && NO_CUSTOMER !in s.customers && Void(s, o, caller).out.Ok?
    ensures OrderOk(Void(s, o, caller).shop, o)
  {
    var t := Void(s, o, caller).shop;
    VoidTallies(s, o, caller);
    GiftUnitsSame(s.orders[o].lines, s.products, t.products);
    LegsVoided(s.legs, o);
    CardsMinted(s.cards, o);
    VoidedSound(s.orders[o], t.orders[o], s.orders[o].customer in s.customers, LegTally(s.legs, o), LegTally(t.legs, o),
                RowTally(s.ledger, o), CardTally(s.cards, o), CardTally(t.cards, o), GiftUnits(s.orders[o].lines, s.products));
  }

  lemma VoidKeeps(s: Shop, o: nat, caller: Caller)
    requires Inv(s)
    ensures Inv(Void(s, o, caller).shop)
  {
    if Void(s, o, caller).out.Ok? {
      var t := Void(s, o, caller).shop;
      var rows := Reversals(s, o);
      ReversalRows(s, o);
      VoidTablesBase(s, o);
      PostAllBase(VoidTables(s, o), rows);
      assert OrderOk(s, o);
      VoidOrderSound(s, o, caller);
      forall k: nat | k < |t.orders| && k != o
        ensures OrderOk(t, k)
      {
        VoidTablesElsewhere(s, o, k);
        RowsUnlinked(rows, k);
        RowsConcat(s.ledger, rows, k);
        UntouchedOk(s, t, k);
      }
    }
  }
}
