// The life of one order over a run: statuses only move forward, the effects of
// being paid happen once, and a void cancels what the order wrote to the ledger.

module Lifecycle {
  import opened Tables
  import opened Tallies
  import opened Orders
  import opened Soundness
  import opened Runs

  // a became b in one transaction.
  predicate Evolves(a: Order, b: Order) {
    && b == a.(status := b.status, flagged := b.flagged, effects := b.effects)
    && (a.flagged ==> b.flagged)
    && (|| (b.status == a.status && b.effects == a.effects)
        || (a.status.Pending? && b.status.Paid? && b.effects.PaidWith?)
        || (!a.status.Voided? && b.status.Voided? && b.effects == a.effects))
  }

  predicate Newborn(a: Order) {
    (a.status.Pending? && a.effects.Unpaid?) || (a.status.Paid? && a.effects.PaidWith?)
  }

  predicate Grown(s: Shop, t: Shop) {
    && |s.orders| <= |t.orders|
    && (forall o :: 0 <= o < |s.orders| ==> Evolves(s.orders[o], t.orders[o]))
    && (forall o :: |s.orders| <= o < |t.orders| ==> Newborn(t.orders[o]))
  }

  lemma SameOrdersGrow(s: Shop, t: Shop)
    requires t.orders == s.orders
    ensures Grown(s, t)
  {
  }

  lemma OneOrderGrows(s: Shop, t: Shop, o: nat)
    requires o < |s.orders| == |t.orders| && t.orders == s.orders[o := t.orders[o]] && Evolves(s.orders[o], t.orders[o])
    ensures Grown(s, t)
  {
  }

  lemma CheckoutGrows(s: Shop, cart: Cart, cfg: Config)
    ensures Grown(s, Checkout(s, cart, cfg).shop)
  {
  }

  lemma CompleteGrows(s: Shop, p: nat, receipt: string, amount: int, cfg: Config)
    ensures Grown(s, Complete(s, p, receipt, amount, cfg).shop)
  {
    var t := Complete(s, p, receipt, amount, cfg).shop;
    if t.orders == s.orders {
      SameOrdersGrow(s, t);
    } else {
      OneOrderGrows(s, t, s.legs[p].order);
    }
  }

  lemma CompleteGrowsFrom(s: Shop, legs: seq<Leg>, p: nat, receipt: string, amount: int, cfg: Config)
    ensures Grown(s, Complete(s.(legs := legs), p, receipt, amount, cfg).shop)
  {
    CompleteGrows(s.(legs := legs), p, receipt, amount, cfg);
  }

  lemma ManualConfirmGrows(s: Shop, o: nat, code: string, cfg: Config)
    ensures Grown(s, ManualConfirm(s, o, code, cfg).shop)
  {
    if o < |s.orders| {
      var p := LastPending(s.legs, o);
      var legs := Collecting(s, o);
      CompleteGrowsFrom(s, legs, p, code, legs[p].amount, cfg);
    }
  }

  lemma CallbackGrows(s: Shop, cb: Callback, cfg: Config)
    ensures Grown(s, HandleCallback(s, cb, cfg).shop)
  {
    var t := HandleCallback(s, cb, cfg).shop;
    var p := FindCheckout(s.legs, cb.checkout);
    if t.orders == s.orders {
      SameOrdersGrow(s, t);
    } else if cb.success && 0 < cb.amount == s.legs[p].amount {
      CompleteGrows(s, p, cb.receipt, cb.amount, cfg);
    } else {
      OneOrderGrows(s, t, s.legs[p].order);
    }
  }

  lemma VoidGrows(s: Shop, o: nat, caller: Caller)
    ensures Grown(s, Void(s, o, caller).shop)
  {
  }

  lemma StepGrows(s: Shop, op: Op)
    ensures Grown(s, Step(s, op))
  {
    match op
    case DoCheckout(cart, cfg) => if cart.payable >= 0 { CheckoutGrows(s, cart, cfg); } else { SameOrdersGrow(s, s); }
    case DoComplete(p, receipt, amount, cfg) => CompleteGrows(s, p, receipt, amount, cfg);
    case DoManual(o, code, cfg) => ManualConfirmGrows(s, o, code, cfg);
    case DoCallback(cb, cfg) => CallbackGrows(s, cb, cfg);
    case DoVoid(o, caller) => VoidGrows(s, o, caller);
    case _ => SameOrdersGrow(s, Step(s, op));
  }

  // a became b in any number of transactions.
  predicate Aged(a: Order, b: Order) {
    && b == a.(status := b.status, flagged := b.flagged, effects := b.effects)
    && (a.flagged ==> b.flagged)
    && (a.effects.PaidWith? ==> b.effects == a.effects)
    && (a.status.Paid? ==> !b.status.Pending?)
    && (a.status.Voided? ==> b.status.Voided? && b.effects == a.effects)
  }

  lemma {:induction false} RunAges(s: Shop, ops: seq<Op>, n: nat, o: nat)
    requires Inv(s) && n <= |ops| && o < |Run(s, ops[..n]).orders|
    ensures o < |Run(s, ops).orders| && Aged(Run(s, ops[..n]).orders[o], Run(s, ops).orders[o])
    decreases |ops|
  {
    if n == |ops| {
      assert ops[..n] == ops;
    } else {
      var rest := ops[..|ops| - 1];
      assert rest[..n] == ops[..n];
      RunAges(s, rest, n, o);
      RunKeeps(s, rest);
      assert OrderOk(Run(s, rest), o);
      StepGrows(Run(s, rest), ops[|ops| - 1]);
    }
  }

  // Some prefix of the run left the order PAID.
  predicate PaidAfter(s: Shop, ops: seq<Op>, o: nat) {
    o < |Run(s, ops).orders| && Run(s, ops).orders[o].status.Paid?
  }

  predicate EverPaid(s: Shop, ops: seq<Op>, o: nat) {
    exists n: nat :: n <= |ops| && PaidAfter(s, ops[..n], o)
  }

  lemma EverPaidLater(s: Shop, ops: seq<Op>, o: nat)
    requires ops != [] && EverPaid(s, ops[..|ops| - 1], o)
    ensures EverPaid(s, ops, o)
  {
    var rest := ops[..|ops| - 1];
    var m: nat :| m <= |rest| && PaidAfter(s, rest[..m], o);
    assert rest[..m] == ops[..m];
  }

  lemma PaidNow(s: Shop, ops: seq<Op>, o: nat)
    requires PaidAfter(s, ops, o)
    ensures EverPaid(s, ops, o)
  {
    assert ops[..|ops|] == ops;
  }

  // An order whose effects have just begun is PAID.
  lemma EffectsBegin(t: Shop, u: Shop, o: nat)
    requires Grown(t, u) && o < |u.orders| && u.orders[o].effects.PaidWith?
    requires o < |t.orders| ==> t.orders[o].effects.Unpaid?
    ensures u.orders[o].status.Paid?
  {
  }

  lemma {:induction false} PaidOnceStarted(s: Shop, ops: seq<Op>, o: nat)
    requires Opening(s) && o < |Run(s, ops).orders| && Run(s, ops).orders[o].effects.PaidWith?
    ensures EverPaid(s, ops, o)
  {
    if ops != [] {
      var rest := ops[..|ops| - 1];
      var t := Run(s, rest);
      StepGrows(t, ops[|ops| - 1]);
      if o < |t.orders| && t.orders[o].effects.PaidWith? {
        PaidOnceStarted(s, rest, o);
        EverPaidLater(s, ops, o);
      } else {
        EffectsBegin(t, Run(s, ops), o);
        PaidNow(s, ops, o);
      }
    }
  }

  // An order carries the effects of payment exactly when some prefix paid it.
  lemma EffectsIffEverPaid(s: Shop, ops: seq<Op>, o: nat)
    requires Opening(s) && o < |Run(s, ops).orders|
    ensures Run(s, ops).orders[o].effects.PaidWith? <==> EverPaid(s, ops, o)
  {
    OpeningSound(s);
    if EverPaid(s, ops, o) {
      var n: nat :| n <= |ops| && PaidAfter(s, ops[..n], o);
      RunKeeps(s, ops[..n]);
      assert OrderOk(Run(s, ops[..n]), o);
      RunAges(s, ops, n, o);
    }
    if Run(s, ops).orders[o].effects.PaidWith? {
      PaidOnceStarted(s, ops, o);
    }
  }

  // The loyalty earn is written at most once, the gift cards are minted once
  // over, and both happen exactly when the order was ever PAID.
  lemma EffectsHappenOnce(s: Shop, ops: seq<Op>, o: nat)
    requires Opening(s) && o < |Run(s, ops).orders|
    ensures var t := Run(s, ops); var order := t.orders[o];
            && RowTally(t.ledger, o).earns == One(EverPaid(s, ops, o) && order.effects.Points() > 0)
            && CardTally(t.cards, o).minted == (if EverPaid(s, ops, o) then GiftUnits(order.lines, t.products) else 0)
  {
    EffectsIffEverPaid(s, ops, o);
    OpeningSound(s);
    RunKeeps(s, ops);
    assert OrderOk(Run(s, ops), o);
  }

  // No points, no store credit, and the tab charge against its reversal. What
  // remains is the settlement of a tab that had been paid off, which a void does not
  // return.
  predicate NetsToZero(order: Order, R: Rows) {
    && R.points == 0 && R.credit == 0 && R.charge + R.reversal == 0
    && R.settled == -order.total * R.settlements && 0 <= R.settlements <= 1
  }

  lemma VoidedNets(t: Shop, o: nat)
    requires o < |t.orders| && OrderOk(t, o) && t.orders[o].status.Voided?
    ensures NetsToZero(t.orders[o], RowTally(t.ledger, o))
  {
  }

  // VOIDED is terminal, and from the void on the order's ledger rows net to nothing,
  // however it was paid.
  lemma VoidNetsToZero(s: Shop, ops: seq<Op>, n: nat, o: nat)
    requires Opening(s) && n <= |ops|
    requires o < |Run(s, ops[..n]).orders| && Run(s, ops[..n]).orders[o].status.Voided?
    ensures var t := Run(s, ops);
            && o < |t.orders| && t.orders[o].status.Voided?
            && NetsToZero(t.orders[o], RowTally(t.ledger, o))
  {
    OpeningSound(s);
    RunAges(s, ops, n, o);
    RunKeeps(s, ops);
    VoidedNets(Run(s, ops), o);
  }
}
