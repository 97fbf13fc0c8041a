// Checkouts are replayed by the offline queue. The client uuid makes a replay harmless.

module Replays {
  import opened Tables
  import opened Orders
  import opened Runs
  import opened Lifecycle

  predicate UniqueUuids(orders: seq<Order>) {
    forall i, j :: 0 <= i < j < |orders| && orders[i].uuid != "" ==> orders[i].uuid != orders[j].uuid
  }

  lemma CheckoutAdds(s: Shop, cart: Cart, cfg: Config)
    ensures var t := Checkout(s, cart, cfg).shop;
            t.orders == s.orders
            || (!Replayed(s, cart) && |t.orders| == |s.orders| + 1 && t.orders[|s.orders|].uuid == cart.uuid)
  {
  }

  lemma CompleteAddsNone(s: Shop, p: nat, receipt: string, amount: int, cfg: Config)
    ensures |Complete(s, p, receipt, amount, cfg).shop.orders| == |s.orders|
  {
  }

  lemma ManualAddsNone(s: Shop, o: nat, code: string, cfg: Config)
    ensures |ManualConfirm(s, o, code, cfg).shop.orders| == |s.orders|
  {
    if o < |s.orders| {
      var legs := Collecting(s, o);
      var p := LastPending(s.legs, o);
      CompleteAddsNone(s.(legs := legs), p, code, legs[p].amount, cfg);
    }
  }

  lemma OthersAddNone(s: Shop, op: Op)
    requires !op.DoCheckout?
    ensures |Step(s, op).orders| == |s.orders|
  {
    match op
    case DoComplete(p, receipt, amount, cfg) => CompleteAddsNone(s, p, receipt, amount, cfg);
    case DoManual(o, code, cfg) => ManualAddsNone(s, o, code, cfg);
    case DoCallback(cb, cfg) =>
      CompleteAddsNone(s, FindCheckout(s.legs, cb.checkout), cb.receipt, cb.amount, cfg);
    case _ =>
  }

  lemma StepKeepsUuids(s: Shop, op: Op)
    requires UniqueUuids(s.orders)
    ensures UniqueUuids(Step(s, op).orders)
  {
    StepGrows(s, op);
    if op.DoCheckout? && op.cart.payable >= 0 {
      CheckoutAdds(s, op.cart, op.cfg);
    } else if !op.DoCheckout? {
      OthersAddNone(s, op);
    }
  }

  // However often the same sale is submitted and whatever runs in between, there
  // is at most one order for its uuid.
  lemma {:induction false} OneOrderPerUuid(s: Shop, ops: seq<Op>)
    requires UniqueUuids(s.orders)
    ensures UniqueUuids(Run(s, ops).orders)
  {
    if ops != [] {
      OneOrderPerUuid(s, ops[..|ops| - 1]);
      StepKeepsUuids(Run(s, ops[..|ops| - 1]), ops[|ops| - 1]);
    }
  }

  lemma {:induction false} RunKeepsUuid(s: Shop, ops: seq<Op>, o: nat)
    requires o < |s.orders|
    ensures o < |Run(s, ops).orders| && Run(s, ops).orders[o].uuid == s.orders[o].uuid
  {
    if ops != [] {
      RunKeepsUuid(s, ops[..|ops| - 1], o);
      StepGrows(Run(s, ops[..|ops| - 1]), ops[|ops| - 1]);
    }
  }

  // Once a checkout with a uuid went through, submitting any cart with that uuid
  // again, at any later time, answers success and changes nothing.
  lemma ReplayChangesNothing(s: Shop, cart: Cart, cfg: Config, ops: seq<Op>, again: Cart, cfg2: Config)
    requires cart.uuid != "" && Checkout(s, cart, cfg).out.Ok? && again.uuid == cart.uuid
    ensures var t := Run(Checkout(s, cart, cfg).shop, ops); Checkout(t, again, cfg2) == Tx(t, Ok)
  {
    var u := Checkout(s, cart, cfg).shop;
    CheckoutAdds(s, cart, cfg);
    assert exists o :: 0 <= o < |u.orders| && u.orders[o].uuid == cart.uuid by {
      if Replayed(s, cart) {
      } else {
        assert u.orders[|s.orders|].uuid == cart.uuid;
      }
    }
    var o :| 0 <= o < |u.orders| && u.orders[o].uuid == cart.uuid;
    RunKeepsUuid(u, ops, o);
  }
}
