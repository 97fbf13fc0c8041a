// A receipt code pays once: where it was booked, and that it is refused ever after.

module Receipts {
  import opened Tables
  import opened Orders
  import opened Soundness
  import opened Runs
  import opened Lifecycle
  import opened LegRules
  import opened TenderLaw
  import opened Retries
  import opened Completions

  // Nothing may rewrite leg p: it has completed, or its order is VOIDED.
  predicate Sealed(s: Shop, p: nat) {
    && p < |s.legs| && s.legs[p].order < |s.orders|
    && (s.legs[p].status == LegCompleted || s.orders[s.legs[p].order].status == Voided)
  }

  // The commit of a late retry that saw leg p PENDING, on an order not voided since.
  predicate Unseals(s: Shop, op: Op, p: nat) {
    op.DoRetryCommit? && ReadEarlier(s, op.o, op.total, op.seen) && p in op.seen && s.orders[op.o].status != Voided
  }

  predicate SameReceipt(s: Shop, t: Shop, p: nat) {
    p < |s.legs| && p < |t.legs| && t.legs[p].order == s.legs[p].order && t.legs[p].receipt == s.legs[p].receipt
  }

  predicate StillDone(s: Shop, t: Shop, p: nat) {
    SameReceipt(s, t, p) && (s.legs[p].status == LegCompleted ==> t.legs[p].status == LegCompleted)
  }

  // ---- one transaction ----

  lemma CompleteSeals(s: Shop, q: nat, receipt: string, amount: int, cfg: Config, p: nat)
    requires Sealed(s, p)
    ensures StillDone(s, Complete(s, q, receipt, amount, cfg).shop, p)
  {
  }

  lemma ManualSeals(s: Shop, o: nat, code: string, cfg: Config, p: nat)
    requires Sealed(s, p)
    ensures StillDone(s, ManualConfirm(s, o, code, cfg).shop, p)
  {
    if o < |s.orders| {
      var q := LastPending(s.legs, o);
      var legs := Collecting(s, o);
      CompleteSeals(s.(legs := legs), q, code, legs[q].amount, cfg, p);
    }
  }

  lemma CallbackSeals(s: Shop, cb: Callback, cfg: Config, p: nat)
    requires Sealed(s, p)
    ensures StillDone(s, HandleCallback(s, cb, cfg).shop, p)
  {
    CompleteSeals(s, FindCheckout(s.legs, cb.checkout), cb.receipt, cb.amount, cfg, p);
  }

  lemma CheckoutSeals(s: Shop, cart: Cart, cfg: Config, p: nat)
    requires Sealed(s, p)
    ensures StillDone(s, Checkout(s, cart, cfg).shop, p)
  {
    if Checkout(s, cart, cfg).shop != s {
      OpenLegsAppend(s.(orders := s.orders + [NewOrder(cart)]), |s.orders|, cart, cart.Specs());
    }
  }

  lemma VoidSeals(s: Shop, o: nat, caller: Caller, p: nat)
    requires Sealed(s, p)
    ensures SameReceipt(s, Void(s, o, caller).shop, p) && Sealed(Void(s, o, caller).shop, p)
  {
  }

  lemma StaysSealed(s: Shop, t: Shop, p: nat)
    requires Sealed(s, p) && StillDone(s, t, p) && Grown(s, t)
    ensures Sealed(t, p)
  {
  }

  lemma CommitSealsIff(s: Shop, o: nat, total: int, seen: set<nat>, p: nat)
    requires Sealed(s, p) && ReadEarlier(s, o, total, seen)
    ensures var t := RetryCommit(s, o, total, seen);
            SameReceipt(s, t, p) && (Sealed(t, p) <==> !(p in seen && s.orders[o].status != Voided))
  {
  }

  // One transaction leaves the receipt of a sealed leg alone, and the seal as well,
  // except exactly a late retry commit that fails the leg.
  lemma StepSealsIff(s: Shop, op: Op, p: nat)
    requires Sealed(s, p)
    ensures SameReceipt(s, Step(s, op), p)
    ensures Sealed(Step(s, op), p) <==> !Unseals(s, op, p)
  {
    var t := Step(s, op);
    StepGrows(s, op);
    match op
    case DoCheckout(cart, cfg) =>
      if cart.payable >= 0 { CheckoutSeals(s, cart, cfg, p); }
      StaysSealed(s, t, p);
    case DoComplete(q, receipt, amount, cfg) =>
      CompleteSeals(s, q, receipt, amount, cfg, p);
      StaysSealed(s, t, p);
    case DoManual(o, code, cfg) =>
      ManualSeals(s, o, code, cfg, p);
      StaysSealed(s, t, p);
    case DoCallback(cb, cfg) =>
      CallbackSeals(s, cb, cfg, p);
      StaysSealed(s, t, p);
    case DoVoid(o, caller) => VoidSeals(s, o, caller, p);
    case DoRetryCommit(o, total, seen) => if ReadEarlier(s, o, total, seen) { CommitSealsIff(s, o, total, seen, p); }
    case _ => OtherSeals(s, op, p);
  }

  predicate Harmful(op: Op) {
    op.DoCheckout? || op.DoComplete? || op.DoManual? || op.DoCallback? || op.DoVoid? || op.DoRetryCommit?
  }

  lemma OtherSeals(s: Shop, op: Op, p: nat)
    requires Sealed(s, p) && !Harmful(op)
    ensures SameReceipt(s, Step(s, op), p) && Sealed(Step(s, op), p)
  {
  }

  // ---- any transactions ----

  predicate SealedRun(s: Shop, ops: seq<Op>, p: nat) {
    forall n :: 0 <= n < |ops| ==> !Unseals(Run(s, ops[..n]), ops[n], p)
  }

  lemma {:induction false} RunSeals(s: Shop, ops: seq<Op>, p: nat)
    requires Sealed(s, p) && SealedRun(s, ops, p)
    ensures Sealed(Run(s, ops), p) && SameReceipt(s, Run(s, ops), p)
  {
    if ops != [] {
      var n := |ops| - 1;
      var rest := ops[..n];
      forall m | 0 <= m < n
        ensures !Unseals(Run(s, rest[..m]), rest[m], p)
      {
        assert rest[..m] == ops[..m];
      }
      RunSeals(s, rest, p);
      assert !Unseals(Run(s, ops[..n]), ops[n], p);
      StepSealsIff(Run(s, rest), ops[n], p);
    }
  }

  // ---- refusals ----

  // An open leg of a live order is refused a receipt exactly when another leg carries it.
  lemma DuplicateIff(s: Shop, q: nat, receipt: string, amount: int, cfg: Config)
    requires q < |s.legs| && s.legs[q].order < |s.orders| && s.legs[q].status != LegCompleted
    requires s.orders[s.legs[q].order].status != Voided
    ensures var tx := Complete(s, q, receipt, amount, cfg);
            && (tx.out == Err(DuplicateReceipt) <==> receipt != "" && exists j :: 0 <= j < |s.legs| && j != q && s.legs[j].receipt == receipt)
            && (tx.out == Err(DuplicateReceipt) ==> tx.shop == s)
  {
  }

  // Once a receipt was booked on leg p, whatever runs afterwards without failing that
  // leg by a late retry commit, no other leg of a live order can be paid with it.
  lemma BookedOnce(s: Shop, p: nat, receipt: string, amount: int, cfg: Config, ops: seq<Op>,
                   q: nat, again: int, cfg2: Config)
    requires Payable(s, p, receipt, cfg) && receipt != ""
    requires SealedRun(Complete(s, p, receipt, amount, cfg).shop, ops, p)
    requires var t := Run(Complete(s, p, receipt, amount, cfg).shop, ops);
             && q < |t.legs| && q != p && t.legs[q].status != LegCompleted
             && t.legs[q].order < |t.orders| && t.orders[t.legs[q].order].status != Voided
    ensures var t := Run(Complete(s, p, receipt, amount, cfg).shop, ops);
            && p < |t.legs| && t.legs[p].receipt == receipt
            && Complete(t, q, receipt, again, cfg2) == Tx(t, Err(DuplicateReceipt))
  {
    var u := Complete(s, p, receipt, amount, cfg).shop;
    CompletedLeg(s, p, receipt, amount, cfg);
    CompleteSealed(s, p, receipt, amount, cfg);
    RunSeals(u, ops, p);
    DuplicateIff(Run(u, ops), q, receipt, again, cfg2);
  }

  lemma CompleteSealed(s: Shop, p: nat, receipt: string, amount: int, cfg: Config)
    requires Payable(s, p, receipt, cfg)
    ensures Sealed(Complete(s, p, receipt, amount, cfg).shop, p)
  {
    PayableGoes(s, p, receipt, amount, cfg);
  }

  // ---- a late retry commit forgets a receipt ----

  predicate Unused(legs: seq<Leg>, receipt: string) {
    receipt != "" && forall l :: l in legs ==> l.receipt != receipt
  }

  lemma FirstBooking(s: Shop, p: nat, o: nat, receipt: string, cfg: Config)
    requires Inv(s) && PaysInFull(s, p, o, cfg) && Unused(s.legs, receipt)
    ensures var t := Complete(s, p, receipt, s.legs[p].amount, cfg).shop;
            && p < |s.legs| && s.legs[p].order == o && Payable(s, p, receipt, cfg)
            && |t.orders| == |s.orders| && t.orders[o].status == Paid && t.orders[o].total == s.orders[o].total
            && t.orders[o].lines == s.orders[o].lines
            && t.legs == s.legs[p := t.legs[p]] && t.legs[p].order == o && t.legs[p].receipt == receipt
  {
    assert p in PendingLegs(s.legs, o);
    assert s.orders[o] in s.orders;
    SellableSettles(s, s.orders[o], cfg);
    CompletedLeg(s, p, receipt, s.legs[p].amount, cfg);
    CompletedSale(s, p, receipt, s.legs[p].amount, cfg);
  }

  lemma SecondBooking(u: Shop, p: nat, o: nat, receipt: string, amount: int, cfg: Config)
    requires p < |u.legs| && u.legs[p].order == o < |u.orders| && u.orders[o].status == Paid && Distinct(u.orders[o].lines)
    requires u.legs[p].status != LegCompleted && ReceiptFree(u.legs, receipt, p) && receipt != ""
    ensures var tx := Complete(u, p, receipt, amount, cfg);
            && tx.out == Ok && |tx.shop.orders| == |u.orders| && tx.shop.orders == u.orders[o := tx.shop.orders[o]]
            && tx.shop.orders[o] == u.orders[o].(flagged := true)
            && tx.shop.legs == u.legs[p := tx.shop.legs[p]] && tx.shop.legs[p].receipt == receipt
  {
    CompletedLeg(u, p, receipt, amount, cfg);
    PaidAgain(u, p, receipt, amount, cfg);
  }

  lemma CommitSeen(u: Shop, o: nat, total: int, p: nat)
    requires p < |u.legs|
    ensures var t := RetryCommit(u, o, total, {p});
            && t.orders == u.orders && |t.legs| == |u.legs| + 1
            && t.legs == u.legs[p := u.legs[p].(status := LegFailed)] + [t.legs[|u.legs|]]
            && t.legs[|u.legs|].order == o && t.legs[|u.legs|].status == LegPending && t.legs[|u.legs|].receipt == ""
  {
  }

  // The leg was paid with a receipt, the late commit of a retry failed it, and it was
  // paid once more with another. The first receipt is gone from the tables, and pays
  // for the fresh leg as well.
  lemma ReceiptForgotten(s: Shop, p: nat, o: nat, first: string, second: string, cfg: Config)
    requires Inv(s) && PaysInFull(s, p, o, cfg) && Unused(s.legs, first) && Unused(s.legs, second) && first != second
    ensures var amount := s.legs[p].amount; var total := s.orders[o].total;
            var a := Complete(s, p, first, amount, cfg);
            var b := RetryCommit(a.shop, o, total, {p});
            var c := Complete(b, p, second, amount, cfg);
            var d := Complete(c.shop, |s.legs|, first, RoundToShilling(total), cfg);
            && a.out == Ok && c.out == Ok && d.out == Ok
            && p < |a.shop.legs| && a.shop.legs[p].receipt == first
            && |d.shop.legs| == |s.legs| + 1 && d.shop.legs[|s.legs|].receipt == first
            && Unseals(a.shop, DoRetryCommit(o, total, {p}), p)
  {
    var amount, total := s.legs[p].amount, s.orders[o].total;
    var a := Complete(s, p, first, amount, cfg).shop;
    var b := RetryCommit(a, o, total, {p});
    var c := Complete(b, p, second, amount, cfg).shop;
    assert s.orders[o] in s.orders;
    FirstBooking(s, p, o, first, cfg);
    assert Complete(s, p, first, amount, cfg).out == Ok by { CompletedLeg(s, p, first, amount, cfg); }
    assert s.legs[p].rail.Account? || s.legs[p].rail.Mpesa? by {
      FreshRead(s, o);
      assert p in PendingLegs(s.legs, o);
    }
    assert a.legs[p].rail == s.legs[p].rail by { CompleteSame(s, p, first, amount, cfg); }
    CommitSeen(a, o, total, p);
    SecondBooking(b, p, o, second, amount, cfg);
    assert b.legs[|s.legs|].receipt == "" && c.legs[|s.legs|] == b.legs[|s.legs|];
    forall j | 0 <= j < |c.legs| && j != |s.legs|
      ensures c.legs[j].receipt != first
    {
      if j != p {
        assert c.legs[j] == b.legs[j] == a.legs[j] == s.legs[j];
        assert s.legs[j] in s.legs;
      }
    }
    SecondBooking(c, |s.legs|, o, first, RoundToShilling(total), cfg);
  }
}
