// At most one PENDING leg an order, and no live leg on a VOIDED one. Every transaction
// keeps these rules but one: the commit of a phone retry, which may come late.

module LegRules {
  import opened Tables
  import opened Tallies
  import opened TallyLaws
  import opened Orders
  import opened Soundness
  import opened Checkouts
  import opened Runs

  predicate NeatOrder(order: Order, L: Legs) {
    L.waiting <= 1 && (order.status.Voided? ==> L.live == 0)
  }

  predicate NeatAt(s: Shop, o: nat)
    requires o < |s.orders|
  {
    NeatOrder(s.orders[o], LegTally(s.legs, o))
  }

  predicate Neat(s: Shop) {
    forall o: nat :: o < |s.orders| ==> NeatAt(s, o)
  }

  // ---- steps that add no PENDING leg ----

  lemma FailingNeat(s: Shop, legs: seq<Leg>)
    requires Neat(s) && Failing(s.legs, legs)
    ensures Neat(s.(legs := legs))
  {
    forall o: nat | o < |s.orders|
      ensures NeatAt(s.(legs := legs), o)
    {
      assert NeatAt(s, o);
      LegsFailed(s.legs, legs, o);
      LegBounds(legs, o);
    }
  }

  lemma BindNeat(s: Shop, p: nat, checkout: string)
    requires Neat(s) && p < |s.legs|
    ensures Neat(Bind(s, p, checkout))
  {
    var t := Bind(s, p, checkout);
    forall o: nat | o < |t.orders|
      ensures NeatAt(t, o)
    {
      assert NeatAt(s, o);
      LegsReweighed(s.legs, t.legs, o);
    }
  }

  lemma FlagNeat(s: Shop, o: nat)
    requires Neat(s) && o < |s.orders|
    ensures Neat(Flag(s, o, true))
  {
    forall k: nat | k < |s.orders|
      ensures NeatAt(Flag(s, o, true), k)
    {
      assert NeatAt(s, k);
    }
  }

  // A leg stops being PENDING; its order is not voided unless it stops being live.
  lemma ClosedNeat(s: Shop, t: Shop, p: nat)
    requires Neat(s) && p < |s.legs| == |t.legs| && t.legs == s.legs[p := t.legs[p]]
    requires t.legs[p].order == s.legs[p].order && !t.legs[p].status.LegPending?
    requires |t.orders| == |s.orders| && forall o :: 0 <= o < |s.orders| && t.orders[o].status.Voided? ==> s.orders[o].status.Voided?
    requires s.legs[p].order < |t.orders| && t.orders[s.legs[p].order].status.Voided? ==> !Live(t.legs[p])
    ensures Neat(t)
  {
    forall o: nat | o < |t.orders|
      ensures NeatAt(t, o)
    {
      assert NeatAt(s, o);
      LegUpdated(s.legs, p, t.legs[p], o);
      LegCounted(s.legs, o, p);
      LegBounds(t.legs, o);
    }
  }

  lemma CompleteNeat(s: Shop, p: nat, receipt: string, amount: int, cfg: Config)
    requires Neat(s)
    ensures Neat(Complete(s, p, receipt, amount, cfg).shop)
  {
    var t := Complete(s, p, receipt, amount, cfg).shop;
    if t != s {
      ClosedNeat(s, t, p);
    }
  }

  lemma CollectingNeat(s: Shop, o: nat)
    requires Neat(s) && o < |s.orders| && s.orders[o].status.Pending?
    ensures Neat(s.(legs := Collecting(s, o)))
  {
    var leg := ManualLeg(o, s.orders[o].total - LegTally(s.legs, o).completed);
    if LastPending(s.legs, o) == |s.legs| {
      NoneWaiting(s.legs, o);
      WaitingAdded(s, leg);
    }
  }

  // A PENDING leg for an order that has none and is not voided.
  lemma WaitingAdded(s: Shop, leg: Leg)
    requires Neat(s) && leg.order < |s.orders| && leg.rail.Mpesa? && leg.status.LegPending?
    requires !s.orders[leg.order].status.Voided? && LegTally(s.legs, leg.order).waiting == 0
    ensures Neat(s.(legs := s.legs + [leg]))
  {
    forall o: nat | o < |s.orders|
      ensures NeatAt(s.(legs := s.legs + [leg]), o)
    {
      assert NeatAt(s, o);
      if o == leg.order {
        LegAppended(s.legs, leg, o);
        WaitingPart(leg);
      } else {
        LegAddedElsewhere(s, leg, o);
      }
    }
  }

  lemma ManualNeat(s: Shop, o: nat, code: string, cfg: Config)
    requires Neat(s)
    ensures Neat(ManualConfirm(s, o, code, cfg).shop)
  {
    if o < |s.orders| && s.orders[o].status.Pending? {
      var p := LastPending(s.legs, o);
      var legs := Collecting(s, o);
      CollectingNeat(s, o);
      CompleteNeat(s.(legs := legs), p, code, legs[p].amount, cfg);
    }
  }

  lemma CallbackNeat(s: Shop, cb: Callback, cfg: Config)
    requires Neat(s)
    ensures Neat(HandleCallback(s, cb, cfg).shop)
  {
    var p := FindCheckout(s.legs, cb.checkout);
    if p < |s.legs| {
      FailingNeat(s, FailLeg(s, p).legs);
      if s.legs[p].order < |s.orders| {
        FlagNeat(FailLeg(s, p), s.legs[p].order);
      }
      CompleteNeat(s, p, cb.receipt, cb.amount, cfg);
    }
  }

  lemma VoidNeat(s: Shop, o: nat, caller: Caller)
    requires Neat(s)
    ensures Neat(Void(s, o, caller).shop)
  {
    var t := Void(s, o, caller).shop;
    if Void(s, o, caller).out.Ok? {
      forall k: nat | k < |t.orders|
        ensures NeatAt(t, k)
      {
        assert NeatAt(s, k);
        if k == o {
          LegsVoided(s.legs, o);
        } else {
          LegsVoidedElsewhere(s.legs, o, k);
        }
      }
    }
  }

  lemma CheckoutNeat(s: Shop, cart: Cart, cfg: Config)
    requires Inv(s) && Neat(s) && cart.payable >= 0
    ensures Neat(Checkout(s, cart, cfg).shop)
  {
    var t := Checkout(s, cart, cfg).shop;
    if t != s {
      PlacedNeat(s, cart);
      var placed := Placed(s, cart);
      forall k: nat | k < |t.orders|
        ensures NeatAt(t, k)
      {
        assert NeatAt(placed, k);
      }
    }
  }

  lemma PlacedNeat(s: Shop, cart: Cart)
    requires Inv(s) && Neat(s) && Placeable(s, cart) && cart.payable >= 0
    ensures Neat(Placed(s, cart)) && |Placed(s, cart).orders| == |s.orders| + 1 && Placed(s, cart).orders[|s.orders|].status.Pending?
  {
    var placed := Placed(s, cart);
    OpenedOrder(s, cart);
    TenderAddsUp(s, cart);
    forall k: nat | k < |placed.orders|
      ensures NeatAt(placed, k)
    {
      if k < |s.orders| {
        assert NeatAt(s, k);
        PlacedElsewhere(s, cart, k);
      }
    }
  }

  // ---- the commit of a retry ----

  // A void in between: the fresh leg makes the dead order live.
  lemma VoidedRetryBreaks(s: Shop, o: nat, total: int, seen: set<nat>)
    requires o < |s.orders| && s.orders[o].status.Voided?
    ensures !Neat(RetryCommit(s, o, total, seen))
  {
    var t := RetryCommit(s, o, total, seen);
    assert t.legs[|s.legs|] == RetryLeg(o, total);
    LegCounted(t.legs, o, |s.legs|);
    assert !NeatAt(t, o);
  }

  // Another leg became PENDING in between: now there are two.
  lemma MissedLegBreaks(s: Shop, o: nat, total: int, seen: set<nat>, i: nat)
    requires o < |s.orders| && i in PendingLegs(s.legs, o) && i !in seen
    ensures !Neat(RetryCommit(s, o, total, seen))
  {
    var swept := Supersede(s.legs, seen);
    var t := RetryCommit(s, o, total, seen);
    LegCounted(swept, o, i);
    LegAppended(swept, RetryLeg(o, total), o);
    assert !NeatAt(t, o);
  }

  lemma SupersededNeat(s: Shop, o: nat, seen: set<nat>)
    requires Neat(s) && o < |s.orders| && ReadEarlier(s, o, s.orders[o].total, seen)
    ensures Neat(s.(legs := Supersede(s.legs, seen)))
  {
    var swept := Supersede(s.legs, seen);
    forall k: nat | k < |s.orders|
      ensures NeatAt(s.(legs := swept), k)
    {
      assert NeatAt(s, k);
      LegBounds(swept, k);
      if k == o {
        LegsSuperseded(s.legs, o, seen);
      } else {
        LegsReweighed(s.legs, swept, k);
      }
    }
  }

  // The commit of a retry keeps the rules exactly when the order has not been voided
  // and every leg now PENDING was seen by the earlier read.
  lemma RetryCommitNeatIff(s: Shop, o: nat, total: int, seen: set<nat>)
    requires Neat(s) && ReadEarlier(s, o, total, seen)
    ensures Neat(RetryCommit(s, o, total, seen)) <==> !s.orders[o].status.Voided? && PendingLegs(s.legs, o) <= seen
  {
    if s.orders[o].status.Voided? {
      VoidedRetryBreaks(s, o, total, seen);
    } else if !(PendingLegs(s.legs, o) <= seen) {
      var i :| i in PendingLegs(s.legs, o) && i !in seen;
      MissedLegBreaks(s, o, total, seen, i);
    } else {
      var swept := Supersede(s.legs, seen);
      SupersededNeat(s, o, seen);
      forall l | l in swept && l.order == o
        ensures !l.status.LegPending?
      {
        var i :| 0 <= i < |swept| && swept[i] == l;
        assert i in seen || i !in PendingLegs(s.legs, o);
      }
      NoneWaiting(swept, o);
      WaitingAdded(s.(legs := swept), RetryLeg(o, total));
    }
  }

  lemma RetryNeat(s: Shop, o: nat, phoneOk: bool)
    requires Inv(s) && Neat(s)
    ensures Neat(Retry(s, o, phoneOk).shop)
  {
    if Retry(s, o, phoneOk).out.Ok? {
      FreshRead(s, o);
      RetryCommitNeatIff(s, o, s.orders[o].total, PendingLegs(s.legs, o));
    }
  }

  // ---- runs ----

  predicate Harmless(s: Shop, op: Op) {
    match op
    case DoRetryCommit(o, total, seen) =>
      ReadEarlier(s, o, total, seen) ==> !s.orders[o].status.Voided? && PendingLegs(s.legs, o) <= seen
    case _ => true
  }

  lemma OthersKeepLegs(s: Shop, op: Op)
    requires op.DoPostSettlement? || op.DoPay? || op.DoAdjust? || op.DoTopUp? || op.DoRedeemCard? || op.DoNewCustomer? || op.DoSetActive?
    ensures Step(s, op).legs == s.legs && Step(s, op).orders == s.orders
  {
  }

  lemma SameNeat(s: Shop, t: Shop)
    requires Neat(s) && t.legs == s.legs && t.orders == s.orders
    ensures Neat(t)
  {
    forall o: nat | o < |t.orders|
      ensures NeatAt(t, o)
    {
      assert NeatAt(s, o);
    }
  }

  // Every transaction keeps the rules, except exactly the harmful commits.
  lemma StepNeatIff(s: Shop, op: Op)
    requires Inv(s) && Neat(s)
    ensures Neat(Step(s, op)) <==> Harmless(s, op)
  {
    match op
    case DoCheckout(cart, cfg) => if cart.payable >= 0 { CheckoutNeat(s, cart, cfg); }
    case DoComplete(p, receipt, amount, cfg) => CompleteNeat(s, p, receipt, amount, cfg);
    case DoManual(o, code, cfg) => ManualNeat(s, o, code, cfg);
    case DoRetry(o, phoneOk) => RetryNeat(s, o, phoneOk);
    case DoRetryCommit(o, total, seen) => if ReadEarlier(s, o, total, seen) { RetryCommitNeatIff(s, o, total, seen); }
    case DoStartPush(p) => if p < |s.legs| { FailingNeat(s, StartPush(s, p).legs); }
    case DoFail(p) => if p < |s.legs| { FailingNeat(s, FailLeg(s, p).legs); }
    case DoBind(p, checkout) => if p < |s.legs| { BindNeat(s, p, checkout); }
    case DoCallback(cb, cfg) => CallbackNeat(s, cb, cfg);
    case DoVoid(o, caller) => VoidNeat(s, o, caller);
    case _ =>
      OthersKeepLegs(s, op);
      SameNeat(s, Step(s, op));
  }

  predicate HarmlessRun(s: Shop, ops: seq<Op>) {
    forall n :: 0 <= n < |ops| ==> Harmless(Run(s, ops[..n]), ops[n])
  }

  lemma {:induction false} RunNeat(s: Shop, ops: seq<Op>)
    requires Inv(s) && Neat(s) && HarmlessRun(s, ops)
    ensures Neat(Run(s, ops))
  {
    if ops != [] {
      var n := |ops| - 1;
      var rest := ops[..n];
      forall m | 0 <= m < n
        ensures Harmless(Run(s, rest[..m]), rest[m])
      {
        assert rest[..m] == ops[..m];
      }
      RunNeat(s, rest);
      RunKeeps(s, rest);
      assert Harmless(Run(s, ops[..n]), ops[n]);
      StepNeatIff(Run(s, rest), ops[n]);
    }
  }

  lemma OpeningNeat(s: Shop)
    requires Opening(s)
    ensures Inv(s) && Neat(s)
  {
    OpeningSound(s);
  }

  lemma TwoWaiting(legs: seq<Leg>, o: nat, i: nat, j: nat)
    requires i < j < |legs|
    requires LegTally(legs, o).waiting <= 1
    requires legs[i].order == o && legs[i].status.LegPending?
    ensures !(legs[j].order == o && legs[j].status.LegPending?)
  {
    var without := legs[i := legs[i].(status := LegFailed)];
    LegUpdated(legs, i, without[i], o);
    LegCounted(without, o, j);
  }

  // At most one leg of an order is PENDING, in every run without a harmful commit.
  lemma OnePendingLeg(s: Shop, ops: seq<Op>, i: nat, j: nat)
    requires Opening(s) && HarmlessRun(s, ops) && i < j < |Run(s, ops).legs|
    requires Run(s, ops).legs[i].order == Run(s, ops).legs[j].order
    ensures !(Run(s, ops).legs[i].status.LegPending? && Run(s, ops).legs[j].status.LegPending?)
  {
    var t := Run(s, ops);
    var o := t.legs[i].order;
    OpeningNeat(s);
    RunKeeps(s, ops);
    RunNeat(s, ops);
    assert t.legs[i] in t.legs;
    assert NeatAt(t, o);
    if t.legs[i].status.LegPending? {
      TwoWaiting(t.legs, o, i, j);
    }
  }

  // Every leg of a VOIDED order is FAILED or VOIDED, in every such run.
  lemma VoidedLegsAreDead(s: Shop, ops: seq<Op>, i: nat)
    requires Opening(s) && HarmlessRun(s, ops) && i < |Run(s, ops).legs|
    ensures var t := Run(s, ops); var leg := t.legs[i];
            && leg.order < |t.orders|
            && (t.orders[leg.order].status.Voided? ==> leg.status.LegFailed? || leg.status.LegVoided?)
  {
    var t := Run(s, ops);
    var o := t.legs[i].order;
    OpeningNeat(s);
    RunKeeps(s, ops);
    RunNeat(s, ops);
    assert t.legs[i] in t.legs;
    assert NeatAt(t, o);
    LegCounted(t.legs, o, i);
  }

  // ---- legs keep their identity ----

  // No leg changes its order, rail, amount or phone, and a new leg has a phone only
  // on the M-Pesa rail.
  predicate SameLegs(s: Shop, t: Shop) {
    && |s.legs| <= |t.legs|
    && (forall i :: 0 <= i < |s.legs| ==>
          && t.legs[i].order == s.legs[i].order && t.legs[i].rail == s.legs[i].rail
          && t.legs[i].amount == s.legs[i].amount && t.legs[i].hasPhone == s.legs[i].hasPhone)
    && (forall i :: |s.legs| <= i < |t.legs| && t.legs[i].hasPhone ==> t.legs[i].rail.Mpesa?)
  }

  lemma {:induction false} OpenLegsSame(s: Shop, k: nat, cart: Cart, specs: seq<LegSpec>)
    requires OpenLegs(s, k, cart, specs).Done?
    ensures SameLegs(s, OpenLegs(s, k, cart, specs).shop)
  {
    if specs != [] {
      OpenLegsSame(s, k, cart, specs[..|specs| - 1]);
    }
  }

  lemma CompleteSame(s: Shop, p: nat, receipt: string, amount: int, cfg: Config)
    ensures SameLegs(s, Complete(s, p, receipt, amount, cfg).shop)
  {
  }

  lemma ManualSame(s: Shop, k: nat, code: string, cfg: Config)
    ensures SameLegs(s, ManualConfirm(s, k, code, cfg).shop)
  {
    if k < |s.orders| {
      var legs := Collecting(s, k);
      var p := LastPending(s.legs, k);
      CompleteSame(s.(legs := legs), p, code, legs[p].amount, cfg);
    }
  }

  lemma CallbackSame(s: Shop, cb: Callback, cfg: Config)
    ensures SameLegs(s, HandleCallback(s, cb, cfg).shop)
  {
    CompleteSame(s, FindCheckout(s.legs, cb.checkout), cb.receipt, cb.amount, cfg);
  }

  lemma CheckoutSame(s: Shop, cart: Cart, cfg: Config)
    ensures SameLegs(s, Checkout(s, cart, cfg).shop)
  {
    if Checkout(s, cart, cfg).shop != s {
      OpenLegsSame(Inserted(s, cart), |s.orders|, cart, cart.Specs());
    }
  }

  lemma CommitSame(s: Shop, o: nat, total: int, seen: set<nat>)
    ensures SameLegs(s, RetryCommit(s, o, total, seen))
  {
  }

  lemma VoidSame(s: Shop, o: nat, caller: Caller)
    ensures SameLegs(s, Void(s, o, caller).shop)
  {
  }

  lemma RestSame(s: Shop, op: Op)
    requires op.DoStartPush? || op.DoFail? || op.DoBind?
    ensures SameLegs(s, Step(s, op))
  {
  }

  lemma StepSameLegs(s: Shop, op: Op)
    ensures SameLegs(s, Step(s, op))
  {
    match op
    case DoCheckout(cart, cfg) => CheckoutSame(s, cart, cfg);
    case DoComplete(p, receipt, amount, cfg) => CompleteSame(s, p, receipt, amount, cfg);
    case DoManual(k, code, cfg) => ManualSame(s, k, code, cfg);
    case DoRetry(o, phoneOk) => if o < |s.orders| { CommitSame(s, o, s.orders[o].total, PendingLegs(s.legs, o)); }
    case DoRetryCommit(o, total, seen) => CommitSame(s, o, total, seen);
    case DoStartPush(_) => RestSame(s, op);
    case DoFail(_) => RestSame(s, op);
    case DoBind(_, _) => RestSame(s, op);
    case DoCallback(cb, cfg) => CallbackSame(s, cb, cfg);
    case DoVoid(o, caller) => VoidSame(s, o, caller);
    case _ => OthersKeepLegs(s, op);
  }

  lemma {:induction false} RunSameLegs(s: Shop, ops: seq<Op>)
    ensures SameLegs(s, Run(s, ops))
  {
    if ops != [] {
      RunSameLegs(s, ops[..|ops| - 1]);
      StepSameLegs(Run(s, ops[..|ops| - 1]), ops[|ops| - 1]);
    }
  }

  predicate PhonesAreMpesa(legs: seq<Leg>) {
    forall i :: 0 <= i < |legs| && legs[i].hasPhone ==> legs[i].rail.Mpesa?
  }

  // A leg with a phone is an M-Pesa leg in every run, so re-tagging it changes nothing.
  lemma PhonesStayMpesa(s: Shop, ops: seq<Op>)
    requires Opening(s)
    ensures PhonesAreMpesa(Run(s, ops).legs)
  {
    RunSameLegs(s, ops);
  }
}
