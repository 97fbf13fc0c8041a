// Money taken against money owed: what the COMPLETED legs of an order add up to.

module TenderLaw {
  import opened Sums
  import opened Tables
  import opened Tallies
  import opened TallyLaws
  import opened Orders
  import opened Soundness
  import opened Checkouts
  import opened Runs

  // Within half a shilling, the most that rounding one M-Pesa leg can move.
  predicate Near(paid: int, due: int) {
    -50 <= paid - due <= 50
  }

  function Collected(s: Shop, o: nat): int {
    LegTally(s.legs, o).completed
  }

  // Any leg that could still complete a PENDING order would bring it to its total.
  predicate LegFits(s: Shop, leg: Leg) {
    leg.order < |s.orders| && s.orders[leg.order].status.Pending? && !leg.status.LegCompleted? ==>
      Near(Collected(s, leg.order) + leg.amount, s.orders[leg.order].total)
  }

  predicate OrderCovered(s: Shop, o: nat)
    requires o < |s.orders|
  {
    s.orders[o].status.Paid? && !s.orders[o].flagged ==> Near(Collected(s, o), s.orders[o].total)
  }

  predicate TenderOk(s: Shop) {
    && (forall l :: l in s.legs ==> LegFits(s, l))
    && (forall o: nat :: o < |s.orders| ==> OrderCovered(s, o))
  }

  // A retry that commits now suits order o: a PENDING order still lacks the whole
  // total it asks for, and a PAID one does not lose what paid it.
  predicate RetryFits(s: Shop, o: nat, seen: set<nat>)
    requires o < |s.orders|
  {
    var order := s.orders[o];
    match order.status
    case Pending => Near(Collected(s, o) + RoundToShilling(order.total), order.total)
    case Paid => order.flagged || Near(Collected(s.(legs := Supersede(s.legs, seen)), o), order.total)
    case Voided => true
  }

  predicate CleanRetry(s: Shop, op: Op) {
    match op
    case DoRetry(o, phoneOk) => Retry(s, o, phoneOk).out.Ok? ==> RetryFits(s, o, PendingLegs(s.legs, o))
    case DoRetryCommit(o, total, seen) => ReadEarlier(s, o, total, seen) ==> RetryFits(s, o, seen)
    case _ => true
  }

  lemma RoundingNear(cents: int)
    ensures Near(RoundToShilling(cents), cents)
  {
  }

  // ---- legs change, orders do not ----

  lemma FailingCollects(s: Shop, swept: seq<Leg>, o: nat)
    requires Failing(s.legs, swept)
    ensures Collected(s.(legs := swept), o) == Collected(s, o)
  {
    LegsFailed(s.legs, swept, o);
  }

  lemma FailingTender(s: Shop, swept: seq<Leg>)
    requires TenderOk(s) && Failing(s.legs, swept)
    ensures TenderOk(s.(legs := swept))
  {
    var t := s.(legs := swept);
    forall l | l in swept
      ensures LegFits(t, l)
    {
      var i :| 0 <= i < |swept| && swept[i] == l;
      assert LegFits(s, s.legs[i]);
      FailingCollects(s, swept, l.order);
    }
    forall o: nat | o < |s.orders|
      ensures OrderCovered(t, o)
    {
      assert OrderCovered(s, o);
      FailingCollects(s, swept, o);
    }
  }

  // One leg is rewritten, keeping its amount and what it has collected.
  lemma RelabelTender(s: Shop, p: nat, leg: Leg)
    requires TenderOk(s) && p < |s.legs|
    requires leg.order == s.legs[p].order && leg.amount == s.legs[p].amount && leg.status == s.legs[p].status
    ensures TenderOk(s.(legs := s.legs[p := leg]))
  {
    var t := s.(legs := s.legs[p := leg]);
    forall o: nat
      ensures Collected(t, o) == Collected(s, o)
    {
      SumUpdated(s.legs, p, leg, CompletedCents(o));
    }
    assert LegFits(s, s.legs[p]);
    forall l | l in t.legs
      ensures LegFits(t, l)
    {
      assert l == leg || l in s.legs;
    }
    forall o: nat | o < |s.orders|
      ensures OrderCovered(t, o)
    {
      assert OrderCovered(s, o);
    }
  }

  // A PENDING leg that brings its order to the total may be added.
  lemma AddedTender(s: Shop, leg: Leg)
    requires TenderOk(s) && leg.order < |s.orders| && leg.status.LegPending?
    requires Near(Collected(s, leg.order) + leg.amount, s.orders[leg.order].total)
    ensures TenderOk(s.(legs := s.legs + [leg]))
  {
    var t := s.(legs := s.legs + [leg]);
    forall o: nat
      ensures Collected(t, o) == Collected(s, o)
    {
      SumAppended(s.legs, leg, CompletedCents(o));
    }
    forall l | l in t.legs
      ensures LegFits(t, l)
    {
      assert l == leg || LegFits(s, l);
    }
    forall o: nat | o < |s.orders|
      ensures OrderCovered(t, o)
    {
      assert OrderCovered(s, o);
    }
  }

  // ---- closing an order ----

  // An order that leaves PENDING, or is flagged, with the legs changing at most there.
  lemma ClosedTender(s: Shop, t: Shop, o: nat)
    requires TenderOk(s) && o < |s.orders| == |t.orders| && t.orders == s.orders[o := t.orders[o]]
    requires !t.orders[o].status.Pending?
    requires forall k: nat :: k != o ==> Collected(t, k) == Collected(s, k)
    requires forall l :: l in t.legs && l.order != o ==> l in s.legs
    requires OrderCovered(t, o)
    ensures TenderOk(t)
  {
    forall l | l in t.legs
      ensures LegFits(t, l)
    {
      if l.order != o {
        assert LegFits(s, l);
      }
    }
    forall k: nat | k < |t.orders|
      ensures OrderCovered(t, k)
    {
      if k != o {
        assert OrderCovered(s, k);
      }
    }
  }

  lemma CompleteTender(s: Shop, p: nat, receipt: string, amount: int, cfg: Config)
    requires TenderOk(s)
    ensures TenderOk(Complete(s, p, receipt, amount, cfg).shop)
  {
    var t := Complete(s, p, receipt, amount, cfg).shop;
    if t != s {
      var leg := s.legs[p];
      var o := leg.order;
      forall k: nat
        ensures Collected(t, k) == Collected(s, k) + (if k == o && t.legs[p].status.LegCompleted? then leg.amount else 0)
      {
        SumUpdated(s.legs, p, t.legs[p], CompletedCents(k));
      }
      assert leg in s.legs;
      assert LegFits(s, leg);
      ClosedTender(s, t, o);
    }
  }

  lemma CollectingTender(s: Shop, o: nat)
    requires TenderOk(s) && o < |s.orders|
    ensures TenderOk(s.(legs := Collecting(s, o)))
  {
    if LastPending(s.legs, o) == |s.legs| {
      AddedTender(s, ManualLeg(o, s.orders[o].total - Collected(s, o)));
    }
  }

  lemma ManualTender(s: Shop, o: nat, code: string, cfg: Config)
    requires TenderOk(s)
    ensures TenderOk(ManualConfirm(s, o, code, cfg).shop)
  {
    if o < |s.orders| {
      var p := LastPending(s.legs, o);
      var legs := Collecting(s, o);
      CollectingTender(s, o);
      CompleteTender(s.(legs := legs), p, code, legs[p].amount, cfg);
    }
  }

  lemma FlagTender(s: Shop, o: nat)
    requires TenderOk(s) && o < |s.orders|
    ensures TenderOk(Flag(s, o, true))
  {
    var t := Flag(s, o, true);
    forall l | l in t.legs
      ensures LegFits(t, l)
    {
      assert LegFits(s, l);
    }
    forall k: nat | k < |t.orders|
      ensures OrderCovered(t, k)
    {
      assert OrderCovered(s, k);
    }
  }

  lemma CallbackTender(s: Shop, cb: Callback, cfg: Config)
    requires TenderOk(s)
    ensures TenderOk(HandleCallback(s, cb, cfg).shop)
  {
    var p := FindCheckout(s.legs, cb.checkout);
    if p < |s.legs| {
      FailingTender(s, FailLeg(s, p).legs);
      if s.legs[p].order < |s.orders| {
        FlagTender(FailLeg(s, p), s.legs[p].order);
      }
      CompleteTender(s, p, cb.receipt, cb.amount, cfg);
    }
  }

  lemma VoidTender(s: Shop, o: nat, caller: Caller)
    requires TenderOk(s)
    ensures TenderOk(Void(s, o, caller).shop)
  {
    var t := Void(s, o, caller).shop;
    if t != s {
      forall k: nat | k != o
        ensures Collected(t, k) == Collected(s, k)
      {
        LegsVoidedElsewhere(s.legs, o, k);
      }
      forall l | l in t.legs && l.order != o
        ensures l in s.legs
      {
        var i :| 0 <= i < |t.legs| && t.legs[i] == l;
        assert s.legs[i] == l;
      }
      ClosedTender(s, t, o);
    }
  }

  // ---- the commit of a retry ----

  lemma SupersededElsewhere(s: Shop, o: nat, seen: set<nat>, k: nat)
    requires o < |s.orders| && ReadEarlier(s, o, s.orders[o].total, seen) && k != o
    ensures Collected(s.(legs := Supersede(s.legs, seen)), k) == Collected(s, k)
  {
    LegsReweighed(s.legs, Supersede(s.legs, seen), k);
  }

  // Nothing that could be failed late has completed while the order is PENDING.
  lemma SupersededPending(s: Shop, o: nat, seen: set<nat>)
    requires o < |s.orders| && OrderOk(s, o) && s.orders[o].status.Pending? && ReadEarlier(s, o, s.orders[o].total, seen)
    ensures Collected(s.(legs := Supersede(s.legs, seen)), o) == Collected(s, o)
  {
    var swept := Supersede(s.legs, seen);
    forall i | 0 <= i < |s.legs|
      ensures CompletedCents(o)(swept[i]) == CompletedCents(o)(s.legs[i])
    {
      if i in seen {
        SeenNotCompleted(s, o, seen, i);
      }
    }
    SumMatched(swept, CompletedCents(o), s.legs, CompletedCents(o));
  }

  lemma RetryCollects(s: Shop, o: nat, total: int, seen: set<nat>, k: nat)
    ensures Collected(RetryCommit(s, o, total, seen), k) == Collected(s.(legs := Supersede(s.legs, seen)), k)
  {
    SumAppended(Supersede(s.legs, seen), RetryLeg(o, total), CompletedCents(k));
  }

  lemma OtherLegsStay(s: Shop, o: nat, total: int, seen: set<nat>, l: Leg)
    requires ReadEarlier(s, o, total, seen) && l in RetryCommit(s, o, total, seen).legs && l.order != o
    ensures l in s.legs
  {
    var t := RetryCommit(s, o, total, seen);
    var i :| 0 <= i < |t.legs| && t.legs[i] == l;
    assert s.legs[i] in s.legs;
  }

  lemma RetryKeepsOthers(s: Shop, o: nat, total: int, seen: set<nat>, k: nat)
    requires TenderOk(s) && ReadEarlier(s, o, total, seen) && k != o
    ensures var t := RetryCommit(s, o, total, seen);
            && Collected(t, k) == Collected(s, k)
            && (k < |t.orders| ==> OrderCovered(t, k))
  {
    SupersededElsewhere(s, o, seen, k);
    RetryCollects(s, o, total, seen, k);
    assert k < |s.orders| ==> OrderCovered(s, k);
  }

  // A leg of a PENDING order that a retry fails had not completed.
  lemma SeenNotCompleted(s: Shop, o: nat, seen: set<nat>, i: nat)
    requires o < |s.orders| && OrderOk(s, o) && s.orders[o].status.Pending? && ReadEarlier(s, o, s.orders[o].total, seen) && i in seen
    ensures !s.legs[i].status.LegCompleted?
  {
    LegCounted(s.legs, o, i);
  }

  // Legs of a PENDING order still fit: nothing was collected or lost.
  lemma PendingLegFits(s: Shop, o: nat, total: int, seen: set<nat>, l: Leg)
    requires TenderOk(s) && ReadEarlier(s, o, total, seen) && OrderOk(s, o) && RetryFits(s, o, seen) && s.orders[o].status.Pending?
    requires l in RetryCommit(s, o, total, seen).legs && l.order == o
    ensures LegFits(RetryCommit(s, o, total, seen), l)
  {
    var t := RetryCommit(s, o, total, seen);
    RetryCollects(s, o, total, seen, o);
    SupersededPending(s, o, seen);
    var i :| 0 <= i < |t.legs| && t.legs[i] == l;
    if i < |s.legs| {
      assert LegFits(s, s.legs[i]);
      if i in seen {
        SeenNotCompleted(s, o, seen, i);
      }
    }
  }

  lemma RetryLegFits(s: Shop, o: nat, total: int, seen: set<nat>, l: Leg)
    requires TenderOk(s) && ReadEarlier(s, o, total, seen) && OrderOk(s, o) && RetryFits(s, o, seen)
    requires l in RetryCommit(s, o, total, seen).legs
    ensures LegFits(RetryCommit(s, o, total, seen), l)
  {
    if l.order != o {
      RetryKeepsOthers(s, o, total, seen, l.order);
      OtherLegsStay(s, o, total, seen, l);
      assert LegFits(s, l);
    } else if s.orders[o].status.Pending? {
      PendingLegFits(s, o, total, seen, l);
    }
  }

  lemma RetryCommitTender(s: Shop, o: nat, total: int, seen: set<nat>)
    requires TenderOk(s) && ReadEarlier(s, o, total, seen) && OrderOk(s, o) && RetryFits(s, o, seen)
    ensures TenderOk(RetryCommit(s, o, total, seen))
  {
    var t := RetryCommit(s, o, total, seen);
    forall l | l in t.legs
      ensures LegFits(t, l)
    {
      RetryLegFits(s, o, total, seen, l);
    }
    forall k: nat | k < |t.orders|
      ensures OrderCovered(t, k)
    {
      if k != o {
        RetryKeepsOthers(s, o, total, seen, k);
      } else {
        RetryCollects(s, o, total, seen, o);
      }
    }
  }

  predicate PaidCovered(s: Shop) {
    forall o: nat :: o < |s.orders| ==> OrderCovered(s, o)
  }

  // The law of PAID orders alone: a commit breaks it exactly on a PAID, unflagged order
  // that the legs it fails had paid for.
  lemma RetryKeepsPaidIff(s: Shop, o: nat, total: int, seen: set<nat>)
    requires PaidCovered(s) && ReadEarlier(s, o, total, seen)
    ensures PaidCovered(RetryCommit(s, o, total, seen)) <==> (s.orders[o].status.Paid? ==> RetryFits(s, o, seen))
  {
    var t := RetryCommit(s, o, total, seen);
    RetryCollects(s, o, total, seen, o);
    forall k: nat | k < |t.orders| && k != o
      ensures OrderCovered(t, k)
    {
      assert OrderCovered(s, k);
      SupersededElsewhere(s, o, seen, k);
      RetryCollects(s, o, total, seen, k);
    }
    assert PaidCovered(t) ==> OrderCovered(t, o);
  }

  // The commit of a retry, whenever its read was, keeps the law of open legs and PAID
  // orders exactly when a PENDING order lacks the rounded total and a PAID one keeps what covers it.
  lemma RetryKeepsTenderIff(s: Shop, o: nat, total: int, seen: set<nat>)
    requires TenderOk(s) && ReadEarlier(s, o, total, seen) && OrderOk(s, o)
    ensures TenderOk(RetryCommit(s, o, total, seen)) <==> RetryFits(s, o, seen)
  {
    var t := RetryCommit(s, o, total, seen);
    if RetryFits(s, o, seen) {
      RetryCommitTender(s, o, total, seen);
    }
    if TenderOk(t) {
      RetryCollects(s, o, total, seen, o);
      if s.orders[o].status.Pending? {
        SupersededPending(s, o, seen);
        assert RetryLeg(o, total) in t.legs;
        assert LegFits(t, RetryLeg(o, total));
      }
      assert OrderCovered(t, o);
    }
  }

  // ---- checkout ----

  function InstantSum(specs: seq<LegSpec>): int {
    if specs == [] then 0
    else InstantSum(specs[..|specs| - 1]) + (if specs[|specs| - 1].Instant() then specs[|specs| - 1].amount else 0)
  }

  function OpenedLegs(o: nat, specs: seq<LegSpec>): seq<Leg> {
    seq(|specs|, i requires 0 <= i < |specs| => OpenedLeg(o, specs[i]))
  }

  lemma {:induction false} OpenLegsAppend(s: Shop, o: nat, cart: Cart, specs: seq<LegSpec>)
    requires OpenLegs(s, o, cart, specs).Done?
    ensures OpenLegs(s, o, cart, specs).shop.legs == s.legs + OpenedLegs(o, specs)
  {
    if specs != [] {
      var rest := specs[..|specs| - 1];
      OpenLegsAppend(s, o, cart, rest);
      assert OpenedLegs(o, specs) == OpenedLegs(o, rest) + [OpenedLeg(o, specs[|specs| - 1])];
    }
  }

  lemma {:induction false} OpenedCollects(o: nat, specs: seq<LegSpec>, k: nat)
    ensures LegTally(OpenedLegs(o, specs), k).completed == if k == o then InstantSum(specs) else 0
  {
    if specs != [] {
      var rest := specs[..|specs| - 1];
      OpenedCollects(o, rest, k);
      assert OpenedLegs(o, specs) == OpenedLegs(o, rest) + [OpenedLeg(o, specs[|specs| - 1])];
      SumAppended(OpenedLegs(o, rest), OpenedLeg(o, specs[|specs| - 1]), CompletedCents(k));
    }
  }

  // With one asynchronous leg, that leg is what the instant ones leave over.
  lemma {:induction false} AsyncRest(specs: seq<LegSpec>, i: nat)
    requires i < |specs| && !specs[i].Instant() && AsyncCount(specs) <= 1
    ensures InstantSum(specs) + specs[i].amount == SpecSum(specs)
  {
    var n := |specs| - 1;
    if i < n {
      AsyncSeen(specs[..n], i);
      AsyncRest(specs[..n], i);
    } else {
      AllInstant(specs[..n]);
    }
  }

  lemma {:induction false} AsyncSeen(specs: seq<LegSpec>, i: nat)
    requires i < |specs| && !specs[i].Instant()
    ensures AsyncCount(specs) >= 1
  {
    if i < |specs| - 1 {
      AsyncSeen(specs[..|specs| - 1], i);
    }
  }

  lemma {:induction false} AllInstant(specs: seq<LegSpec>)
    requires AsyncCount(specs) == 0
    ensures InstantSum(specs) == SpecSum(specs)
    ensures forall i :: 0 <= i < |specs| ==> specs[i].Instant()
  {
    if specs != [] {
      AllInstant(specs[..|specs| - 1]);
    }
  }

  lemma {:induction false} InstantCounts(specs: seq<LegSpec>)
    requires forall l :: l in specs ==> l.Instant()
    ensures AsyncCount(specs) == 0
  {
    if specs != [] {
      InstantCounts(specs[..|specs| - 1]);
    }
  }

  // The tender of an accepted cart sums to what is payable.
  lemma AcceptedSum(s: Shop, cart: Cart)
    requires Accepts(s, cart)
    ensures SpecSum(cart.Specs()) == cart.payable && AsyncCount(cart.Specs()) <= 1
  {
  }

  lemma NewLegFits(cart: Cart, o: nat, i: nat)
    requires SpecSum(cart.Specs()) == cart.payable && AsyncCount(cart.Specs()) <= 1
    requires i < |cart.Specs()| && !cart.Specs()[i].Instant()
    ensures Near(InstantSum(cart.Specs()) + OpenedLeg(o, cart.Specs()[i]).amount, cart.payable)
  {
    AsyncRest(cart.Specs(), i);
    RoundingNear(cart.Specs()[i].amount);
  }

  lemma PlacedCollects(s: Shop, cart: Cart, k: nat)
    requires Linked(s) && Placeable(s, cart)
    ensures Collected(Placed(s, cart), k) == if k == |s.orders| then InstantSum(cart.Specs()) else Collected(s, k)
  {
    var o := |s.orders|;
    OpenLegsAppend(Inserted(s, cart), o, cart, cart.Specs());
    OpenedCollects(o, cart.Specs(), k);
    SumConcat(s.legs, OpenedLegs(o, cart.Specs()), CompletedCents(k));
    if k == o {
      LegsUnlinked(s.legs, o);
    }
  }

  lemma PlacedTender(s: Shop, cart: Cart)
    requires TenderOk(s) && Linked(s) && Placeable(s, cart)
    ensures TenderOk(Placed(s, cart))
  {
    var t := Placed(s, cart);
    var o := |s.orders|;
    AcceptedSum(s, cart);
    OpenLegsAppend(Inserted(s, cart), o, cart, cart.Specs());
    PlacedCollects(s, cart, o);
    forall l | l in t.legs
      ensures LegFits(t, l)
    {
      if l in s.legs {
        assert LegFits(s, l);
        PlacedCollects(s, cart, l.order);
      } else {
        var i :| 0 <= i < |cart.Specs()| && OpenedLeg(o, cart.Specs()[i]) == l;
        if !cart.Specs()[i].Instant() {
          NewLegFits(cart, o, i);
        }
      }
    }
    forall k: nat | k < |t.orders|
      ensures OrderCovered(t, k)
    {
      if k < o {
        assert OrderCovered(s, k);
        PlacedCollects(s, cart, k);
      }
    }
  }

  lemma CheckoutTender(s: Shop, cart: Cart, cfg: Config)
    requires TenderOk(s) && Linked(s)
    ensures TenderOk(Checkout(s, cart, cfg).shop)
  {
    if Checkout(s, cart, cfg).shop != s {
      var placed := Placed(s, cart);
      PlacedTender(s, cart);
      if cart.Instant() {
        AcceptedSum(s, cart);
        InstantCounts(cart.Specs());
        AllInstant(cart.Specs());
        PlacedCollects(s, cart, |s.orders|);
        ClosedTender(placed, Settle(placed, |s.orders|, cfg), |s.orders|);
      }
    }
  }

  // ---- runs ----

  predicate TouchesTender(op: Op) {
    op.DoCheckout? || op.DoComplete? || op.DoManual? || op.DoRetry? || op.DoRetryCommit? || op.DoStartPush? || op.DoFail?
    || op.DoBind? || op.DoCallback? || op.DoVoid?
  }

  lemma SameTender(s: Shop, t: Shop)
    requires TenderOk(s) && t.legs == s.legs && t.orders == s.orders
    ensures TenderOk(t)
  {
    forall l | l in t.legs
      ensures LegFits(t, l)
    {
      assert LegFits(s, l);
    }
    forall k: nat | k < |t.orders|
      ensures OrderCovered(t, k)
    {
      assert OrderCovered(s, k);
    }
  }

  lemma OtherStepsKeepTender(s: Shop, op: Op)
    requires !TouchesTender(op)
    ensures Step(s, op).legs == s.legs && Step(s, op).orders == s.orders
  {
  }

  lemma RetryTender(s: Shop, o: nat, phoneOk: bool)
    requires Inv(s) && TenderOk(s) && CleanRetry(s, DoRetry(o, phoneOk))
    ensures TenderOk(Retry(s, o, phoneOk).shop)
  {
    if Retry(s, o, phoneOk).out.Ok? {
      FreshRead(s, o);
      assert OrderOk(s, o);
      RetryCommitTender(s, o, s.orders[o].total, PendingLegs(s.legs, o));
    }
  }

  lemma StepTender(s: Shop, op: Op)
    requires TenderOk(s) && Inv(s) && CleanRetry(s, op)
    ensures TenderOk(Step(s, op))
  {
    match op
    case DoCheckout(cart, cfg) => if cart.payable >= 0 { CheckoutTender(s, cart, cfg); }
    case DoComplete(p, receipt, amount, cfg) => CompleteTender(s, p, receipt, amount, cfg);
    case DoManual(o, code, cfg) => ManualTender(s, o, code, cfg);
    case DoRetry(o, phoneOk) => RetryTender(s, o, phoneOk);
    case DoRetryCommit(o, total, seen) =>
      if ReadEarlier(s, o, total, seen) {
        assert OrderOk(s, o);
        RetryCommitTender(s, o, total, seen);
      }
    case DoStartPush(p) => if p < |s.legs| { FailingTender(s, StartPush(s, p).legs); }
    case DoFail(p) => if p < |s.legs| { FailingTender(s, FailLeg(s, p).legs); }
    case DoBind(p, checkout) =>
      if p < |s.legs| {
        RelabelTender(s, p, Bind(s, p, checkout).legs[p]);
        assert Bind(s, p, checkout).legs == s.legs[p := Bind(s, p, checkout).legs[p]];
      }
    case DoCallback(cb, cfg) => CallbackTender(s, cb, cfg);
    case DoVoid(o, caller) => VoidTender(s, o, caller);
    case _ =>
      OtherStepsKeepTender(s, op);
      SameTender(s, Step(s, op));
  }

  predicate CleanRetries(s: Shop, ops: seq<Op>) {
    forall n :: 0 <= n < |ops| ==> CleanRetry(Run(s, ops[..n]), ops[n])
  }

  lemma {:induction false} RunTender(s: Shop, ops: seq<Op>)
    requires Opening(s) && CleanRetries(s, ops)
    ensures TenderOk(Run(s, ops))
  {
    if ops != [] {
      var n := |ops| - 1;
      var rest := ops[..n];
      forall m | 0 <= m < |rest|
        ensures CleanRetry(Run(s, rest[..m]), rest[m])
      {
        assert rest[..m] == ops[..m];
      }
      RunTender(s, rest);
      OpeningSound(s);
      RunKeeps(s, rest);
      assert CleanRetry(Run(s, ops[..n]), ops[n]);
      StepTender(Run(s, rest), ops[n]);
    }
  }

  // A PAID order without the discrepancy flag has been paid its total, give or
  // take the rounding of one leg.
  lemma PaidOrdersAreCovered(s: Shop, ops: seq<Op>, o: nat)
    requires Opening(s) && CleanRetries(s, ops) && o < |Run(s, ops).orders|
    requires Run(s, ops).orders[o].status.Paid? && !Run(s, ops).orders[o].flagged
    ensures Near(Collected(Run(s, ops), o), Run(s, ops).orders[o].total)
  {
    RunTender(s, ops);
    assert OrderCovered(Run(s, ops), o);
  }

  // What one completion does to its order: a PENDING order is paid, and flagged
  // when the reported amount differs or some tracked line is not covered; an order
  // that is already PAID is flagged as paid twice.
  lemma CompletionOutcome(s: Shop, p: nat, receipt: string, amount: int, cfg: Config)
    requires p < |s.legs| && s.legs[p].order < |s.orders| && !s.legs[p].status.LegCompleted?
    requires var order := s.orders[s.legs[p].order]; !order.status.Voided? && (order.status.Pending? ==> Settleable(s, order, cfg))
    requires !ReceiptTaken(s.legs, receipt, p)
    ensures var r := Complete(s, p, receipt, amount, cfg); var o := s.legs[p].order; var order := s.orders[o];
            && r.out.Ok? && r.shop.legs[p].status.LegCompleted? && r.shop.orders[o].status.Paid?
            && (r.shop.orders[o].flagged <==>
                  order.flagged || order.status.Paid? || amount <= 0 || amount != s.legs[p].amount || Short(s.products, order.lines))
            && Collected(r.shop, o) == Collected(s, o) + s.legs[p].amount
  {
    var r := Complete(s, p, receipt, amount, cfg);
    SumUpdated(s.legs, p, r.shop.legs[p], CompletedCents(s.legs[p].order));
  }

  lemma FreshReceipts(s: Shop, o: nat, total: int, seen: set<nat>, receipt: string)
    requires !ReceiptTaken(s.legs, receipt, |s.legs|)
    ensures !ReceiptTaken(RetryCommit(s, o, total, seen).legs, receipt, |s.legs|)
  {
    var t := RetryCommit(s, o, total, seen);
    forall j | 0 <= j < |t.legs| && j != |s.legs|
      ensures t.legs[j].receipt == s.legs[j].receipt
    {
    }
  }

  // On a PENDING order the commit only sets up the breach: it comes when the fresh leg
  // is paid as asked, and exactly when the condition failed at the commit.
  lemma RetriedPaymentIff(s: Shop, o: nat, seen: set<nat>, receipt: string, cfg: Config)
    requires o < |s.orders| && OrderOk(s, o) && s.orders[o].status.Pending? && s.orders[o].total >= 50 && !s.orders[o].flagged
    requires ReadEarlier(s, o, s.orders[o].total, seen)
    requires Settleable(s, s.orders[o], cfg) && !Short(s.products, s.orders[o].lines)
    requires !ReceiptTaken(s.legs, receipt, |s.legs|)
    ensures var t := RetryCommit(s, o, s.orders[o].total, seen);
            var u := Complete(t, |s.legs|, receipt, RoundToShilling(s.orders[o].total), cfg).shop;
            && u.orders[o].status.Paid? && !u.orders[o].flagged
            && (OrderCovered(u, o) <==> RetryFits(s, o, seen))
  {
    var total := s.orders[o].total;
    var t := RetryCommit(s, o, total, seen);
    SupersededPending(s, o, seen);
    RetryCollects(s, o, total, seen, o);
    FreshReceipts(s, o, total, seen, receipt);
    CompletionOutcome(t, |s.legs|, receipt, RoundToShilling(total), cfg);
  }

  // Paying the retried leg of a part-paid order overshoots by what was collected
  // before, and nothing flags it when the amount matches and stock covers.
  lemma RetryOvercollects(s: Shop, o: nat, receipt: string, cfg: Config)
    requires o < |s.orders| && s.orders[o].status.Pending? && s.orders[o].total >= 50 && !s.orders[o].flagged
    requires Settleable(s, s.orders[o], cfg) && !Short(s.products, s.orders[o].lines)
    requires !ReceiptTaken(s.legs, receipt, |s.legs|)
    ensures var t := Retry(s, o, true).shop;
            var u := Complete(t, |s.legs|, receipt, RoundToShilling(s.orders[o].total), cfg).shop;
            && u.orders[o].status.Paid? && !u.orders[o].flagged
            && Collected(u, o) == Collected(s, o) + RoundToShilling(s.orders[o].total)
  {
    var leg := RetryLeg(o, s.orders[o].total);
    var swept := Supersede(s.legs, PendingLegs(s.legs, o));
    var t := Retry(s, o, true).shop;
    FailingCollects(s, swept, o);
    SumAppended(swept, leg, CompletedCents(o));
    assert Collected(t, o) == Collected(s, o);
    forall j | 0 <= j < |t.legs| && j != |s.legs|
      ensures t.legs[j].receipt == s.legs[j].receipt
    {
    }
    CompletionOutcome(t, |s.legs|, receipt, RoundToShilling(s.orders[o].total), cfg);
  }
}
