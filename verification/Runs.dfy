// Every interleaving of the transactions, and what holds in every database it reaches.

module Runs {
  import opened Sums
  import opened Tables
  import opened Tallies
  import opened Orders
  import opened Soundness
  import opened Transitions
  import opened Checkouts

  // One committed transaction. DoComplete stands for any trusted completion: a
  // provider recheck, the sweeper, or the cash settlement of a tab. DoRetryCommit is
  // the transaction of a phone retry whose read happened at any earlier time.
  datatype Op =
    | DoCheckout(cart: Cart, cfg: Config)
    | DoComplete(p: nat, receipt: string, amount: int, cfg: Config)
    | DoManual(o: nat, code: string, cfg: Config)
    | DoRetry(o: nat, phoneOk: bool)
    | DoRetryCommit(o: nat, total: int, seen: set<nat>)
    | DoStartPush(p: nat)
    | DoFail(p: nat)
    | DoBind(p: nat, checkout: string)
    | DoCallback(cb: Callback, cfg: Config)
    | DoVoid(o: nat, caller: Caller)
    | DoPostSettlement(o: nat)
    | DoPay(c: int, amount: int)
    | DoAdjust(c: int, amount: int, noted: bool)
    | DoTopUp(c: int, amount: int)
    | DoRedeemCard(k: nat, c: int)
    | DoNewCustomer(c: int)
    | DoSetActive(c: int, active: bool)

  // The amount due of a cart is not negative; Billing says when a bill meets that.
  function Step(s: Shop, op: Op): Shop {
    match op
    case DoCheckout(cart, cfg) => if cart.payable >= 0 then Checkout(s, cart, cfg).shop else s
    case DoComplete(p, receipt, amount, cfg) => Complete(s, p, receipt, amount, cfg).shop
    case DoManual(o, code, cfg) => ManualConfirm(s, o, code, cfg).shop
    case DoRetry(o, phoneOk) => Retry(s, o, phoneOk).shop
    case DoRetryCommit(o, total, seen) => if ReadEarlier(s, o, total, seen) then RetryCommit(s, o, total, seen) else s
    case DoStartPush(p) => if p < |s.legs| then StartPush(s, p) else s
    case DoFail(p) => if p < |s.legs| then FailLeg(s, p) else s
    case DoBind(p, checkout) => if p < |s.legs| then Bind(s, p, checkout) else s
    case DoCallback(cb, cfg) => HandleCallback(s, cb, cfg).shop
    case DoVoid(o, caller) => Void(s, o, caller).shop
    case DoPostSettlement(o) =>
      if o < |s.orders| && s.orders[o].customer in s.customers then PostSettlement(s, o) else s
    case DoPay(c, amount) => CustomerPayment(s, c, amount).shop
    case DoAdjust(c, amount, noted) => CustomerAdjustment(s, c, amount, noted).shop
    case DoTopUp(c, amount) => TopUp(s, c, amount).shop
    case DoRedeemCard(k, c) => RedeemCard(s, k, c).shop
    case DoNewCustomer(c) => NewCustomer(s, c)
    case DoSetActive(c, active) => SetActive(s, c, active)
  }

  function Run(s: Shop, ops: seq<Op>): Shop {
    if ops == [] then s else Step(Run(s, ops[..|ops| - 1]), ops[|ops| - 1])
  }

  // A database before the first sale: products in stock, no customer owes anything.
  predicate Opening(s: Shop) {
    && s.orders == [] && s.legs == [] && s.ledger == [] && s.cards == []
    && NO_CUSTOMER !in s.customers
    && (forall p :: p in s.products ==> s.products[p].stock >= 0)
    && (forall c :: c in s.customers ==> s.customers[c].balance == 0 && s.customers[c].points == 0 && s.customers[c].credit == 0)
  }

  lemma NewCustomerKeeps(s: Shop, c: int)
    requires Inv(s)
    ensures Inv(NewCustomer(s, c))
  {
    var t := NewCustomer(s, c);
    if t != s {
      forall d | d in t.customers
        ensures ColumnsOk(t, d)
      {
        if d == c {
          SumZero(s.ledger, BalanceOf(c));
          SumZero(s.ledger, PointsOf(c));
          SumZero(s.ledger, CreditOf(c));
          forall i | 0 <= i < |s.cards|
            ensures FaceRedeemed(c)(s.cards[i]) == 0
          {
            assert CardLinked(s, s.cards[i]);
          }
          SumZero(s.cards, FaceRedeemed(c));
        } else {
          assert ColumnsOk(s, d);
        }
      }
      forall k: nat | k < |t.orders|
        ensures OrderOk(t, k)
      {
        UntouchedOk(s, t, k);
      }
    }
  }

  lemma SetActiveKeeps(s: Shop, c: int, active: bool)
    requires Inv(s)
    ensures Inv(SetActive(s, c, active))
  {
    var t := SetActive(s, c, active);
    forall d | d in t.customers
      ensures ColumnsOk(t, d)
    {
      assert ColumnsOk(s, d);
    }
    forall k: nat | k < |t.orders|
      ensures OrderOk(t, k)
    {
      UntouchedOk(s, t, k);
    }
  }

  predicate OnCustomer(op: Op) {
    op.DoPay? || op.DoAdjust? || op.DoTopUp? || op.DoRedeemCard? || op.DoNewCustomer? || op.DoSetActive?
  }

  lemma CustomerStepKeeps(s: Shop, op: Op)
    requires Inv(s) && OnCustomer(op)
    ensures Inv(Step(s, op))
  {
    match op
    case DoPay(c, amount) => CustomerPaymentKeeps(s, c, amount);
    case DoAdjust(c, amount, noted) => CustomerAdjustmentKeeps(s, c, amount, noted);
    case DoTopUp(c, amount) => TopUpKeeps(s, c, amount);
    case DoRedeemCard(k, c) => RedeemCardKeeps(s, k, c);
    case DoNewCustomer(c) => NewCustomerKeeps(s, c);
    case DoSetActive(c, active) => SetActiveKeeps(s, c, active);
  }

  lemma StepKeeps(s: Shop, op: Op)
    requires Inv(s)
    ensures Inv(Step(s, op))
  {
    match op
    case DoCheckout(cart, cfg) => if cart.payable >= 0 { CheckoutKeeps(s, cart, cfg); }
    case DoComplete(p, receipt, amount, cfg) => CompleteKeeps(s, p, receipt, amount, cfg);
    case DoManual(o, code, cfg) => ManualConfirmKeeps(s, o, code, cfg);
    case DoRetry(o, phoneOk) => RetryKeeps(s, o, phoneOk);
    case DoRetryCommit(o, total, seen) => if ReadEarlier(s, o, total, seen) { RetryCommitKeeps(s, o, total, seen); }
    case DoStartPush(p) => if p < |s.legs| { StartPushKeeps(s, p); }
    case DoFail(p) => if p < |s.legs| { FailLegKeeps(s, p); }
    case DoBind(p, checkout) => if p < |s.legs| { BindKeeps(s, p, checkout); }
    case DoCallback(cb, cfg) => HandleCallbackKeeps(s, cb, cfg);
    case DoVoid(o, caller) => VoidKeeps(s, o, caller);
    case DoPostSettlement(o) =>
      if o < |s.orders| && s.orders[o].customer in s.customers { PostSettlementKeeps(s, o); }
    case _ => CustomerStepKeeps(s, op);
  }

  lemma OpeningSound(s: Shop)
    requires Opening(s)
    ensures Inv(s)
  {
  }

  lemma {:induction false} RunKeeps(s: Shop, ops: seq<Op>)
    requires Inv(s)
    ensures Inv(Run(s, ops))
  {
    if ops != [] {
      RunKeeps(s, ops[..|ops| - 1]);
      StepKeeps(Run(s, ops[..|ops| - 1]), ops[|ops| - 1]);
    }
  }

  // ---- main results over every run ----

  // Cached columns against the ledger; nothing guarded is negative.
  lemma ColumnsAreFolds(s: Shop, ops: seq<Op>, c: int)
    requires Opening(s) && c in Run(s, ops).customers
    ensures var t := Run(s, ops); var k := t.customers[c];
            && k.balance == Sum(t.ledger, BalanceOf(c))
            && k.points == Sum(t.ledger, PointsOf(c))
            && k.credit - Sum(t.ledger, CreditOf(c)) == RedeemedBy(t.cards, c)
            && k.credit >= 0
            && (k.credit == Sum(t.ledger, CreditOf(c)) <==> RedeemedBy(t.cards, c) == 0)
  {
    OpeningSound(s);
    RunKeeps(s, ops);
    assert ColumnsOk(Run(s, ops), c);
  }

  lemma StockNeverNegative(s: Shop, ops: seq<Op>, p: int)
    requires Opening(s) && p in Run(s, ops).products
    ensures Run(s, ops).products[p].stock >= 0
  {
    OpeningSound(s);
    RunKeeps(s, ops);
  }
}
