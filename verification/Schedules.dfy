// Short runs from an opening database on which the code misses what its comments
// promise: a redeemed gift card, and a retry on a part-paid order.

module Schedules {
  import opened Sums
  import opened Tables
  import opened Tallies
  import opened Orders
  import opened Checkouts
  import opened Runs
  import opened Lifecycle
  import opened TenderLaw
  import opened TillSteps
  import opened Soundness
  import opened VoidLaw
  import opened LegRules
  import opened Retries

  const PLAIN := Config(false, 0)

  lemma TwoSteps(s: Shop, a: Op, b: Op)
    ensures Run(s, [a, b]) == Step(Step(s, a), b)
  {
    RunTwo(s, a, b);
  }

  lemma OneLine(ps: map<int, Product>, l: Line)
    requires l.product in ps
    ensures Deduct(ps, [l]).taken == [Covers(ps, l)]
    ensures Mint(0, [l], ps) == if ps[l.product].gift then seq(l.qty, _ => Card(0, l.price, l.price, CardActive, NO_CUSTOMER)) else []
  {
    assert [l][..0] == [];
    assert Deduct(ps, [l][..0]) == Deduction(ps, []);
    assert Mint(0, [l][..0], ps) == [];
  }

  // ---- a gift card is sold and redeemed ----

  function GiftCart(g: int, v: int): Cart {
    Cart(NO_CUSTOMER, [Line(g, 1, v)], v, 0, Single(Cash, false, false), 0, "")
  }

  // A gift card is value, not shelf stock: it is sold untracked, or from the shelf.
  predicate SellsCards(s: Shop, g: int, v: int) {
    && Opening(s) && g in s.products && s.products[g].gift && v > 0
    && (s.products[g].tracked ==> s.products[g].stock >= 1)
  }

  lemma GiftPlaced(s: Shop, g: int, v: int)
    requires SellsCards(s, g, v)
    ensures var cart := GiftCart(g, v); var t := Inserted(s, cart).(legs := [OpenedLeg(0, LegSpec(Cash, v, false, false))]);
            && Accepts(s, cart) && OpenLegs(Inserted(s, cart), 0, cart, cart.Specs()) == Done(t)
            && !Short(t.products, cart.lines) && Settleable(t, t.orders[0], PLAIN)
  {
    var cart := GiftCart(g, v);
    OneTender(Inserted(s, cart), 0, cart, LegSpec(Cash, v, false, false));
    OneLine(s.products, Line(g, 1, v));
    assert s.legs + [OpenedLeg(0, LegSpec(Cash, v, false, false))] == [OpenedLeg(0, LegSpec(Cash, v, false, false))];
  }

  lemma GiftSold(s: Shop, g: int, v: int)
    requires SellsCards(s, g, v)
    ensures var t := Checkout(s, GiftCart(g, v), PLAIN).shop;
            t.cards == [Card(0, v, v, CardActive, NO_CUSTOMER)] && t.customers == s.customers
  {
    var cart := GiftCart(g, v);
    GiftPlaced(s, g, v);
    OneLine(s.products, Line(g, 1, v));
    assert s.cards + Mint(0, cart.lines, s.products) == [Card(0, v, v, CardActive, NO_CUSTOMER)];
  }

  lemma RedeemedFace(v: int, c: int)
    ensures RedeemedBy([Card(0, v, 0, CardEmpty, c)], c) == v
  {
    SumOne([Card(0, v, 0, CardEmpty, c)], FaceRedeemed(c));
  }

  lemma CardSpent(u: Shop, v: int, c: int)
    requires u.cards == [Card(0, v, v, CardActive, NO_CUSTOMER)] && v > 0 && c in u.customers && u.customers[c].active
    ensures var t := Step(u, DoRedeemCard(0, c)); t.cards == [Card(0, v, 0, CardEmpty, c)] && c in t.customers
  {
  }

  // Sold for cash and redeemed by an active customer: the store-credit column is
  // above the fold of the ledger by the face value.
  lemma GiftCardDrift(s: Shop, g: int, v: int, c: int)
    requires SellsCards(s, g, v) && c in s.customers && s.customers[c].active
    ensures var t := Run(s, [DoCheckout(GiftCart(g, v), PLAIN), DoRedeemCard(0, c)]);
            && c in t.customers && RedeemedBy(t.cards, c) == v
            && t.customers[c].credit == Sum(t.ledger, CreditOf(c)) + v
  {
    var a, b := DoCheckout(GiftCart(g, v), PLAIN), DoRedeemCard(0, c);
    TwoSteps(s, a, b);
    GiftSold(s, g, v);
    CardSpent(Step(s, a), v, c);
    RedeemedFace(v, c);
    ColumnsAreFolds(s, [a, b], c);
  }

  // The smallest shop it happens in.
  lemma GiftCardShop() returns (s: Shop)
    ensures s == Shop(map[1 := Product(0, false, true)], map[1 := Customer(0, 0, 0, true)], [], [], [], [])
    ensures SellsCards(s, 1, 500)
    ensures var t := Run(s, [DoCheckout(GiftCart(1, 500), PLAIN), DoRedeemCard(0, 1)]);
            && 1 in t.customers && t.customers[1].credit == Sum(t.ledger, CreditOf(1)) + 500
  {
    s := Shop(map[1 := Product(0, false, true)], map[1 := Customer(0, 0, 0, true)], [], [], [], []);
    GiftCardDrift(s, 1, 500, 1);
  }

  // ---- a split sale, a retry, both paid ----

  // 400 in cash and 600 awaited by receipt, for one unit of an untracked product.
  function SplitCart(g: int): Cart {
    Cart(NO_CUSTOMER, [Line(g, 1, 1000)], 1000, 0, Split([LegSpec(Cash, 400, true, false), LegSpec(Mpesa, 600, true, false)]), 0, "")
  }

  predicate SellsUntracked(s: Shop, g: int) {
    Opening(s) && g in s.products && s.products[g] == Product(s.products[g].stock, false, false)
  }

  function CashLeg(): Leg {
    Leg(0, Cash, 400, LegCompleted, false, "", "", false)
  }

  function ReceiptLeg(status: LegStatus): Leg {
    Leg(0, Mpesa, 600, status, false, "", "", false)
  }

  lemma SplitPlaced(s: Shop, g: int)
    requires Opening(s) && g in s.products
    ensures var cart := SplitCart(g);
            Checkout(s, cart, PLAIN) == Tx(s.(orders := [NewOrder(cart)], legs := [CashLeg(), ReceiptLeg(LegPending)]), Ok)
  {
    var cart := SplitCart(g);
    var specs := cart.Specs();
    var a, b := specs[0], specs[1];
    assert specs == [a, b] && specs[..1] == [a];
    assert SpecSum([]) == 0 && AsyncCount([]) == 0 && [a][..0] == [];
    assert SpecSum(specs[..1]) == 400 && AsyncCount(specs[..1]) == 0;
    assert SpecSum(specs) == 1000 && AsyncCount(specs) == 1;
    var s0 := Inserted(s, cart);
    OneTender(s0, 0, cart, a);
    assert s.orders + [NewOrder(cart)] == [NewOrder(cart)];
    assert s.legs + [CashLeg()] == [CashLeg()];
    assert [CashLeg()] + [ReceiptLeg(LegPending)] == [CashLeg(), ReceiptLeg(LegPending)];
    assert b in specs && !b.Instant();
  }

  // The sale after checkout: PENDING, 400 of 1000 collected.
  function PartPaid(s: Shop, g: int): Shop {
    s.(orders := [NewOrder(SplitCart(g))], legs := [CashLeg(), ReceiptLeg(LegPending)])
  }

  lemma PartPaidCollects(s: Shop, g: int)
    ensures Collected(PartPaid(s, g), 0) == 400
  {
    var legs := [CashLeg(), ReceiptLeg(LegPending)];
    assert legs == [CashLeg()] + [ReceiptLeg(LegPending)];
    SumAppended([CashLeg()], ReceiptLeg(LegPending), CompletedCents(0));
    SumOne([CashLeg()], CompletedCents(0));
  }

  lemma PartPaidSettles(s: Shop, g: int)
    requires SellsUntracked(s, g)
    ensures var t := PartPaid(s, g); Settleable(t, t.orders[0], PLAIN) && !Short(t.products, t.orders[0].lines)
  {
    OneLine(s.products, Line(g, 1, 1000));
  }

  predicate HalfPaid(u: Shop) {
    && 0 < |u.orders| && u.orders[0].status.Pending? && !u.orders[0].flagged && u.orders[0].total == 1000
    && Settleable(u, u.orders[0], PLAIN) && !Short(u.products, u.orders[0].lines)
    && |u.legs| == 2 && Collected(u, 0) == 400
  }

  lemma TotalStays(u: Shop, a: Op, b: Op, o: nat)
    requires o < |u.orders|
    ensures var t := Step(Step(u, a), b); o < |t.orders| && t.orders[o].total == u.orders[o].total
  {
    StepGrows(u, a);
    StepGrows(Step(u, a), b);
  }

  // Retry and completion as functions, so that no other transaction is looked at.
  function RetriedAndPaid(u: Shop): Shop {
    Complete(Retry(u, 0, true).shop, 2, "", 1000, PLAIN).shop
  }

  lemma RetrySteps(u: Shop)
    ensures Step(Step(u, DoRetry(0, true)), DoComplete(2, "", 1000, PLAIN)) == RetriedAndPaid(u)
  {
  }

  lemma PaidTwice(u: Shop)
    requires HalfPaid(u)
    ensures var t := RetriedAndPaid(u);
            0 < |t.orders| && t.orders[0].status.Paid? && !t.orders[0].flagged && Collected(t, 0) == 1400
  {
    assert RoundToShilling(1000) == 1000;
    RetryOvercollects(u, 0, "", PLAIN);
  }

  lemma PartPaidNotClean(s: Shop, g: int)
    ensures !CleanRetry(PartPaid(s, g), DoRetry(0, true))
  {
    PartPaidCollects(s, g);
    assert Retry(PartPaid(s, g), 0, true).out.Ok?;
  }

  lemma ThreeSteps(s: Shop, a: Op, b: Op, d: Op)
    ensures Run(s, [a, b, d][..1]) == Step(s, a) && Run(s, [a, b, d]) == Step(Step(Step(s, a), b), d)
  {
    assert [a, b, d] == [a, b] + [d] && [a, b, d][..1] == [] + [a];
    RunOneMore(s, [a, b], d);
    RunOneMore(s, [], a);
    TwoSteps(s, a, b);
  }

  // The retry asks for the whole 1000 again; paying it makes the sale PAID and
  // unflagged with 1400 collected.
  lemma PartPaidRetry(s: Shop, g: int)
    requires SellsUntracked(s, g)
    ensures var ops := [DoCheckout(SplitCart(g), PLAIN), DoRetry(0, true), DoComplete(2, "", 1000, PLAIN)];
            var t := Run(s, ops);
            && 0 < |t.orders| && t.orders[0].status.Paid? && !t.orders[0].flagged && t.orders[0].total == 1000
            && Collected(t, 0) == 1400 && !CleanRetry(Run(s, ops[..1]), ops[1])
  {
    ThreeSteps(s, DoCheckout(SplitCart(g), PLAIN), DoRetry(0, true), DoComplete(2, "", 1000, PLAIN));
    SplitPlaced(s, g);
    PartPaidCollects(s, g);
    PartPaidSettles(s, g);
    PaidTwice(PartPaid(s, g));
    RetrySteps(PartPaid(s, g));
    TotalStays(PartPaid(s, g), DoRetry(0, true), DoComplete(2, "", 1000, PLAIN), 0);
    PartPaidNotClean(s, g);
  }

  lemma PartPaidShop() returns (s: Shop)
    ensures s == Shop(map[1 := Product(0, false, false)], map[], [], [], [], []) && SellsUntracked(s, 1)
    ensures var t := Run(s, [DoCheckout(SplitCart(1), PLAIN), DoRetry(0, true), DoComplete(2, "", 1000, PLAIN)]);
            && 0 < |t.orders| && t.orders[0].status.Paid? && !t.orders[0].flagged && Collected(t, 0) == 1400
  {
    s := Shop(map[1 := Product(0, false, false)], map[], [], [], [], []);
    PartPaidRetry(s, 1);
  }

  // ---- a split sale that the shelf does not cover, paid and voided ----

  lemma OneRestored(ps: map<int, Product>, l: Line)
    requires l.product in ps
    ensures Restore(ps, [l]) == ps[l.product := ps[l.product].(stock := ps[l.product].stock + l.qty)]
  {
    assert [l][..0] == [];
    assert Restore(ps, [l][..0]) == ps;
  }

  predicate Uncovered(s: Shop, g: int) {
    Opening(s) && g in s.products && !Covers(s.products, Line(g, 1, 1000))
  }

  lemma UncoveredPaid(s: Shop, g: int)
    requires Uncovered(s, g)
    ensures var u := PartPaid(s, g); var t := Complete(u, 1, "", 600, PLAIN).shop;
            && t.products == s.products && 0 < |t.orders| && t.orders[0].status.Paid?
            && t.orders[0].lines == [Line(g, 1, 1000)]
  {
    var l := Line(g, 1, 1000);
    assert [l][..0] == [];
    assert Deduct(s.products, [l][..0]) == Deduction(s.products, []);
  }

  lemma PaidVoid(u: Shop, l: Line)
    requires Inv(u) && 0 < |u.orders| && u.orders[0].status.Paid? && u.orders[0].lines == [l] && l.product in u.products
    ensures var t := Step(u, DoVoid(0, Caller(0, true)));
            && 0 < |t.orders| && t.orders[0].status.Voided?
            && t.products == u.products[l.product := u.products[l.product].(stock := u.products[l.product].stock + l.qty)]
  {
    VoidSucceeds(u, 0, Caller(0, true));
    OneRestored(u.products, l);
  }

  // Nothing left the shelf, by tracking or for want of stock, and the void puts a unit
  // on it that was never there.
  lemma VoidOverfills(s: Shop, g: int)
    requires Uncovered(s, g)
    ensures var t := Run(s, [DoCheckout(SplitCart(g), PLAIN), DoComplete(1, "", 600, PLAIN), DoVoid(0, Caller(0, true))]);
            && 0 < |t.orders| && t.orders[0].status.Voided? && g in t.products
            && t.products[g].stock == s.products[g].stock + 1
  {
    var a, b, d := DoCheckout(SplitCart(g), PLAIN), DoComplete(1, "", 600, PLAIN), DoVoid(0, Caller(0, true));
    ThreeSteps(s, a, b, d);
    SplitPlaced(s, g);
    UncoveredPaid(s, g);
    OpeningSound(s);
    StepKeeps(s, a);
    StepKeeps(Step(s, a), b);
    PaidVoid(Step(Step(s, a), b), Line(g, 1, 1000));
  }

  // A tracked product that is out of stock ends with one unit on the shelf.
  lemma OverfilledShop() returns (s: Shop)
    ensures s == Shop(map[1 := Product(0, true, false)], map[], [], [], [], []) && Uncovered(s, 1)
    ensures var t := Run(s, [DoCheckout(SplitCart(1), PLAIN), DoComplete(1, "", 600, PLAIN), DoVoid(0, Caller(0, true))]);
            1 in t.products && t.products[1].stock == 1
  {
    s := Shop(map[1 := Product(0, true, false)], map[], [], [], [], []);
    VoidOverfills(s, 1);
  }

  // ---- two retries that read the same order ----

  lemma ReceiptAwaited(s: Shop, g: int)
    ensures PendingLegs(PartPaid(s, g).legs, 0) == {1}
  {
  }

  lemma SecondRetry(u: Shop)
    requires Inv(u) && |u.legs| == 2 && 0 < |u.orders| && u.orders[0].status.Pending? && u.orders[0].total == 1000
    requires PendingLegs(u.legs, 0) == {1}
    ensures var retry := DoRetryCommit(0, 1000, {1}); var t := Step(Step(u, retry), retry);
            {2, 3} <= PendingLegs(t.legs, 0) && !Neat(t)
  {
    var retry := DoRetryCommit(0, 1000, {1});
    RetryBeatsRetry(u, 0);
    LateRetryIsRun(u, [retry], 0);
    assert [retry] + [retry] == [retry, retry];
    TwoSteps(u, retry, retry);
  }

  // Both commit, and the order waits for two full payments.
  lemma TwoRetries(s: Shop, g: int)
    requires Opening(s) && g in s.products
    ensures var retry := DoRetryCommit(0, 1000, {1});
            var t := Run(s, [DoCheckout(SplitCart(g), PLAIN), retry, retry]);
            {2, 3} <= PendingLegs(t.legs, 0) && !Neat(t)
  {
    var a, retry := DoCheckout(SplitCart(g), PLAIN), DoRetryCommit(0, 1000, {1});
    ThreeSteps(s, a, retry, retry);
    SplitPlaced(s, g);
    ReceiptAwaited(s, g);
    OpeningSound(s);
    StepKeeps(s, a);
    SecondRetry(PartPaid(s, g));
  }
}
