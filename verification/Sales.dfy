// A checkout from the outside: which carts go through, and what the new sale writes.

module Sales {
  import opened Tables
  import opened Orders
  import opened Soundness
  import opened Checkouts
  import opened Completions

  // ---- the tender ----

  predicate PaidAtTill(spec: LegSpec) {
    spec.rail == Cash || spec.rail == Credit
  }

  // The payment row of one part of the tender. A phone prompt asks for whole shillings.
  predicate RowFor(leg: Leg, o: nat, spec: LegSpec) {
    && leg.order == o && leg.rail == spec.rail && leg.receipt == "" && leg.checkout == "" && !leg.flagged
    && leg.hasPhone == (spec.rail == Mpesa && !spec.manual)
    && leg.amount == (if leg.hasPhone then RoundToShilling(spec.amount) else spec.amount)
    && leg.status == (if PaidAtTill(spec) then LegCompleted else LegPending)
  }

  // Store credit is spent, and a tab is charged.
  function Entries(o: nat, customer: int, specs: seq<LegSpec>): seq<Row> {
    if specs == [] then []
    else
      var spec := specs[|specs| - 1];
      Entries(o, customer, specs[..|specs| - 1])
      + (if spec.rail == Credit then [Row(customer, o, CreditRedeem, -spec.amount, 0, Plain)]
         else if spec.rail == Account then [Row(customer, o, Charge, spec.amount, 0, Plain)]
         else [])
  }

  // Customer c's columns after the tender.
  function Charged(k: Customer, specs: seq<LegSpec>): Customer {
    k.(credit := k.credit - CreditCentsOf(specs), balance := k.balance + TabCents(specs))
  }

  predicate OnLedger(specs: seq<LegSpec>) {
    exists l :: l in specs && (l.rail == Credit || l.rail == Account)
  }

  // t is s with the payment rows of the tender and what they move.
  predicate Tendered(s: Shop, t: Shop, o: nat, cart: Cart, specs: seq<LegSpec>) {
    && t == s.(legs := t.legs, ledger := s.ledger + Entries(o, cart.customer, specs), customers := t.customers)
    && |t.legs| == |s.legs| + |specs| && s.legs <= t.legs
    && (forall i :: 0 <= i < |specs| ==> RowFor(t.legs[|s.legs| + i], o, specs[i]))
    && (OnLedger(specs) ==> cart.customer in s.customers)
    && t.customers == (if cart.customer in s.customers then s.customers[cart.customer := Charged(s.customers[cart.customer], specs)]
                       else s.customers)
  }

  // Nothing in the tender is refused: credit covers what is asked of it, a tab is backed
  // by stock, and a prompt has a phone number.
  predicate TenderOpen(s: Shop, cart: Cart, specs: seq<LegSpec>) {
    && (forall l :: l in specs && l.rail == Mpesa ==> l.manual || l.phoneOk)
    && (forall l :: l in specs && l.rail == Credit ==>
          cart.customer in s.customers && CreditCentsOf(specs) <= s.customers[cart.customer].credit)
    && (forall l :: l in specs && l.rail == Account ==> cart.customer in s.customers && !Oversold(s.products, cart.lines))
  }

  // Several parts are all positive.
  predicate Parts(specs: seq<LegSpec>) {
    |specs| <= 1 || forall l :: l in specs ==> l.amount > 0
  }

  lemma SplitTender(specs: seq<LegSpec>)
    requires specs != []
    ensures var n := |specs| - 1;
            forall l :: l in specs <==> l in specs[..n] || l == specs[n]
  {
    assert specs == specs[..|specs| - 1] + [specs[|specs| - 1]];
  }

  lemma PartsBefore(specs: seq<LegSpec>)
    requires specs != [] && Parts(specs)
    ensures Parts(specs[..|specs| - 1])
    ensures |specs| > 1 ==> CreditCentsOf(specs[..|specs| - 1]) <= CreditCentsOf(specs)
  {
    SplitTender(specs);
  }

  lemma OversoldIs(ps: map<int, Product>, lines: seq<Line>)
    ensures Covered(ps, lines) <==> !Oversold(ps, lines)
  {
  }

  // The last part is allowed in the state the others lead to exactly when the whole is.
  lemma LastPart(s: Shop, m: Shop, o: nat, cart: Cart, specs: seq<LegSpec>)
    requires specs != [] && Parts(specs) && TenderOpen(s, cart, specs[..|specs| - 1])
    requires Tendered(s, m, o, cart, specs[..|specs| - 1])
    ensures LegAllowed(m, cart, specs[|specs| - 1]) <==> TenderOpen(s, cart, specs)
  {
    var n := |specs| - 1;
    var rest, last := specs[..n], specs[n];
    SplitTender(specs);
    OversoldIs(s.products, cart.lines);
    if last.rail != Credit {
      assert CreditCentsOf(specs) == CreditCentsOf(rest);
    }
    if last.rail == Credit && cart.customer in s.customers {
      assert m.customers[cart.customer].credit == s.customers[cart.customer].credit - CreditCentsOf(rest);
    }
  }

  lemma WholeOpens(s: Shop, cart: Cart, specs: seq<LegSpec>)
    requires specs != [] && Parts(specs) && TenderOpen(s, cart, specs)
    ensures TenderOpen(s, cart, specs[..|specs| - 1])
  {
    SplitTender(specs);
    PartsBefore(specs);
  }

  lemma PartWrites(s: Shop, m: Shop, o: nat, cart: Cart, specs: seq<LegSpec>)
    requires specs != [] && Tendered(s, m, o, cart, specs[..|specs| - 1]) && LegAllowed(m, cart, specs[|specs| - 1])
    ensures Tendered(s, OpenLeg(m, o, cart, specs[|specs| - 1]).shop, o, cart, specs)
  {
    var n := |specs| - 1;
    var last := specs[n];
    var t := OpenLeg(m, o, cart, last).shop;
    assert specs == specs[..n] + [last];
    assert t.legs == m.legs + [OpenedLeg(o, last)];
    assert RowFor(OpenedLeg(o, last), o, last);
    assert t.ledger == s.ledger + Entries(o, cart.customer, specs);
  }

  // The tender is taken exactly when nothing in it is refused.
  lemma {:induction false} TenderIff(s: Shop, o: nat, cart: Cart, specs: seq<LegSpec>)
    requires Parts(specs)
    ensures var a := OpenLegs(s, o, cart, specs);
            (a.Done? <==> TenderOpen(s, cart, specs)) && (a.Done? ==> Tendered(s, a.shop, o, cart, specs))
  {
    if specs == [] {
      assert CreditCentsOf(specs) == 0 && TabCents(specs) == 0;
    } else {
      var rest := specs[..|specs| - 1];
      PartsBefore(specs);
      TenderIff(s, o, cart, rest);
      if TenderOpen(s, cart, specs) {
        WholeOpens(s, cart, specs);
      }
      if OpenLegs(s, o, cart, rest).Done? {
        LastPart(s, OpenLegs(s, o, cart, rest).shop, o, cart, specs);
        if LegAllowed(OpenLegs(s, o, cart, rest).shop, cart, specs[|specs| - 1]) {
          PartWrites(s, OpenLegs(s, o, cart, rest).shop, o, cart, specs);
        }
      }
    }
  }

  // ---- the cart ----

  predicate AllAtTill(specs: seq<LegSpec>) {
    forall l :: l in specs ==> PaidAtTill(l)
  }

  function Waiting(specs: seq<LegSpec>): nat {
    if specs == [] then 0 else Waiting(specs[..|specs| - 1]) + if PaidAtTill(specs[|specs| - 1]) then 0 else 1
  }

  function Parcel(specs: seq<LegSpec>): int {
    if specs == [] then 0 else Parcel(specs[..|specs| - 1]) + specs[|specs| - 1].amount
  }

  lemma {:induction false} ParcelIs(specs: seq<LegSpec>)
    ensures Parcel(specs) == SpecSum(specs) && Waiting(specs) == AsyncCount(specs)
  {
    if specs != [] {
      ParcelIs(specs[..|specs| - 1]);
    }
  }

  predicate OnFile(s: Shop, c: int) {
    c in s.customers && s.customers[c].active
  }

  // A split adds up to the amount due, in positive parts, with no tab and one wait at most.
  predicate SplitAddsUp(parts: seq<LegSpec>, payable: int) {
    && parts != [] && Parcel(parts) == payable && Waiting(parts) <= 1
    && forall l :: l in parts ==> l.amount > 0 && l.rail != Account
  }

  predicate NeedsCustomer(cart: Cart) {
    cart.redeem > 0 || exists l :: l in cart.Specs() && (l.rail == Credit || l.rail == Account)
  }

  // The order row of a cart.
  function Opened(cart: Cart): Order {
    Order(Pending, cart.payable, cart.customer, cart.redeem, cart.lines, cart.cashier, cart.uuid, false, Unpaid)
  }

  // The cart goes through.
  predicate Sellworthy(s: Shop, cart: Cart, cfg: Config) {
    && (cart.tender.Split? ==> SplitAddsUp(cart.tender.legs, cart.payable))
    && (NeedsCustomer(cart) ==> OnFile(s, cart.customer))
    && TenderOpen(s, cart, cart.Specs())
    && (cart.redeem > 0 ==> cart.redeem <= s.customers[cart.customer].points)
    && (AllAtTill(cart.Specs()) ==>
          !Oversold(s.products, cart.lines) && (Earns(Opened(cart), cfg) ==> cart.customer in s.customers))
  }

  predicate Submitted(s: Shop, cart: Cart) {
    cart.uuid != "" && exists order :: order in s.orders && order.uuid == cart.uuid
  }

  lemma SubmittedIs(s: Shop, cart: Cart)
    ensures Submitted(s, cart) <==> Replayed(s, cart)
  {
    if Replayed(s, cart) {
      var o :| 0 <= o < |s.orders| && s.orders[o].uuid == cart.uuid;
      assert s.orders[o] in s.orders;
    }
  }

  lemma AcceptsIff(s: Shop, cart: Cart)
    requires cart.redeem >= 0 && GoodLines(s.products, cart.lines)
    ensures Accepts(s, cart)
            <==> (cart.tender.Split? ==> SplitAddsUp(cart.tender.legs, cart.payable)) && (NeedsCustomer(cart) ==> OnFile(s, cart.customer))
  {
    match cart.tender
    case Single(m, manual, phoneOk) =>
      assert cart.Specs()[0] == LegSpec(m, cart.payable, manual, phoneOk);
      assert cart.Specs()[0] in cart.Specs();
    case Split(legs) => ParcelIs(legs);
  }

  // The database with the order row, its payments and its spent points.
  predicate RungUp(s: Shop, t: Shop, cart: Cart) {
    var u := s.(orders := s.orders + [Opened(cart)]);
    if cart.redeem == 0 then Tendered(u, t, |s.orders|, cart, cart.Specs())
    else
      && cart.customer in t.customers && |t.ledger| > 0
      && t.ledger[|t.ledger| - 1] == Row(cart.customer, |s.orders|, Loyalty, 0, -cart.redeem, Plain)
      && var k := t.customers[cart.customer];
         Tendered(u, t.(ledger := t.ledger[..|t.ledger| - 1],
                        customers := t.customers[cart.customer := k.(points := k.points + cart.redeem)]),
                  |s.orders|, cart, cart.Specs())
  }

  // What a checkout leaves behind: the sale rung up and PENDING, or, when all of it was
  // paid at the till, PAID with everything that goes with it and no flag.
  ghost predicate Sold(s: Shop, t: Shop, cart: Cart, cfg: Config) {
    exists u :: RungUp(s, u, cart)
                && if AllAtTill(cart.Specs()) then SaleDone(u, t, |s.orders|, cfg) && t.legs == u.legs && !t.orders[|s.orders|].flagged
                   else t == u
  }

  lemma CartParts(s: Shop, cart: Cart)
    requires Accepts(s, cart)
    ensures Parts(cart.Specs())
  {
  }

  // The finish: points and, for an instant sale, stock and the loyalty row.
  lemma FinishIff(s: Shop, m: Shop, cart: Cart, cfg: Config)
    requires cart.redeem >= 0 && GoodLines(s.products, cart.lines)
    requires Tendered(s.(orders := s.orders + [Opened(cart)]), m, |s.orders|, cart, cart.Specs())
    requires cart.redeem > 0 ==> cart.customer in s.customers
    ensures FinishCheckout(m, |s.orders|, cart, cfg).Done?
            <==> (cart.redeem > 0 ==> cart.redeem <= s.customers[cart.customer].points)
                 && (AllAtTill(cart.Specs()) ==>
                       !Oversold(s.products, cart.lines) && (Earns(Opened(cart), cfg) ==> cart.customer in s.customers))
  {
    ShortIffOversold(s.products, cart.lines);
    SellableSettles(m, Opened(cart), cfg);
    assert cart.Instant() <==> AllAtTill(cart.Specs());
  }

  predicate MerchantCart(s: Shop, cart: Cart) {
    cart.redeem >= 0 && GoodLines(s.products, cart.lines)
  }

  lemma OpenAlike(s: Shop, cart: Cart, specs: seq<LegSpec>, orders: seq<Order>)
    ensures TenderOpen(s.(orders := orders), cart, specs) <==> TenderOpen(s, cart, specs)
  {
  }

  // What is asked of points, stock and the customer once the tender is open.
  predicate Finishes(s: Shop, cart: Cart, cfg: Config)
    requires cart.redeem > 0 ==> cart.customer in s.customers
  {
    && (cart.redeem > 0 ==> cart.redeem <= s.customers[cart.customer].points)
    && (AllAtTill(cart.Specs()) ==>
          !Oversold(s.products, cart.lines) && (Earns(Opened(cart), cfg) ==> cart.customer in s.customers))
  }

  lemma AttemptIff(s: Shop, cart: Cart, cfg: Config)
    requires MerchantCart(s, cart) && Accepts(s, cart)
    ensures CheckoutAttempt(s, cart, cfg).Done? <==> TenderOpen(s, cart, cart.Specs()) && Finishes(s, cart, cfg)
  {
    var o := |s.orders|;
    var u := s.(orders := s.orders + [Opened(cart)]);
    CartParts(s, cart);
    TenderIff(u, o, cart, cart.Specs());
    OpenAlike(s, cart, cart.Specs(), u.orders);
    if OpenLegs(u, o, cart, cart.Specs()).Done? {
      FinishIff(s, OpenLegs(u, o, cart, cart.Specs()).shop, cart, cfg);
    }
  }

  lemma NotAccepted(s: Shop, cart: Cart, cfg: Config)
    requires !Accepts(s, cart)
    ensures CheckoutAttempt(s, cart, cfg).RolledBack?
  {
  }

  // A cart with a uuid that was sold before answers success and changes nothing. Any
  // other goes through exactly when it is sellworthy, and changes nothing otherwise.
  lemma CheckoutIff(s: Shop, cart: Cart, cfg: Config)
    requires MerchantCart(s, cart)
    ensures var tx := Checkout(s, cart, cfg);
            && (tx.out == Ok <==> Submitted(s, cart) || Sellworthy(s, cart, cfg))
            && (Submitted(s, cart) || tx.out != Ok ==> tx.shop == s)
  {
    SubmittedIs(s, cart);
    AcceptsIff(s, cart);
    if Accepts(s, cart) {
      AttemptIff(s, cart, cfg);
    } else {
      NotAccepted(s, cart, cfg);
    }
    AttemptAnswers(s, cart, cfg);
  }

  lemma AttemptAnswers(s: Shop, cart: Cart, cfg: Config)
    ensures var tx := Checkout(s, cart, cfg);
            && (tx.out == Ok <==> Replayed(s, cart) || CheckoutAttempt(s, cart, cfg).Done?)
            && (Replayed(s, cart) || tx.out != Ok ==> tx.shop == s)
  {
  }

  lemma RingsUp(s: Shop, m: Shop, cart: Cart)
    requires cart.redeem >= 0 && (cart.redeem > 0 ==> cart.customer in m.customers)
    requires Tendered(s.(orders := s.orders + [Opened(cart)]), m, |s.orders|, cart, cart.Specs())
    ensures RungUp(s, PostIf(m, cart.redeem > 0, RedeemRow(cart, |s.orders|)), cart)
  {
    var t := PostIf(m, cart.redeem > 0, RedeemRow(cart, |s.orders|));
    if cart.redeem > 0 {
      var k := t.customers[cart.customer];
      assert t.ledger[..|t.ledger| - 1] == m.ledger;
      assert t.customers[cart.customer := k.(points := k.points + cart.redeem)] == m.customers;
    }
  }

  // What a sale that goes through writes, table by table.
  lemma CheckoutSells(s: Shop, cart: Cart, cfg: Config)
    requires MerchantCart(s, cart) && !Submitted(s, cart) && Checkout(s, cart, cfg).out == Ok
    ensures Sold(s, Checkout(s, cart, cfg).shop, cart, cfg)
  {
    var o := |s.orders|;
    var u := s.(orders := s.orders + [Opened(cart)]);
    SubmittedIs(s, cart);
    CartParts(s, cart);
    TenderIff(u, o, cart, cart.Specs());
    var m := OpenLegs(u, o, cart, cart.Specs()).shop;
    FinishIff(s, m, cart, cfg);
    var placed := PostIf(m, cart.redeem > 0, RedeemRow(cart, o));
    RingsUp(s, m, cart);
    if AllAtTill(cart.Specs()) {
      SellableSettles(placed, placed.orders[o], cfg);
      SettleSells(placed, o, cfg);
    }
  }
}
