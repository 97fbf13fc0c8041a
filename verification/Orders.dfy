// The order transactions as functions from one database state to the next.
// A transaction that rolls back returns the state it was given.

module Orders {
  import opened Tables
  import opened Tallies

  datatype Error = NotFound | InvalidState | AlreadyPaid | DuplicateReceipt | Overpayment | BadReceipt | Refused

  datatype Outcome = Ok | Err(error: Error)

  datatype Tx = Tx(shop: Shop, out: Outcome)

  // Loyalty settings read at completion time.
  datatype Config = Config(loyalty: bool, earnPer: int)

  // ---- PENDING -> PAID ----

  function EarnDue(order: Order, cfg: Config): (points: int)
    ensures points >= 0
  {
    if order.customer == NO_CUSTOMER || !cfg.loyalty || cfg.earnPer <= 0 || order.total <= 0 then 0
    else order.total / cfg.earnPer
  }

  function EarnRow(order: Order, o: nat, points: int): Row {
    Row(order.customer, o, Loyalty, 0, points, Earned)
  }

  // Every row the transition reads or inserts satisfies its foreign keys.
  predicate Settleable(s: Shop, order: Order, cfg: Config) {
    && KnownLines(s.products, order.lines)
    && (EarnDue(order, cfg) > 0 ==> order.customer in s.customers)
  }

  // Status, stock and gift cards of an order becoming PAID.
  function Deliver(s: Shop, o: nat, cfg: Config): Shop
    requires o < |s.orders|
  {
    var order := s.orders[o];
    var d := Deduct(s.products, order.lines);
    s.(products := d.products,
       orders := s.orders[o := order.(status := Paid, effects := PaidWith(d.taken, EarnDue(order, cfg)))],
       cards := s.cards + Mint(o, order.lines, s.products))
  }

  // The once-only effects of the PENDING -> PAID transition.
  function Settle(s: Shop, o: nat, cfg: Config): Shop
    requires o < |s.orders| && Settleable(s, s.orders[o], cfg)
  {
    var earned := EarnDue(s.orders[o], cfg);
    PostIf(Deliver(s, o, cfg), earned > 0, EarnRow(s.orders[o], o, earned))
  }

  function Flag(s: Shop, o: nat, cond: bool): Shop
    requires o < |s.orders|
  {
    if cond then s.(orders := s.orders[o := s.orders[o].(flagged := true)]) else s
  }

  predicate ReceiptTaken(legs: seq<Leg>, receipt: string, p: nat) {
    receipt != "" && exists j :: 0 <= j < |legs| && j != p && legs[j].receipt == receipt
  }

  function Landed(leg: Leg, receipt: string, flag: bool): Leg {
    leg.(status := LegCompleted, receipt := if receipt != "" then receipt else leg.receipt, flagged := flag)
  }

  // completePayment: the one guarded transition PENDING -> PAID.
  function Complete(s: Shop, p: nat, receipt: string, amount: int, cfg: Config): Tx {
    if p >= |s.legs| || s.legs[p].order >= |s.orders| then Tx(s, Err(NotFound))
    else
      var leg := s.legs[p];
      var o := leg.order;
      var order := s.orders[o];
      if leg.status == LegCompleted then Tx(s, Ok)
      else if order.status == Voided then Tx(s.(legs := s.legs[p := leg.(status := LegFailed)]), Err(InvalidState))
      else if ReceiptTaken(s.legs, receipt, p) then Tx(s, Err(DuplicateReceipt))
      else if order.status == Pending && !Settleable(s, order, cfg) then Tx(s, Err(NotFound))
      else
        var mismatch := amount <= 0 || amount != leg.amount;
        var won := order.status == Pending;
        var flag := mismatch || !won || Short(s.products, order.lines);
        var s1 := Flag(if won then Settle(s, o, cfg) else s, o, flag);
        Tx(s1.(legs := s.legs[p := Landed(leg, receipt, flag)]), Ok)
  }

  // ---- checkout ----

  datatype LegSpec = LegSpec(rail: Rail, amount: int, manual: bool, phoneOk: bool) {
    predicate Instant() {
      rail == Cash || rail == Credit
    }
  }

  datatype Tender = Single(rail: Rail, manual: bool, phoneOk: bool) | Split(legs: seq<LegSpec>)

  datatype Cart = Cart(customer: int, lines: seq<Line>, payable: int, redeem: int, tender: Tender,
                       cashier: int, uuid: string) {
    function Specs(): seq<LegSpec> {
      match tender
      case Single(m, manual, phoneOk) => [LegSpec(m, payable, manual, phoneOk)]
      case Split(specs) => specs
    }

    // Every leg is paid at the till, so the order is PAID at once.
    predicate Instant() {
      forall l :: l in Specs() ==> l.Instant()
    }
  }

  function SpecSum(specs: seq<LegSpec>): int {
    if specs == [] then 0 else SpecSum(specs[..|specs| - 1]) + specs[|specs| - 1].amount
  }

  function AsyncCount(specs: seq<LegSpec>): nat {
    if specs == [] then 0
    else AsyncCount(specs[..|specs| - 1]) + (if specs[|specs| - 1].Instant() then 0 else 1)
  }

  predicate ActiveCustomer(s: Shop, c: int) {
    c in s.customers && s.customers[c].active
  }

  predicate Distinct(lines: seq<Line>) {
    forall i, j :: 0 <= i < j < |lines| ==> lines[i].product != lines[j].product
  }

  // The cart as the pricing stage hands it over, and the checks before the transaction.
  predicate Accepts(s: Shop, cart: Cart) {
    && cart.redeem >= 0
    && KnownLines(s.products, cart.lines) && Distinct(cart.lines)
    && (forall l :: l in cart.lines ==> l.qty > 0)
    && (cart.redeem > 0 ==> ActiveCustomer(s, cart.customer))
    && match cart.tender
       case Single(m, _, _) => (m == Account || m == Credit ==> ActiveCustomer(s, cart.customer))
       case Split(specs) =>
         && specs != []
         && (forall l :: l in specs ==> l.amount > 0 && l.rail != Account)
         && SpecSum(specs) == cart.payable
         && AsyncCount(specs) <= 1
         && ((exists l :: l in specs && l.rail == Credit) ==> ActiveCustomer(s, cart.customer))
  }

  function OpenedLeg(o: nat, spec: LegSpec): Leg {
    Leg(o, spec.rail,
        if spec.rail == Mpesa && !spec.manual then RoundToShilling(spec.amount) else spec.amount,
        if spec.Instant() then LegCompleted else LegPending,
        spec.rail == Mpesa && !spec.manual, "", "", false)
  }

  datatype Attempt = RolledBack | Done(shop: Shop)

  predicate Covered(ps: map<int, Product>, lines: seq<Line>) {
    forall l :: l in lines && l.product in ps && ps[l.product].tracked ==> l.qty <= ps[l.product].stock
  }

  // Store credit is spent and a tab is charged through the ledger.
  predicate Ledgered(spec: LegSpec) {
    spec.rail == Credit || spec.rail == Account
  }

  function OpenRow(o: nat, cart: Cart, spec: LegSpec): Row {
    if spec.rail == Credit then Row(cart.customer, o, CreditRedeem, -spec.amount, 0, Plain)
    else Row(cart.customer, o, Charge, spec.amount, 0, Plain)
  }

  predicate LegAllowed(s: Shop, cart: Cart, spec: LegSpec) {
    match spec.rail
    case Cash => true
    case Credit => cart.customer in s.customers && spec.amount <= s.customers[cart.customer].credit
    case Account => cart.customer in s.customers && Covered(s.products, cart.lines)
    case Mpesa => spec.manual || spec.phoneOk
  }

  // One payment row, with the ledger movement it implies.
  function OpenLeg(s: Shop, o: nat, cart: Cart, spec: LegSpec): Attempt {
    if !LegAllowed(s, cart, spec) then RolledBack
    else
      var s1 := s.(legs := s.legs + [OpenedLeg(o, spec)]);
      Done(if Ledgered(spec) then Post(s1, OpenRow(o, cart, spec)) else s1)
  }

  function OpenLegs(s: Shop, o: nat, cart: Cart, specs: seq<LegSpec>): (a: Attempt)
    ensures a.Done? ==> a.shop.orders == s.orders
  {
    if specs == [] then Done(s)
    else
      match OpenLegs(s, o, cart, specs[..|specs| - 1])
      case RolledBack => RolledBack
      case Done(t) => OpenLeg(t, o, cart, specs[|specs| - 1])
  }

  function NewOrder(cart: Cart): Order {
    Order(Pending, cart.payable, cart.customer, cart.redeem, cart.lines, cart.cashier, cart.uuid, false, Unpaid)
  }

  predicate Replayed(s: Shop, cart: Cart) {
    cart.uuid != "" && exists o :: 0 <= o < |s.orders| && s.orders[o].uuid == cart.uuid
  }

  function RedeemRow(cart: Cart, o: nat): Row {
    Row(cart.customer, o, Loyalty, 0, -cart.redeem, Plain)
  }

  // Order, lines and payment rows are in; points are spent and an instant sale is settled.
  function FinishCheckout(s: Shop, o: nat, cart: Cart, cfg: Config): Attempt
    requires o < |s.orders|
  {
    if cart.redeem > 0 && (cart.customer !in s.customers || s.customers[cart.customer].points < cart.redeem) then RolledBack
    else
      var s1 := PostIf(s, cart.redeem > 0, RedeemRow(cart, o));
      if !cart.Instant() then Done(s1)
      else if Short(s1.products, cart.lines) || !Settleable(s1, s1.orders[o], cfg) then RolledBack
      else Done(Settle(s1, o, cfg))
  }

  function CheckoutAttempt(s: Shop, cart: Cart, cfg: Config): Attempt {
    if !Accepts(s, cart) then RolledBack
    else
      match OpenLegs(s.(orders := s.orders + [NewOrder(cart)]), |s.orders|, cart, cart.Specs())
      case RolledBack => RolledBack
      case Done(t) => FinishCheckout(t, |s.orders|, cart, cfg)
  }

  function Checkout(s: Shop, cart: Cart, cfg: Config): Tx {
    if Replayed(s, cart) then Tx(s, Ok)
    else
      match CheckoutAttempt(s, cart, cfg)
      case RolledBack => Tx(s, Err(Refused))
      case Done(t) => Tx(t, Ok)
  }

  // ---- manual receipt, retry, push ----

  predicate ValidReceipt(code: string) {
    |code| == 10 && forall ch :: ch in code ==> 'A' <= ch <= 'Z' || '0' <= ch <= '9'
  }

  // The last PENDING leg of the order, or |legs| when there is none.
  function LastPending(legs: seq<Leg>, o: nat): (p: nat)
    ensures p < |legs| ==> legs[p].order == o && legs[p].status == LegPending
    ensures p <= |legs|
    ensures p == |legs| ==> forall i :: 0 <= i < |legs| && legs[i].order == o ==> legs[i].status != LegPending
  {
    if legs == [] then 0
    else
      var n := |legs| - 1;
      if legs[n].order == o && legs[n].status == LegPending then n
      else
        var p := LastPending(legs[..n], o);
        if p < n then p else |legs|
  }

  function ManualLeg(o: nat, amount: int): Leg {
    Leg(o, Mpesa, amount, LegPending, false, "", "", false)
  }

  // The payment rows a receipt code is booked on: when no leg is PENDING, one is
  // added for what the completed legs have not covered.
  function Collecting(s: Shop, o: nat): seq<Leg>
    requires o < |s.orders|
  {
    if LastPending(s.legs, o) < |s.legs| then s.legs
    else s.legs + [ManualLeg(o, s.orders[o].total - LegTally(s.legs, o).completed)]
  }

  function ManualConfirm(s: Shop, o: nat, code: string, cfg: Config): Tx {
    if !ValidReceipt(code) then Tx(s, Err(BadReceipt))
    else if o >= |s.orders| then Tx(s, Err(NotFound))
    else if s.orders[o].status == Paid then Tx(s, Err(AlreadyPaid))
    else if s.orders[o].status == Voided then Tx(s, Err(InvalidState))
    else
      var p := LastPending(s.legs, o);
      var legs := Collecting(s, o);
      if p == |s.legs| && legs[p].amount <= 0 then Tx(s, Err(InvalidState))
      else Complete(s.(legs := legs), p, code, legs[p].amount, cfg)
  }

  function RetryLeg(o: nat, total: int): Leg {
    Leg(o, Mpesa, RoundToShilling(total), LegPending, true, "", "", false)
  }

  // The transaction of RetrySTKWithPhone: it trusts the legs an earlier read saw PENDING.
  function RetryCommit(s: Shop, o: nat, total: int, seen: set<nat>): Shop {
    s.(legs := Supersede(s.legs, seen) + [RetryLeg(o, total)])
  }

  // What an earlier read of order o may have handed over: its total, which never
  // changes, and legs that were PENDING then, which legs paid at the till never are.
  predicate ReadEarlier(s: Shop, o: nat, total: int, seen: set<nat>) {
    && o < |s.orders| && total == s.orders[o].total
    && forall i :: i in seen ==> i < |s.legs| && s.legs[i].order == o && (s.legs[i].rail.Account? || s.legs[i].rail.Mpesa?)
  }

  function PendingLegs(legs: seq<Leg>, o: nat): set<nat> {
    set i: nat | i < |legs| && legs[i].order == o && legs[i].status == LegPending
  }

  // Read and transaction together, with nothing in between.
  function Retry(s: Shop, o: nat, phoneOk: bool): Tx {
    if !phoneOk then Tx(s, Err(Refused))
    else if o >= |s.orders| then Tx(s, Err(NotFound))
    else if s.orders[o].status != Pending then Tx(s, Err(InvalidState))
    else Tx(RetryCommit(s, o, s.orders[o].total, PendingLegs(s.legs, o)), Ok)
  }

  function SupersededByPush(leg: Leg, o: nat): Leg {
    if leg.order == o && leg.rail == Mpesa then FailIfPending(leg) else leg
  }

  // buniMpesaSTK, first transaction: older M-Pesa prompts of the order are failed.
  function StartPush(s: Shop, p: nat): Shop
    requires p < |s.legs|
  {
    s.(legs := seq(|s.legs|, i requires 0 <= i < |s.legs| =>
                 if i == p then s.legs[i] else SupersededByPush(s.legs[i], s.legs[p].order)))
  }

  // The provider refused, the customer cancelled, or the prompt timed out.
  function FailLeg(s: Shop, p: nat): Shop
    requires p < |s.legs|
  {
    s.(legs := s.legs[p := FailIfPending(s.legs[p])])
  }

  predicate CheckoutTaken(legs: seq<Leg>, checkout: string, p: nat) {
    checkout != "" && exists j :: 0 <= j < |legs| && j != p && legs[j].checkout == checkout
  }

  // The provider accepted: bind its checkout id while the leg is still PENDING.
  function Bind(s: Shop, p: nat, checkout: string): Shop
    requires p < |s.legs|
  {
    if s.legs[p].status == LegPending && !CheckoutTaken(s.legs, checkout, p)
    then s.(legs := s.legs[p := s.legs[p].(checkout := checkout)]) else s
  }

  // ---- provider callback ----

  datatype Callback = Callback(checkout: string, success: bool, amount: int, receipt: string)

  const BUNI_PREFIX := "BUNI-"

  function FindCheckout(legs: seq<Leg>, checkout: string): (p: nat)
    ensures p <= |legs|
    ensures p < |legs| ==> legs[p].checkout == checkout || legs[p].checkout == BUNI_PREFIX + checkout
    ensures p == |legs| ==> forall i :: 0 <= i < |legs| ==> legs[i].checkout != checkout && legs[i].checkout != BUNI_PREFIX + checkout
  {
    if legs == [] then 0
    else
      var n := |legs| - 1;
      var p := FindCheckout(legs[..n], checkout);
      if p < n then p
      else if legs[n].checkout == checkout || legs[n].checkout == BUNI_PREFIX + checkout then n
      else |legs|
  }

  // What HandleCallback does once the checkout id has selected a leg.
  function CallbackOn(s: Shop, p: nat, cb: Callback, cfg: Config): Tx
    requires p < |s.legs|
  {
    if !cb.success then Tx(FailLeg(s, p), Ok)
    else if cb.amount <= 0 || cb.amount != s.legs[p].amount then
      var o := s.legs[p].order;
      var s1 := FailLeg(s, p);
      Tx(if o < |s.orders| then Flag(s1, o, true) else s1, Err(InvalidState))
    else Complete(s, p, cb.receipt, cb.amount, cfg)
  }

  function HandleCallback(s: Shop, cb: Callback, cfg: Config): Tx {
    var p := FindCheckout(s.legs, cb.checkout);
    if cb.checkout == "" || p >= |s.legs| then Tx(s, Err(NotFound)) else CallbackOn(s, p, cb, cfg)
  }

  // ---- void ----

  datatype Caller = Caller(id: int, seesAll: bool)

  predicate OwedOnline(legs: seq<Leg>, o: nat) {
    exists i :: 0 <= i < |legs| && legs[i].order == o && legs[i].rail == Mpesa
                && legs[i].status == LegCompleted && legs[i].amount > 0
  }

  // The ledger rows that undo a sale, in the order they are inserted.
  function Reversals(s: Shop, o: nat): seq<Row>
    requires o < |s.orders|
  {
    var order := s.orders[o];
    var c := order.customer;
    var creditUsed := LegTally(VoidLegs(s.legs, o), o).voidedCredit;
    var tabs := LegTally(s.legs, o).tabs;
    var earned := if order.status == Paid then RowTally(s.ledger, o).gained else 0;
    if c == NO_CUSTOMER then []
    else
      (if creditUsed > 0 then [Row(c, o, CreditTopup, creditUsed, 0, Plain)] else [])
      + (if tabs > 0 then [Row(c, o, Adjustment, -order.total, 0, Plain)] else [])
      + (if earned > 0 then [Row(c, o, Loyalty, 0, -earned, Plain)] else [])
      + (if order.redeemed > 0 then [Row(c, o, Loyalty, 0, order.redeemed, Plain)] else [])
  }

  function PostAll(s: Shop, rows: seq<Row>): (t: Shop)
    requires forall r :: r in rows ==> r.customer in s.customers
    ensures t.customers.Keys == s.customers.Keys
    ensures t == s.(ledger := s.ledger + rows, customers := t.customers)
  {
    if rows == [] then
      assert s.ledger + rows == s.ledger;
      s
    else
      assert s.ledger + rows[..|rows| - 1] + [rows[|rows| - 1]] == s.ledger + rows;
      Post(PostAll(s, rows[..|rows| - 1]), rows[|rows| - 1])
  }

  // The tables a void rewrites before any reversal row is posted.
  function VoidTables(s: Shop, o: nat): Shop
    requires o < |s.orders|
  {
    var order := s.orders[o];
    var paid := order.status == Paid;
    s.(orders := s.orders[o := order.(status := Voided, flagged := order.flagged || (paid && OwedOnline(s.legs, o)))],
       products := if paid then Restore(s.products, order.lines) else s.products,
       legs := VoidLegs(s.legs, o),
       cards := if paid then VoidCards(s.cards, o) else s.cards)
  }

  function Void(s: Shop, o: nat, caller: Caller): Tx {
    if o >= |s.orders| then Tx(s, Err(NotFound))
    else if !caller.seesAll && s.orders[o].cashier != caller.id then Tx(s, Err(NotFound))
    else if s.orders[o].status == Voided then Tx(s, Err(InvalidState))
    else
      var order := s.orders[o];
      var rows := Reversals(s, o);
      if rows != [] && order.customer !in s.customers then Tx(s, Err(NotFound))
      else
        Tx(PostAll(VoidTables(s, o), rows), Ok)
  }

  // ---- customer ledger ----

  function CustomerPayment(s: Shop, c: int, amount: int): Tx {
    if amount <= 0 then Tx(s, Err(Refused))
    else if c !in s.customers then Tx(s, Err(NotFound))
    else if !s.customers[c].active then Tx(s, Err(Refused))
    else if s.customers[c].balance < amount then Tx(s, Err(Overpayment))
    else Tx(Post(s, Row(c, NO_ORDER, Payment, -amount, 0, Plain)), Ok)
  }

  function CustomerAdjustment(s: Shop, c: int, amount: int, noted: bool): Tx {
    if !noted then Tx(s, Err(Refused))
    else if c !in s.customers then Tx(s, Err(NotFound))
    else Tx(Post(s, Row(c, NO_ORDER, Adjustment, amount, 0, Plain)), Ok)
  }

  const MAX_PRICE_CENTS := 1_000_000_000_000

  function TopUp(s: Shop, c: int, amount: int): Tx {
    if amount <= 0 || amount > MAX_PRICE_CENTS then Tx(s, Err(Refused))
    else if c !in s.customers then Tx(s, Err(NotFound))
    else if !s.customers[c].active then Tx(s, Err(Refused))
    else Tx(Post(s, Row(c, NO_ORDER, CreditTopup, amount, 0, Plain)), Ok)
  }

  // RedeemGiftCard moves the store-credit column once itself and once more
  // through the ledger row.
  function RedeemCard(s: Shop, k: nat, c: int): Tx {
    if k >= |s.cards| then Tx(s, Err(NotFound))
    else if s.cards[k].status != CardActive || s.cards[k].remaining <= 0 then Tx(s, Err(Refused))
    else if c !in s.customers then Tx(s, Err(NotFound))
    else if !s.customers[c].active then Tx(s, Err(Refused))
    else
      var v := s.cards[k].remaining;
      var s1 := s.(customers := s.customers[c := s.customers[c].(credit := s.customers[c].credit + v)]);
      var s2 := Post(s1, Row(c, NO_ORDER, CreditTopup, v, 0, Plain));
      Tx(s2.(cards := s2.cards[k := s2.cards[k].(status := CardEmpty, remaining := 0, holder := c)]), Ok)
  }

  // CreateCustomer: the columns start at zero.
  function NewCustomer(s: Shop, c: int): Shop {
    if c == NO_CUSTOMER || c in s.customers then s
    else s.(customers := s.customers[c := Customer(0, 0, 0, true)])
  }

  function SetActive(s: Shop, c: int, active: bool): Shop {
    if c !in s.customers then s else s.(customers := s.customers[c := s.customers[c].(active := active)])
  }

  // ---- tab settlement ----

  function SettleRow(order: Order, o: nat): Row {
    Row(order.customer, o, Payment, -order.total, 0, TabSettled)
  }

  // The last transaction of SettleTab: post the payment unless it is there already.
  function PostSettlement(s: Shop, o: nat): Shop
    requires o < |s.orders| && s.orders[o].customer in s.customers
  {
    PostIf(s, RowTally(s.ledger, o).settlements == 0, SettleRow(s.orders[o], o))
  }

  // The first PENDING account leg of the order, or |legs|.
  function TabLeg(legs: seq<Leg>, o: nat): (p: nat)
    ensures p <= |legs|
    ensures p < |legs| ==> legs[p].order == o && legs[p].rail == Account && legs[p].status == LegPending
  {
    if legs == [] then 0
    else
      var n := |legs| - 1;
      var p := TabLeg(legs[..n], o);
      if p < n then p
      else if legs[n].order == o && legs[n].rail == Account && legs[n].status == LegPending then n
      else |legs|
  }
}
