// The rows of the shop database and the primitive statements that change them.
// A table whose ids are assigned by AUTOINCREMENT is a sequence indexed by id.

module Tables {

  // The source's `customer_id = 0` and `order_id = 0`.
  const NO_CUSTOMER := 0
  const NO_ORDER := -1

  datatype OrderStatus = Pending | Paid | Voided

  datatype LegStatus = LegPending | LegCompleted | LegFailed | LegVoided

  datatype Rail = Cash | Credit | Account | Mpesa

  datatype Kind = Charge | Payment | Adjustment | Loyalty | CreditTopup | CreditRedeem {
    predicate IsCredit() {
      CreditTopup? || CreditRedeem?
    }
  }

  datatype Note = Plain | Earned | TabSettled

  datatype Product = Product(stock: int, tracked: bool, gift: bool)

  datatype Customer = Customer(balance: int, points: int, credit: int, active: bool)

  datatype Line = Line(product: int, qty: nat, price: int)

  // What the PENDING -> PAID transition did: which lines its guarded stock
  // updates hit, and the loyalty points it earned.
  datatype Effects = Unpaid | PaidWith(taken: seq<bool>, earned: int) {
    function Points(): int {
      if PaidWith? then earned else 0
    }
  }

  datatype Order = Order(status: OrderStatus, total: int, customer: int, redeemed: int, lines: seq<Line>,
                         cashier: int, uuid: string, flagged: bool, effects: Effects)

  datatype Leg = Leg(order: nat, rail: Rail, amount: int, status: LegStatus,
                     hasPhone: bool, receipt: string, checkout: string, flagged: bool)

  datatype Row = Row(customer: int, order: int, kind: Kind, amount: int, points: int, note: Note)

  datatype CardStatus = CardActive | CardEmpty | CardVoid

  datatype Card = Card(order: nat, initial: int, remaining: int, status: CardStatus, holder: int)

  datatype Shop = Shop(products: map<int, Product>, customers: map<int, Customer>, orders: seq<Order>,
                       legs: seq<Leg>, ledger: seq<Row>, cards: seq<Card>)

  // ---- ledger ----

  // How one ledger row moves the cached columns of its customer.
  function Apply(c: Customer, r: Row): Customer {
    if r.kind.IsCredit() then c.(credit := c.credit + r.amount)
    else c.(balance := c.balance + r.amount, points := c.points + r.points)
  }

  // INSERT into the ledger plus the UPDATE of the customer columns.
  function Post(s: Shop, r: Row): Shop
    requires r.customer in s.customers
  {
    s.(ledger := s.ledger + [r],
       customers := s.customers[r.customer := Apply(s.customers[r.customer], r)])
  }

  function PostIf(s: Shop, cond: bool, r: Row): Shop
    requires cond ==> r.customer in s.customers
  {
    if cond then Post(s, r) else s
  }

  // ---- stock ----

  datatype Deduction = Deduction(products: map<int, Product>, taken: seq<bool>)

  predicate Covers(ps: map<int, Product>, l: Line) {
    l.product in ps && ps[l.product].tracked && l.qty <= ps[l.product].stock
  }

  function TakeLine(ps: map<int, Product>, l: Line): map<int, Product>
    requires l.product in ps
  {
    ps[l.product := ps[l.product].(stock := ps[l.product].stock - l.qty)]
  }

  // The guarded updates `stock_qty = stock_qty - qty WHERE stock_qty >= qty`,
  // line after line; untracked lines are passed over.
  function Deduct(ps: map<int, Product>, lines: seq<Line>): (d: Deduction)
    ensures |d.taken| == |lines| && d.products.Keys == ps.Keys
  {
    if lines == [] then Deduction(ps, [])
    else
      var d := Deduct(ps, lines[..|lines| - 1]);
      var l := lines[|lines| - 1];
      if Covers(d.products, l) then Deduction(TakeLine(d.products, l), d.taken + [true])
      else Deduction(d.products, d.taken + [false])
  }

  // Void adds every line back, whether or not it was deducted.
  function Restore(ps: map<int, Product>, lines: seq<Line>): (qs: map<int, Product>)
    ensures qs.Keys == ps.Keys
  {
    if lines == [] then ps
    else
      var qs := Restore(ps, lines[..|lines| - 1]);
      var l := lines[|lines| - 1];
      if l.product in qs then qs[l.product := qs[l.product].(stock := qs[l.product].stock + l.qty)] else qs
  }

  // Some tracked line was not covered.
  predicate Short(ps: map<int, Product>, lines: seq<Line>) {
    var d := Deduct(ps, lines);
    exists i :: 0 <= i < |lines| && lines[i].product in ps && ps[lines[i].product].tracked && !d.taken[i]
  }

  predicate KnownLines(ps: map<int, Product>, lines: seq<Line>) {
    forall l :: l in lines ==> l.product in ps
  }

  // ---- gift cards ----

  function Mint(o: nat, lines: seq<Line>, ps: map<int, Product>): seq<Card> {
    if lines == [] then []
    else
      var l := lines[|lines| - 1];
      Mint(o, lines[..|lines| - 1], ps)
      + (if l.product in ps && ps[l.product].gift
         then seq(l.qty, _ => Card(o, l.price, l.price, CardActive, NO_CUSTOMER)) else [])
  }

  function VoidCard(c: Card, o: nat): Card {
    if c.order == o && c.status == CardActive then c.(status := CardVoid, remaining := 0) else c
  }

  function VoidCards(cards: seq<Card>, o: nat): seq<Card> {
    seq(|cards|, i requires 0 <= i < |cards| => VoidCard(cards[i], o))
  }

  // ---- payment legs ----

  predicate Live(leg: Leg) {
    leg.status == LegPending || leg.status == LegCompleted
  }

  function VoidLeg(leg: Leg, o: nat): Leg {
    if leg.order == o && Live(leg) then leg.(status := LegVoided) else leg
  }

  function VoidLegs(legs: seq<Leg>, o: nat): seq<Leg> {
    seq(|legs|, i requires 0 <= i < |legs| => VoidLeg(legs[i], o))
  }

  function FailIfPending(leg: Leg): Leg {
    if leg.status == LegPending then leg.(status := LegFailed) else leg
  }

  function Supersede(legs: seq<Leg>, which: set<nat>): seq<Leg> {
    seq(|legs|, i requires 0 <= i < |legs| => if i in which then legs[i].(status := LegFailed) else legs[i])
  }

  // M-Pesa accepts whole shillings; halves round away from zero.
  function RoundToShilling(cents: int): int {
    if cents >= 0 then (cents + 50) / 100 * 100 else -((-cents + 50) / 100 * 100)
  }
}
