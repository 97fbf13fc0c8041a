// Void as the inverse of completion, and the race between the two.

module VoidLaw {
  import opened Sums
  import opened Tables
  import opened Tallies
  import opened TallyLaws
  import opened Orders
  import opened Soundness
  import opened Transitions
  import opened StockLaw

  // ---- customers ----

  // t's columns are s's moved by the given rows.
  predicate MovedBy(s: Shop, t: Shop, rows: seq<Row>, c: int) {
    && c in s.customers && c in t.customers
    && var a := s.customers[c]; var b := t.customers[c];
       && b.balance == a.balance + Sum(rows, BalanceOf(c))
       && b.points == a.points + Sum(rows, PointsOf(c))
       && b.credit == a.credit + Sum(rows, CreditOf(c))
       && b.active == a.active
  }

  lemma {:induction false} PostAllMoves(s: Shop, rows: seq<Row>, c: int)
    requires c in s.customers && forall r :: r in rows ==> r.customer in s.customers
    ensures MovedBy(s, PostAll(s, rows), rows, c)
  {
    if rows != [] {
      PostAllMoves(s, rows[..|rows| - 1], c);
    }
  }

  lemma SumFour(a: seq<Row>, b: seq<Row>, d: seq<Row>, e: seq<Row>, f: Row -> int)
    ensures Sum(a + b + d + e, f) == Sum(a, f) + Sum(b, f) + Sum(d, f) + Sum(e, f)
  {
    SumConcat(a, b, f);
    SumConcat(a + b, d, f);
    SumConcat(a + b + d, e, f);
  }

  function Part(cond: bool, r: Row, f: Row -> int): int {
    if cond then f(r) else 0
  }

  lemma AloneSum(cond: bool, r: Row, f: Row -> int)
    ensures Sum(Alone(cond, r), f) == Part(cond, r, f)
  {
  }

  // The reversal rows of an order, given what its legs and its effects add up to.
  function RowsFor(order: Order, o: nat, credit: int, tabs: int, earned: int): seq<Row> {
    Alone(credit > 0, Row(order.customer, o, CreditTopup, credit, 0, Plain))
    + Alone(tabs > 0, Row(order.customer, o, Adjustment, -order.total, 0, Plain))
    + Alone(earned > 0, Row(order.customer, o, Loyalty, 0, -earned, Plain))
    + Alone(order.redeemed > 0, Row(order.customer, o, Loyalty, 0, order.redeemed, Plain))
  }

  lemma RowsForSum(order: Order, o: nat, credit: int, tabs: int, earned: int, f: Row -> int)
    ensures Sum(RowsFor(order, o, credit, tabs, earned), f)
            == Part(credit > 0, Row(order.customer, o, CreditTopup, credit, 0, Plain), f)
               + Part(tabs > 0, Row(order.customer, o, Adjustment, -order.total, 0, Plain), f)
               + Part(earned > 0, Row(order.customer, o, Loyalty, 0, -earned, Plain), f)
               + Part(order.redeemed > 0, Row(order.customer, o, Loyalty, 0, order.redeemed, Plain), f)
  {
    var r0 := Alone(credit > 0, Row(order.customer, o, CreditTopup, credit, 0, Plain));
    var r1 := Alone(tabs > 0, Row(order.customer, o, Adjustment, -order.total, 0, Plain));
    var r2 := Alone(earned > 0, Row(order.customer, o, Loyalty, 0, -earned, Plain));
    var r3 := Alone(order.redeemed > 0, Row(order.customer, o, Loyalty, 0, order.redeemed, Plain));
    AloneSum(credit > 0, Row(order.customer, o, CreditTopup, credit, 0, Plain), f);
    AloneSum(tabs > 0, Row(order.customer, o, Adjustment, -order.total, 0, Plain), f);
    AloneSum(earned > 0, Row(order.customer, o, Loyalty, 0, -earned, Plain), f);
    AloneSum(order.redeemed > 0, Row(order.customer, o, Loyalty, 0, order.redeemed, Plain), f);
    SumFour(r0, r1, r2, r3, f);
  }

  lemma ReversalSplit(s: Shop, o: nat)
    requires o < |s.orders| && OrderOk(s, o) && !s.orders[o].status.Voided? && s.orders[o].customer != NO_CUSTOMER
    ensures var L := LegTally(s.legs, o);
            Reversals(s, o) == RowsFor(s.orders[o], o, L.credit, L.tabs, s.orders[o].effects.Points())
  {
    LegsVoided(s.legs, o);
  }

  lemma RowsForMoves(order: Order, o: nat, credit: nat, tabs: int, c: int)
    requires order.redeemed >= 0 && order.effects.Points() >= 0
    ensures var rows := RowsFor(order, o, credit, tabs, order.effects.Points()); var mine := order.customer == c;
            && Sum(rows, BalanceOf(c)) == (if mine && tabs > 0 then -order.total else 0)
            && Sum(rows, PointsOf(c)) == (if mine then order.redeemed - order.effects.Points() else 0)
            && Sum(rows, CreditOf(c)) == (if mine then credit else 0)
  {
    RowsForSum(order, o, credit, tabs, order.effects.Points(), BalanceOf(c));
    RowsForSum(order, o, credit, tabs, order.effects.Points(), PointsOf(c));
    RowsForSum(order, o, credit, tabs, order.effects.Points(), CreditOf(c));
  }

  // What voiding order o moves in the columns of customer c.
  lemma ReversalMoves(s: Shop, o: nat, c: int)
    requires o < |s.orders| && OrderOk(s, o) && !s.orders[o].status.Voided?
    ensures var order := s.orders[o]; var L := LegTally(s.legs, o); var mine := order.customer == c && c != NO_CUSTOMER;
            && Sum(Reversals(s, o), BalanceOf(c)) == (if mine && L.tabs > 0 then -order.total else 0)
            && Sum(Reversals(s, o), PointsOf(c)) == (if mine then order.redeemed - order.effects.Points() else 0)
            && Sum(Reversals(s, o), CreditOf(c)) == (if mine then L.credit else 0)
  {
    if s.orders[o].customer != NO_CUSTOMER {
      ReversalSplit(s, o);
      RowsForMoves(s.orders[o], o, LegTally(s.legs, o).credit, LegTally(s.legs, o).tabs, c);
    }
  }

  // ---- gift cards ----

  function Spendable(cards: seq<Card>): seq<Card> {
    if cards == [] then []
    else Spendable(cards[..|cards| - 1]) + (if cards[|cards| - 1].status.CardActive? then [cards[|cards| - 1]] else [])
  }

  lemma {:induction false} SpendableConcat(a: seq<Card>, b: seq<Card>)
    ensures Spendable(a + b) == Spendable(a) + Spendable(b)
  {
    if b == [] {
      assert a + b == a;
    } else {
      assert (a + b)[..|a + b| - 1] == a + b[..|b| - 1];
      SpendableConcat(a, b[..|b| - 1]);
    }
  }

  lemma {:induction false} DeadCards(cards: seq<Card>)
    requires forall k :: k in cards ==> !k.status.CardActive?
    ensures Spendable(cards) == []
  {
    if cards != [] {
      DeadCards(cards[..|cards| - 1]);
    }
  }

  // Minting for an order and voiding its cards leaves the spendable cards alone.
  lemma MintThenVoid(cards: seq<Card>, o: nat, lines: seq<Line>, ps: map<int, Product>)
    requires forall k :: k in cards ==> k.order != o
    ensures Spendable(VoidCards(cards + Mint(o, lines, ps), o)) == Spendable(cards)
  {
    var minted := Mint(o, lines, ps);
    MintFresh(o, lines, ps);
    assert VoidCards(cards + minted, o) == cards + VoidCards(minted, o);
    SpendableConcat(cards, VoidCards(minted, o));
    DeadCards(VoidCards(minted, o));
  }

  // ---- the race between void and completion ----

  predicate MayVoid(s: Shop, o: nat, caller: Caller) {
    o < |s.orders| && (caller.seesAll || s.orders[o].cashier == caller.id)
  }

  predicate Reversible(s: Shop, o: nat) {
    && o < |s.orders| && OrderOk(s, o) && NO_CUSTOMER !in s.customers && !s.orders[o].status.Voided?
    && forall r :: r in Reversals(s, o) ==> r.customer in s.customers
  }

  function Undone(s: Shop, o: nat): Shop
    requires Reversible(s, o)
  {
    PostAll(VoidTables(s, o), Reversals(s, o))
  }

  // On a sound database an allowed void of a live order always goes through.
  lemma VoidSucceeds(s: Shop, o: nat, caller: Caller)
    requires Inv(s) && MayVoid(s, o, caller) && !s.orders[o].status.Voided?
    ensures Reversible(s, o) && Void(s, o, caller) == Tx(Undone(s, o), Ok)
  {
    assert OrderOk(s, o);
    ReversalsKnown(s, o);
    ReversalRows(s, o);
  }

  // t is s after the PENDING order o was paid through one of its legs.
  predicate PaidVersion(s: Shop, t: Shop, o: nat, cfg: Config) {
    && o < |s.orders| && o < |t.orders|
    && s.orders[o].status.Pending? && Settleable(s, s.orders[o], cfg)
    && var d := Deduct(s.products, s.orders[o].lines);
       && t.orders[o] == s.orders[o].(status := Paid, effects := PaidWith(d.taken, EarnDue(s.orders[o], cfg)), flagged := t.orders[o].flagged)
       && t.products == d.products
       && t.cards == s.cards + Mint(o, s.orders[o].lines, s.products)
       && t.customers == Settle(s, o, cfg).customers
       && LegTally(t.legs, o).credit == LegTally(s.legs, o).credit
       && LegTally(t.legs, o).tabs == LegTally(s.legs, o).tabs
  }

  predicate Meeting(s: Shop, t: Shop, o: nat, cfg: Config) {
    Reversible(s, o) && Reversible(t, o) && PaidVersion(s, t, o, cfg)
  }

  lemma CompletePays(s: Shop, p: nat, receipt: string, amount: int, cfg: Config)
    requires p < |s.legs| && s.legs[p].order < |s.orders| && !s.legs[p].status.LegCompleted?
    requires s.orders[s.legs[p].order].status.Pending? && Settleable(s, s.orders[s.legs[p].order], cfg)
    requires !ReceiptTaken(s.legs, receipt, p)
    ensures PaidVersion(s, Complete(s, p, receipt, amount, cfg).shop, s.legs[p].order, cfg)
  {
    var t := Complete(s, p, receipt, amount, cfg).shop;
    SumUpdated(s.legs, p, t.legs[p], CreditCents(s.legs[p].order));
    SumUpdated(s.legs, p, t.legs[p], TabLegs(s.legs[p].order));
  }

  // The columns of customer c after undoing order o.
  function Refunded(k: Customer, mine: bool, order: Order, tabs: int, credit: int): Customer {
    if mine then
      k.(balance := k.balance - (if tabs > 0 then order.total else 0),
         points := k.points + order.redeemed - order.effects.Points(),
         credit := k.credit + credit)
    else k
  }

  lemma UndoneMoves(s: Shop, o: nat, c: int)
    requires Reversible(s, o) && c in s.customers
    ensures c in Undone(s, o).customers
    ensures var L := LegTally(s.legs, o);
            Undone(s, o).customers[c] == Refunded(s.customers[c], s.orders[o].customer == c, s.orders[o], L.tabs, L.credit)
  {
    PostAllMoves(VoidTables(s, o), Reversals(s, o), c);
    ReversalMoves(s, o, c);
  }

  // after is before with order o's customer refunded.
  predicate RefundedAll(before: map<int, Customer>, after: map<int, Customer>, order: Order, tabs: int, credit: int) {
    && after.Keys == before.Keys
    && forall c :: c in before ==> after[c] == Refunded(before[c], order.customer == c, order, tabs, credit)
  }

  lemma UndoneRefunds(s: Shop, o: nat)
    requires Reversible(s, o)
    ensures RefundedAll(s.customers, Undone(s, o).customers, s.orders[o], LegTally(s.legs, o).tabs, LegTally(s.legs, o).credit)
  {
    forall c | c in s.customers
      ensures c in Undone(s, o).customers
      ensures Undone(s, o).customers[c]
              == Refunded(s.customers[c], s.orders[o].customer == c, s.orders[o], LegTally(s.legs, o).tabs, LegTally(s.legs, o).credit)
    {
      UndoneMoves(s, o, c);
    }
  }

  // after is before with the points the order earned.
  predicate EarnedAll(before: map<int, Customer>, after: map<int, Customer>, customer: int, earned: int) {
    && after.Keys == before.Keys
    && forall c :: c in before ==>
         after[c] == before[c].(points := before[c].points + if customer == c then earned else 0)
  }

  // Earning and then refunding what was earned is refunding alone.
  lemma RefundsMeet(k: map<int, Customer>, paid: map<int, Customer>, a: map<int, Customer>, b: map<int, Customer>,
                    order: Order, after: Order, tabs: int, credit: int)
    requires RefundedAll(k, b, order, tabs, credit) && order.effects.Unpaid?
    requires EarnedAll(k, paid, order.customer, after.effects.Points())
    requires RefundedAll(paid, a, after, tabs, credit)
    requires after == order.(status := after.status, flagged := after.flagged, effects := after.effects)
    ensures a == b
  {
    assert a.Keys == b.Keys;
    forall c | c in k
      ensures a[c] == b[c]
    {
      assert paid[c] == k[c].(points := paid[c].points);
    }
  }

  lemma SettleEarns(s: Shop, o: nat, cfg: Config)
    requires o < |s.orders| && Settleable(s, s.orders[o], cfg) && NO_CUSTOMER !in s.customers
    ensures EarnedAll(s.customers, Settle(s, o, cfg).customers, s.orders[o].customer, EarnDue(s.orders[o], cfg))
  {
  }

  // Undoing the paid order and undoing the pending one leave the customers alike.
  lemma CustomersMeet(s: Shop, t: Shop, o: nat, cfg: Config)
    requires Meeting(s, t, o, cfg)
    ensures Undone(t, o).customers == Undone(s, o).customers
  {
    UndoneRefunds(s, o);
    UndoneRefunds(t, o);
    SettleEarns(s, o, cfg);
    RefundsMeet(s.customers, t.customers, Undone(t, o).customers, Undone(s, o).customers, s.orders[o], t.orders[o],
                LegTally(s.legs, o).tabs, LegTally(s.legs, o).credit);
  }

  lemma UndoneShelf(s: Shop, o: nat)
    requires Reversible(s, o)
    ensures Undone(s, o).products == if s.orders[o].status.Paid? then Restore(s.products, s.orders[o].lines) else s.products
  {
  }

  lemma DeductThenRestore(ps: map<int, Product>, lines: seq<Line>, q: int)
    requires q in ps
    ensures var d := Deduct(ps, lines); var qs := Restore(d.products, lines);
            q in qs && qs[q] == ps[q].(stock := ps[q].stock + SkippedQty(lines, d.taken, q))
  {
    var d := Deduct(ps, lines);
    DeductStock(ps, lines, q);
    DeductKeeps(ps, lines);
    RestoreStock(d.products, lines, q);
    RestoreKeeps(d.products, lines);
  }

  // Paying first leaves the lines completion skipped on the shelf as well.
  lemma ShelvesMeet(s: Shop, t: Shop, o: nat, cfg: Config, q: int)
    requires Meeting(s, t, o, cfg) && q in s.products
    ensures Undone(s, o).products == s.products && q in Undone(t, o).products
    ensures var lines := s.orders[o].lines;
            Undone(t, o).products[q]
            == s.products[q].(stock := s.products[q].stock + SkippedQty(lines, Deduct(s.products, lines).taken, q))
  {
    UndoneShelf(s, o);
    UndoneShelf(t, o);
    DeductThenRestore(s.products, s.orders[o].lines, q);
  }

  lemma CardsMeet(s: Shop, t: Shop, o: nat, cfg: Config)
    requires Meeting(s, t, o, cfg)
    ensures Spendable(Undone(t, o).cards) == Spendable(Undone(s, o).cards)
  {
    forall k | k in s.cards
      ensures k.order != o
    {
      var i :| 0 <= i < |s.cards| && s.cards[i] == k;
      SumCounts(s.cards, MintedBy(o), i);
    }
    MintThenVoid(s.cards, o, s.orders[o].lines, s.products);
  }

  lemma ShelvesMeetCovered(s: Shop, t: Shop, o: nat, cfg: Config, q: int)
    requires Meeting(s, t, o, cfg) && q in s.products
    requires Distinct(s.orders[o].lines) && forall l :: l in s.orders[o].lines ==> Covers(s.products, l)
    ensures q in Undone(t, o).products && Undone(t, o).products[q] == s.products[q]
  {
    var lines := s.orders[o].lines;
    var taken := Deduct(s.products, lines).taken;
    forall i | 0 <= i < |lines|
      ensures taken[i]
    {
      DeductTakes(s.products, lines, i);
      assert lines[i] in lines;
    }
    ShelvesMeet(s, t, o, cfg, q);
    NothingSkipped(lines, taken, q);
  }

  lemma ShelvesPart(s: Shop, t: Shop, o: nat, cfg: Config, l: Line)
    requires Meeting(s, t, o, cfg) && GoodLines(s.products, s.orders[o].lines)
    requires l in s.orders[o].lines && !Covers(s.products, l)
    ensures l.product in Undone(t, o).products && Undone(t, o).products[l.product] != s.products[l.product]
  {
    var lines := s.orders[o].lines;
    var i :| 0 <= i < |lines| && lines[i] == l;
    DeductTakes(s.products, lines, i);
    SkippedLine(lines, Deduct(s.products, lines).taken, i);
    ShelvesMeet(s, t, o, cfg, l.product);
  }

  // The shelves agree exactly when every line is tracked and covered by stock.
  lemma ShelvesMeetIff(s: Shop, t: Shop, o: nat, cfg: Config)
    requires Meeting(s, t, o, cfg) && GoodLines(s.products, s.orders[o].lines)
    ensures Undone(t, o).products == Undone(s, o).products
            <==> (forall l :: l in s.orders[o].lines ==> Covers(s.products, l))
  {
    var lines := s.orders[o].lines;
    assert Undone(t, o).products.Keys == s.products.Keys by {
      DeductKeeps(s.products, lines);
      RestoreKeeps(t.products, lines);
    }
    assert Undone(s, o).products == s.products;
    if forall l :: l in lines ==> Covers(s.products, l) {
      forall q | q in s.products
        ensures Undone(t, o).products[q] == s.products[q]
      {
        ShelvesMeetCovered(s, t, o, cfg, q);
      }
    } else {
      var l :| l in lines && !Covers(s.products, l);
      ShelvesPart(s, t, o, cfg, l);
    }
  }

  // A PENDING order, one of its open legs, and a completion that will be accepted.
  predicate Racing(s: Shop, p: nat, receipt: string, cfg: Config, caller: Caller) {
    && Inv(s) && p < |s.legs| && !s.legs[p].status.LegCompleted? && MayVoid(s, s.legs[p].order, caller)
    && s.orders[s.legs[p].order].status.Pending? && Settleable(s, s.orders[s.legs[p].order], cfg)
    && !ReceiptTaken(s.legs, receipt, p)
  }

  // The payment commits first, then the void.
  lemma PaidFirst(s: Shop, p: nat, receipt: string, amount: int, cfg: Config, caller: Caller) returns (t: Shop)
    requires Racing(s, p, receipt, cfg, caller)
    ensures var o := s.legs[p].order;
            && t == Complete(s, p, receipt, amount, cfg).shop
            && Reversible(t, o) && PaidVersion(s, t, o, cfg)
            && Void(t, o, caller) == Tx(Undone(t, o), Ok)
  {
    t := Complete(s, p, receipt, amount, cfg).shop;
    CompleteKeeps(s, p, receipt, amount, cfg);
    CompletePays(s, p, receipt, amount, cfg);
    VoidSucceeds(t, s.legs[p].order, caller);
  }

  // The void commits first; the late money only fails its leg.
  lemma VoidedFirst(s: Shop, p: nat, receipt: string, amount: int, cfg: Config, caller: Caller) returns (u: Shop)
    requires Racing(s, p, receipt, cfg, caller)
    ensures var o := s.legs[p].order;
            && Reversible(s, o) && u == Undone(s, o) && Void(s, o, caller) == Tx(u, Ok)
            && |u.legs| == |s.legs|
            && Complete(u, p, receipt, amount, cfg).shop == u.(legs := u.legs[p := u.legs[p].(status := LegFailed)])
  {
    var o := s.legs[p].order;
    VoidSucceeds(s, o, caller);
    u := Undone(s, o);
  }

  // Whichever commits first, the order ends VOIDED with the same customers and
  // the same spendable gift cards, and with the same shelves exactly when every
  // line is tracked and covered by stock.
  lemma CommitOrderIsIrrelevant(s: Shop, p: nat, receipt: string, amount: int, cfg: Config, caller: Caller)
    requires Racing(s, p, receipt, cfg, caller)
    ensures var o := s.legs[p].order;
            var a := Void(Complete(s, p, receipt, amount, cfg).shop, o, caller).shop;
            var b := Complete(Void(s, o, caller).shop, p, receipt, amount, cfg).shop;
            && o < |a.orders| && o < |b.orders| && a.orders[o].status.Voided? && b.orders[o].status.Voided?
            && a.customers == b.customers
            && Spendable(a.cards) == Spendable(b.cards)
            && (a.products == b.products <==> forall l :: l in s.orders[o].lines ==> Covers(s.products, l))
  {
    var o := s.legs[p].order;
    var t := PaidFirst(s, p, receipt, amount, cfg, caller);
    var u := VoidedFirst(s, p, receipt, amount, cfg, caller);
    assert s.orders[o] in s.orders;
    CustomersMeet(s, t, o, cfg);
    CardsMeet(s, t, o, cfg);
    ShelvesMeetIff(s, t, o, cfg);
  }
}
