// Single steps of the loops in the till's transactions, and the functions that say
// what the loops add up to.

module TillSteps {
  import opened Sums
  import opened Tables
  import opened Tallies
  import opened TallyLaws
  import opened Orders
  import opened Transitions
  import opened Runs
  import opened StockLaw
  import opened TabSettlement

  // ---- one more line of a loop over the order's lines ----

  lemma DeductStep(ps: map<int, Product>, lines: seq<Line>, i: nat)
    requires i < |lines|
    ensures var d := Deduct(ps, lines[..i]); var e := Deduct(ps, lines[..i + 1]);
            e == if Covers(d.products, lines[i]) then Deduction(TakeLine(d.products, lines[i]), d.taken + [true])
                 else Deduction(d.products, d.taken + [false])
  {
    assert lines[..i + 1][..i] == lines[..i];
  }

  lemma RestoreStep(ps: map<int, Product>, lines: seq<Line>, i: nat)
    requires i < |lines|
    ensures var qs := Restore(ps, lines[..i]); var l := lines[i];
            Restore(ps, lines[..i + 1])
            == if l.product in qs then qs[l.product := qs[l.product].(stock := qs[l.product].stock + l.qty)] else qs
  {
    assert lines[..i + 1][..i] == lines[..i];
  }

  lemma MintStep(o: nat, lines: seq<Line>, ps: map<int, Product>, i: nat)
    requires i < |lines|
    ensures var l := lines[i];
            Mint(o, lines[..i + 1], ps)
            == Mint(o, lines[..i], ps)
               + if l.product in ps && ps[l.product].gift then seq(l.qty, _ => Card(o, l.price, l.price, CardActive, NO_CUSTOMER)) else []
  {
    assert lines[..i + 1][..i] == lines[..i];
  }

  lemma {:induction false} MintSame(o: nat, lines: seq<Line>, ps: map<int, Product>, qs: map<int, Product>)
    requires SameCatalogue(ps, qs)
    ensures Mint(o, lines, ps) == Mint(o, lines, qs)
  {
    if lines != [] {
      MintSame(o, lines[..|lines| - 1], ps, qs);
    }
  }

  // Some tracked line among these was not taken.
  predicate Missed(ps: map<int, Product>, lines: seq<Line>, taken: seq<bool>)
    requires |taken| <= |lines|
  {
    exists i :: 0 <= i < |taken| && lines[i].product in ps && ps[lines[i].product].tracked && !taken[i]
  }

  // With one line per product, checking every line beforehand is enough.
  lemma CoveredIffNotShort(ps: map<int, Product>, lines: seq<Line>)
    requires Distinct(lines)
    ensures Covered(ps, lines) <==> !Short(ps, lines)
  {
    forall i | 0 <= i < |lines|
      ensures Deduct(ps, lines).taken[i] == Covers(ps, lines[i])
    {
      DeductTakes(ps, lines, i);
    }
    if !Covered(ps, lines) {
      var l :| l in lines && l.product in ps && ps[l.product].tracked && l.qty > ps[l.product].stock;
      var i :| 0 <= i < |lines| && lines[i] == l;
    }
  }

  // The order row after the PENDING -> PAID transition.
  function PaidOrder(s: Shop, o: nat, cfg: Config): Order
    requires o < |s.orders|
  {
    var order := s.orders[o];
    order.(status := Paid, effects := PaidWith(Deduct(s.products, order.lines).taken, EarnDue(order, cfg)))
  }

  // Settle before its gift cards are minted.
  function Unminted(s: Shop, o: nat, cfg: Config): Shop
    requires o < |s.orders| && Settleable(s, s.orders[o], cfg)
  {
    var earned := EarnDue(s.orders[o], cfg);
    PostIf(s.(products := Deduct(s.products, s.orders[o].lines).products, orders := s.orders[o := PaidOrder(s, o, cfg)]),
           earned > 0, EarnRow(s.orders[o], o, earned))
  }

  function Marked(s: Shop, o: nat): Shop
    requires o < |s.orders|
  {
    s.(orders := s.orders[o := s.orders[o].(status := Paid)])
  }

  // Marking the order, fulfilling it and minting its cards settle it.
  lemma SettleInSteps(s: Shop, o: nat, cfg: Config)
    requires o < |s.orders| && Settleable(s, s.orders[o], cfg)
    ensures Settleable(Marked(s, o), Marked(s, o).orders[o], cfg)
    ensures var t := Unminted(Marked(s, o), o, cfg);
            && |t.orders| == |s.orders| && t.orders[o].lines == s.orders[o].lines
            && Settle(s, o, cfg) == t.(cards := t.cards + Mint(o, s.orders[o].lines, t.products))
  {
    assert Marked(s, o).orders[o := PaidOrder(Marked(s, o), o, cfg)] == s.orders[o := PaidOrder(s, o, cfg)];
    DeductKeeps(s.products, s.orders[o].lines);
    MintSame(o, s.orders[o].lines, s.products, Deduct(s.products, s.orders[o].lines).products);
  }

  lemma RunTwo(s: Shop, a: Op, b: Op)
    ensures Run(s, [a, b]) == Step(Step(s, a), b)
  {
    assert [a, b][..1] == [a];
    assert [a][..0] == [];
    assert Run(s, [a]) == Step(s, a);
  }

  // The first hit stays the answer however many legs follow it.
  lemma {:induction false} FindStays(legs: seq<Leg>, checkout: string, i: nat)
    requires i < |legs| && FindCheckout(legs[..i], checkout) == i
    requires legs[i].checkout == checkout || legs[i].checkout == BUNI_PREFIX + checkout
    ensures FindCheckout(legs, checkout) == i
  {
    var n := |legs| - 1;
    if i < n {
      assert legs[..n][..i] == legs[..i];
      FindStays(legs[..n], checkout, i);
    }
  }

  function Due(rows: seq<Row>, due: bool, r: Row): seq<Row> {
    if due then rows + [r] else rows
  }

  // Reversals with its sums already taken, one row after the other.
  function ReversalsOf(order: Order, o: nat, creditUsed: int, tabs: int, earned: int): seq<Row> {
    PointRows(MoneyRows(order, o, creditUsed, tabs), order, o, earned)
  }

  function MoneyRows(order: Order, o: nat, creditUsed: int, tabs: int): seq<Row> {
    Due(Due([], creditUsed > 0, Row(order.customer, o, CreditTopup, creditUsed, 0, Plain)),
        tabs > 0, Row(order.customer, o, Adjustment, -order.total, 0, Plain))
  }

  function PointRows(rows: seq<Row>, order: Order, o: nat, earned: int): (now: seq<Row>)
    ensures |rows| <= |now|
  {
    Due(Due(rows, earned > 0, Row(order.customer, o, Loyalty, 0, -earned, Plain)),
        order.redeemed > 0, Row(order.customer, o, Loyalty, 0, order.redeemed, Plain))
  }

  lemma RowByRow(order: Order, o: nat, creditUsed: int, tabs: int, earned: int)
    ensures ReversalsOf(order, o, creditUsed, tabs, earned)
            == ReversalRowsOf(order.customer, o, creditUsed, tabs > 0, order.total, earned, order.redeemed)
  {
  }

  lemma ReversalsInOrder(s: Shop, o: nat)
    requires o < |s.orders| && s.orders[o].customer != NO_CUSTOMER
    ensures var order := s.orders[o];
            Reversals(s, o)
            == ReversalsOf(order, o, Sum(VoidLegs(s.legs, o), VoidedCredit(o)), Sum(s.legs, TabLegs(o)),
                           if order.status.Paid? then Sum(s.ledger, PointsGained(o)) else 0)
  {
    var order := s.orders[o];
    ReversalsAre(s, o);
    RowByRow(order, o, LegTally(VoidLegs(s.legs, o), o).voidedCredit, LegTally(s.legs, o).tabs,
             if order.status.Paid? then RowTally(s.ledger, o).gained else 0);
  }

  lemma TabsStay(legs: seq<Leg>, o: nat)
    ensures Sum(VoidLegs(legs, o), TabLegs(o)) == Sum(legs, TabLegs(o))
  {
    SumMatched(VoidLegs(legs, o), TabLegs(o), legs, TabLegs(o));
  }

  predicate AllKnown(s: Shop, rows: seq<Row>) {
    forall x :: x in rows ==> x.customer in s.customers
  }

  // Refunds and tab reversals are no loyalty gain.
  lemma NothingGained(rows: seq<Row>, added: seq<Row>, o: nat)
    requires forall x :: x in added ==> !x.kind.Loyalty?
    ensures Sum(rows + added, PointsGained(o)) == Sum(rows, PointsGained(o))
  {
    SumConcat(rows, added, PointsGained(o));
    SumZero(added, PointsGained(o));
  }

  function EarnedIn(ledger: seq<Row>, o: nat, paid: bool): int {
    if paid then Sum(ledger, PointsGained(o)) else 0
  }

  // All rows went in, or the customer they name is not on file.
  ghost predicate Reversed(s: Shop, t: Shop, customer: int, rows: seq<Row>, ok: bool) {
    && (ok <==> |rows| == 0 || customer in s.customers)
    && (ok ==> AllKnown(s, rows) && t == PostAll(s, rows))
  }

  lemma PostOneMore(s: Shop, rows: seq<Row>, r: Row)
    requires AllKnown(s, rows)
    ensures r.customer in s.customers ==> PostAll(s, rows + [r]) == Tables.Post(PostAll(s, rows), r)
  {
  }

  lemma {:induction false} TabStays(legs: seq<Leg>, o: nat, i: nat)
    requires i < |legs| && TabLeg(legs[..i], o) == i
    requires legs[i].order == o && legs[i].rail == Account && legs[i].status == LegPending
    ensures TabLeg(legs, o) == i
  {
    var n := |legs| - 1;
    if i < n {
      assert legs[..n][..i] == legs[..i];
      TabStays(legs[..n], o, i);
    }
  }

  // ---- a settlement call with no other call in between ----

  function SettleMoves(mpesa: bool, code: string, cfg: Config): seq<Move> {
    [Read(0), if mpesa then PayMpesa(0, code, cfg) else PayCash(0, cfg), Move.Post(0)]
  }

  function AfterPayment(s: Shop, o: nat, tx: Tx): System {
    var t := tx.shop;
    if !tx.out.Ok? then System(t, [GaveUp])
    else if o < |t.orders| && t.orders[o].customer in t.customers then System(PostSettlement(t, o), [Succeeded])
    else System(t, [GaveUp])
  }

  lemma AloneBehaves(s: Shop, o: nat, mpesa: bool, code: string, cfg: Config)
    ensures Behave(System(s, [Start]), o, SettleMoves(mpesa, code, cfg))
            == if ReadPhase(s, o).GaveUp? then System(s, [GaveUp])
               else AfterPayment(s, o, if mpesa then Orders.ManualConfirm(s, o, code, cfg)
                                       else Complete(s, ReadPhase(s, o).leg, "", s.legs[ReadPhase(s, o).leg].amount, cfg))
  {
    var sys := System(s, [Start]);
    var moves := SettleMoves(mpesa, code, cfg);
    assert moves[..2][..1] == moves[..1] == [Read(0)];
    assert moves[..2][1] == moves[1];
    assert [Read(0)][..0] == [];
    var one := Next(sys, o, moves[0]);
    assert Behave(sys, o, moves[..1]) == one;
    assert one == System(s, [ReadPhase(s, o)]);
    assert Behave(sys, o, moves[..2]) == Next(one, o, moves[1]);
  }

  // ---- push ----

  // Leg i is a prompt of the same order, sent within the session window.
  predicate BusyLeg(legs: seq<Leg>, p: nat, recent: set<nat>, i: int)
    requires p < |legs| && 0 <= i < |legs|
  {
    i != p && i in recent && legs[i].order == legs[p].order && legs[i].rail == Mpesa && BUNI_PREFIX <= legs[i].checkout
  }

  predicate PromptBusy(legs: seq<Leg>, p: nat, recent: set<nat>)
    requires p < |legs|
  {
    exists i :: 0 <= i < |legs| && BusyLeg(legs, p, recent, i)
  }

  function PushEnd(p: nat, accepted: bool, checkout: string): Op {
    if accepted then DoBind(p, BUNI_PREFIX + checkout) else DoFail(p)
  }

  // A push is a run of at most two ordinary transactions.
  function PushOps(legs: seq<Leg>, p: nat, recent: set<nat>, accepted: bool, checkout: string): seq<Op>
    requires p < |legs|
  {
    if !legs[p].hasPhone || PromptBusy(legs, p, recent) then [] else [DoStartPush(p), PushEnd(p, accepted, checkout)]
  }

  // ---- sweeper and recheck ----

  const SWEEP_LIMIT: nat := 100

  predicate Sweepable(leg: Leg) {
    leg.rail == Mpesa && BUNI_PREFIX <= leg.checkout && (leg.status == LegPending || leg.status == LegFailed)
  }

  // The newest sweepable legs below id n, at most room of them.
  function Candidates(legs: seq<Leg>, n: nat, room: nat): seq<nat>
    requires n <= |legs|
  {
    if n == 0 || room == 0 then []
    else if Sweepable(legs[n - 1]) then [n - 1] + Candidates(legs, n - 1, room - 1)
    else Candidates(legs, n - 1, room)
  }

  lemma {:induction false} CandidatesInRange(legs: seq<Leg>, n: nat, room: nat)
    requires n <= |legs|
    ensures |Candidates(legs, n, room)| <= room
    ensures forall i :: i in Candidates(legs, n, room) ==> i < n && Sweepable(legs[i])
  {
    if n > 0 && room > 0 {
      CandidatesInRange(legs, n - 1, if Sweepable(legs[n - 1]) then room - 1 else room);
    }
  }

  // A sweepable leg is left out only when the batch is full of newer ones.
  lemma {:induction false} CandidatesComplete(legs: seq<Leg>, n: nat, room: nat, i: nat)
    requires i < n <= |legs| && Sweepable(legs[i]) && i !in Candidates(legs, n, room)
    ensures |Candidates(legs, n, room)| == room
    ensures forall j :: j in Candidates(legs, n, room) ==> i < j
  {
    if room > 0 {
      CandidatesComplete(legs, n - 1, if Sweepable(legs[n - 1]) then room - 1 else room, i);
    }
  }

  function TimeoutOps(found: seq<nat>, expired: set<nat>): seq<Op> {
    if found == [] then []
    else
      var ops := TimeoutOps(found[..|found| - 1], expired);
      if found[|found| - 1] in expired then ops + [DoFail(found[|found| - 1])] else ops
  }

  function CallbackOps(events: seq<Callback>, cfg: Config): seq<Op> {
    if events == [] then []
    else CallbackOps(events[..|events| - 1], cfg) + [DoCallback(events[|events| - 1], cfg)]
  }

  // A sweep is a run of ordinary transactions.
  function SweepOps(legs: seq<Leg>, expired: set<nat>, events: seq<Callback>, cfg: Config): seq<Op> {
    var found := Candidates(legs, |legs|, SWEEP_LIMIT);
    if found == [] then [] else TimeoutOps(found, expired) + CallbackOps(events, cfg)
  }

  lemma {:induction false} RunConcat(s: Shop, a: seq<Op>, b: seq<Op>)
    ensures Run(s, a + b) == Run(Run(s, a), b)
  {
    if b == [] {
      assert a + b == a;
    } else {
      assert (a + b)[..|a + b| - 1] == a + b[..|b| - 1];
      RunConcat(s, a, b[..|b| - 1]);
    }
  }

  lemma RunOneMore(s: Shop, ops: seq<Op>, op: Op)
    ensures Run(s, ops + [op]) == Step(Run(s, ops), op)
  {
  }

  // Plain STK legs can be queried; Buni legs only hear from callbacks.
  predicate Queryable(leg: Leg, o: nat) {
    leg.order == o && leg.rail == Mpesa && leg.status == LegPending && leg.checkout != "" && !(BUNI_PREFIX <= leg.checkout)
  }

  function FirstConfirmed(legs: seq<Leg>, o: nat, answers: nat -> Callback): (p: nat)
    ensures p <= |legs|
  {
    if legs == [] then 0
    else
      var n := |legs| - 1;
      var p := FirstConfirmed(legs[..n], o, answers);
      if p < n then p else if Queryable(legs[n], o) && answers(n).success then n else |legs|
  }

  lemma {:induction false} ConfirmedStays(legs: seq<Leg>, o: nat, answers: nat -> Callback, i: nat)
    requires i < |legs| && FirstConfirmed(legs[..i], o, answers) == i && Queryable(legs[i], o) && answers(i).success
    ensures FirstConfirmed(legs, o, answers) == i
  {
    var n := |legs| - 1;
    if i < n {
      assert legs[..n][..i] == legs[..i];
      ConfirmedStays(legs[..n], o, answers, i);
    }
  }

  function Recheck(s: Shop, o: nat, answers: nat -> Callback, cfg: Config): Tx {
    if o >= |s.orders| then Tx(s, Err(NotFound))
    else if s.orders[o].status == Paid then Tx(s, Ok)
    else if s.orders[o].status != Pending then Tx(s, Err(InvalidState))
    else
      var p := FirstConfirmed(s.legs, o, answers);
      if p >= |s.legs| then Tx(s, Ok) else Complete(s, p, answers(p).receipt, answers(p).amount, cfg)
  }

  // ---- checkout ----

  lemma {:induction false} OpenStaysShut(s: Shop, o: nat, cart: Cart, specs: seq<LegSpec>, n: nat)
    requires n <= |specs| && OpenLegs(s, o, cart, specs[..n]) == RolledBack
    ensures OpenLegs(s, o, cart, specs) == RolledBack
  {
    if n == |specs| {
      assert specs[..n] == specs;
    } else {
      assert specs[..|specs| - 1][..n] == specs[..n];
      OpenStaysShut(s, o, cart, specs[..|specs| - 1], n);
    }
  }

  lemma OneTender(s: Shop, o: nat, cart: Cart, spec: LegSpec)
    ensures OpenLegs(s, o, cart, [spec]) == OpenLeg(s, o, cart, spec)
  {
  }

  // Opening the tender does not touch the shelves.
  lemma {:induction false} OpenKeepsShelves(s: Shop, o: nat, cart: Cart, specs: seq<LegSpec>)
    requires OpenLegs(s, o, cart, specs).Done?
    ensures OpenLegs(s, o, cart, specs).shop.products == s.products
  {
    if specs != [] {
      OpenKeepsShelves(s, o, cart, specs[..|specs| - 1]);
    }
  }

  // An instant sale that stock does not cover is refused whenever the check runs.
  lemma UncoveredRollsBack(s: Shop, o: nat, cart: Cart, cfg: Config)
    requires o < |s.orders| && Distinct(cart.lines) && cart.Instant() && !Covered(s.products, cart.lines)
    ensures OpenLegs(s, o, cart, cart.Specs()).Done?
            ==> FinishCheckout(OpenLegs(s, o, cart, cart.Specs()).shop, o, cart, cfg) == RolledBack
  {
    if OpenLegs(s, o, cart, cart.Specs()).Done? {
      OpenKeepsShelves(s, o, cart, cart.Specs());
      CoveredIffNotShort(s.products, cart.lines);
    }
  }
}
