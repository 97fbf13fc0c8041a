// The order transactions as the service runs them: statement by statement on the
// tables, with a rollback to the state the transaction began in. Each method is
// proved to compute the transaction function of the same name.

module Tills {
  import opened Sums
  import opened Tables
  import opened Tallies
  import opened TallyLaws
  import opened Orders
  import opened Soundness
  import opened Runs
  import opened LegRules
  import opened TabSettlement
  import opened TillSteps

  class Till {
    var products: map<int, Product>
    var customers: map<int, Customer>
    var orders: seq<Order>
    var legs: seq<Leg>
    var ledger: seq<Row>
    var cards: seq<Card>

    function State(): Shop
      reads this
    {
      Shop(products, customers, orders, legs, ledger, cards)
    }

    method Rollback(saved: Shop)
      modifies this
      ensures State() == saved
    {
      products, customers, orders, legs, ledger, cards :=
        saved.products, saved.customers, saved.orders, saved.legs, saved.ledger, saved.cards;
    }

    // ---- ledger ----

    method RecordLedger(r: Row) returns (ok: bool)
      modifies this`ledger, this`customers
      ensures ok <==> r.customer in old(customers)
      ensures ok ==> State() == Tables.Post(old(State()), r)
      ensures !ok ==> State() == old(State())
    {
      ok := r.customer in customers;
      if ok {
        ledger := ledger + [r];
        var c := customers[r.customer];
        if r.kind.IsCredit() {
          customers := customers[r.customer := c.(credit := c.credit + r.amount)];
        } else {
          customers := customers[r.customer := c.(balance := c.balance + r.amount, points := c.points + r.points)];
        }
      }
    }

    method RecordLedgerNoBalance(r: Row) returns (ok: bool)
      modifies this`ledger
      ensures ok <==> r.customer in customers
      ensures ledger == if ok then old(ledger) + [r] else old(ledger)
    {
      ok := r.customer in customers;
      if ok {
        ledger := ledger + [r];
      }
    }

    // ---- stock ----

    // UPDATE ... SET stock_qty = stock_qty - qty WHERE stock_qty >= qty.
    method TakeStock(l: Line) returns (hit: bool)
      requires l.product in products && products[l.product].tracked
      modifies this`products
      ensures hit <==> Covers(old(products), l)
      ensures products == if hit then TakeLine(old(products), l) else old(products)
    {
      var p := products[l.product];
      hit := l.qty <= p.stock;
      if hit {
        products := products[l.product := p.(stock := p.stock - l.qty)];
      }
    }

    // The deduction loop of a completion: a missed line is noted, not refused.
    method TakeLines(lines: seq<Line>) returns (ok: bool, taken: seq<bool>, missed: bool)
      modifies this`products
      ensures ok <==> KnownLines(old(products), lines)
      ensures ok ==> Deduction(products, taken) == Deduct(old(products), lines) && missed == Short(old(products), lines)
    {
      ghost var was := products;
      taken, missed := [], false;
      for i := 0 to |lines|
        invariant Deduction(products, taken) == Deduct(was, lines[..i])
        invariant SameCatalogue(was, products)
        invariant KnownLines(was, lines[..i])
        invariant missed == Missed(was, lines, taken)
      {
        var l := lines[i];
        if l.product !in products {
          assert l in lines;
          return false, taken, missed;
        }
        DeductStep(was, lines, i);
        assert lines[..i + 1] == lines[..i] + [l];
        if products[l.product].tracked {
          var hit := TakeStock(l);
          taken := taken + [hit];
          if !hit {
            missed := true;
            assert !taken[i];
          }
        } else {
          taken := taken + [false];
        }
      }
      assert lines[..|lines|] == lines;
      ok := true;
    }

    // The read-only check before money is taken.
    method StockCovers(lines: seq<Line>) returns (ok: bool)
      requires KnownLines(products, lines)
      ensures ok <==> Covered(products, lines)
    {
      for i := 0 to |lines|
        invariant forall l :: l in lines[..i] && products[l.product].tracked ==> l.qty <= products[l.product].stock
      {
        var l := lines[i];
        assert l in lines && lines[..i + 1] == lines[..i] + [l];
        if products[l.product].tracked && products[l.product].stock < l.qty {
          return false;
        }
      }
      assert lines[..|lines|] == lines;
      ok := true;
    }

    // ---- the effects of being paid ----

    method EarnLoyalty(o: nat, cfg: Config) returns (ok: bool, earned: int)
      requires o < |orders|
      modifies this`ledger, this`customers
      ensures earned == EarnDue(old(orders)[o], cfg)
      ensures ok <==> (earned > 0 ==> old(orders)[o].customer in old(customers))
      ensures ok ==> State() == PostIf(old(State()), earned > 0, EarnRow(old(orders)[o], o, earned))
    {
      var order := orders[o];
      if order.customer == NO_CUSTOMER || !cfg.loyalty || cfg.earnPer <= 0 || order.total <= 0 {
        return true, 0;
      }
      earned := order.total / cfg.earnPer;
      if earned <= 0 {
        return true, 0;
      }
      ok := RecordLedger(EarnRow(order, o, earned));
    }

    // One card per unit of every gift-card line.
    method IssueGiftCards(o: nat)
      requires o < |orders|
      modifies this`cards
      ensures cards == old(cards) + Mint(o, orders[o].lines, products)
    {
      var lines := orders[o].lines;
      for i := 0 to |lines|
        invariant cards == old(cards) + Mint(o, lines[..i], products)
      {
        var l := lines[i];
        MintStep(o, lines, products, i);
        if l.product in products && products[l.product].gift {
          var card := Card(o, l.price, l.price, CardActive, NO_CUSTOMER);
          ghost var before := cards;
          for u := 0 to l.qty
            invariant cards == before + seq(u, _ => card)
          {
            cards := cards + [card];
          }
        }
      }
      assert lines[..|lines|] == lines;
    }

    // UPDATE orders SET status = 'PAID' WHERE status = 'PENDING'.
    method MarkPaid(o: nat) returns (won: bool)
      requires o < |orders|
      modifies this`orders
      ensures won <==> old(orders)[o].status.Pending?
      ensures orders == if won then old(orders)[o := old(orders)[o].(status := Paid)] else old(orders)
    {
      won := orders[o].status == Pending;
      if won {
        orders := orders[o := orders[o].(status := Paid)];
      }
    }

    method RaiseFlag(o: nat)
      requires o < |orders|
      modifies this`orders
      ensures orders == old(orders)[o := old(orders)[o].(flagged := true)]
    {
      orders := orders[o := orders[o].(flagged := true)];
    }

    // Stock and loyalty of an order whose status update won.
    method Fulfil(o: nat, cfg: Config) returns (ok: bool, missed: bool)
      requires o < |orders| && orders[o].status.Paid?
      modifies this`products, this`orders, this`ledger, this`customers
      ensures ok <==> Settleable(old(State()), old(orders)[o], cfg)
      ensures ok ==> missed == Short(old(products), old(orders)[o].lines) && State() == Unminted(old(State()), o, cfg)
    {
      var order := orders[o];
      var taken, earned;
      ok, taken, missed := TakeLines(order.lines);
      if !ok {
        return;
      }
      ok, earned := EarnLoyalty(o, cfg);
      orders := orders[o := order.(effects := PaidWith(taken, earned))];
    }

    // ---- completion ----

    method FindReceipt(receipt: string, p: nat) returns (found: bool)
      ensures found <==> ReceiptTaken(legs, receipt, p)
    {
      if receipt == "" {
        return false;
      }
      for j := 0 to |legs|
        invariant forall k :: 0 <= k < j && k != p ==> legs[k].receipt != receipt
      {
        if j != p && legs[j].receipt == receipt {
          return true;
        }
      }
      found := false;
    }

    method CompletePayment(p: nat, receipt: string, amount: int, cfg: Config) returns (out: Outcome)
      modifies this
      ensures Tx(State(), out) == Complete(old(State()), p, receipt, amount, cfg)
    {
      if p >= |legs| || legs[p].order >= |orders| {
        return Err(NotFound);
      }
      var saved := State();
      var leg := legs[p];
      var o := leg.order;
      if leg.status == LegCompleted {
        return Ok;
      }
      if orders[o].status == Voided {
        legs := legs[p := leg.(status := LegFailed)];
        return Err(InvalidState);
      }
      var taken := FindReceipt(receipt, p);
      if taken {
        return Err(DuplicateReceipt);
      }
      var discrepancy := amount <= 0 || amount != leg.amount;
      var won := MarkPaid(o);
      if won {
        if Settleable(saved, saved.orders[o], cfg) {
          SettleInSteps(saved, o, cfg);
        }
        var ok, missed := Fulfil(o, cfg);
        if !ok {
          Rollback(saved);
          return Err(NotFound);
        }
        if missed {
          discrepancy := true;
        }
      } else {
        discrepancy := true;
      }
      legs := legs[p := leg.(status := LegCompleted, receipt := if receipt != "" then receipt else leg.receipt, flagged := discrepancy)];
      if discrepancy {
        RaiseFlag(o);
      }
      if won {
        IssueGiftCards(o);
      }
      out := Ok;
    }

    // ---- manual receipt ----

    method PendingLeg(o: nat) returns (p: nat)
      ensures p == LastPending(legs, o)
    {
      p := 0;
      for i := 0 to |legs|
        invariant p == LastPending(legs[..i], o)
      {
        assert legs[..i + 1][..i] == legs[..i];
        if legs[i].order == o && legs[i].status == LegPending {
          p := i;
        } else if p == i {
          p := i + 1;
        }
      }
      assert legs[..|legs|] == legs;
    }

    method Outstanding(o: nat) returns (amount: int)
      requires o < |orders|
      ensures amount == orders[o].total - LegTally(legs, o).completed
    {
      amount := orders[o].total;
      for i := 0 to |legs|
        invariant amount == orders[o].total - Sum(legs[..i], CompletedCents(o))
      {
        SumAppended(legs[..i], legs[i], CompletedCents(o));
        assert legs[..i + 1] == legs[..i] + [legs[i]];
        if legs[i].order == o && legs[i].status == LegCompleted {
          amount := amount - legs[i].amount;
        }
      }
      assert legs[..|legs|] == legs;
    }

    method ManualConfirm(o: nat, code: string, cfg: Config) returns (out: Outcome)
      modifies this
      ensures Tx(State(), out) == Orders.ManualConfirm(old(State()), o, code, cfg)
    {
      if !ValidReceipt(code) {
        return Err(BadReceipt);
      }
      if o >= |orders| {
        return Err(NotFound);
      }
      if orders[o].status != Pending {
        return Err(if orders[o].status == Paid then AlreadyPaid else InvalidState);
      }
      var p := PendingLeg(o);
      if p == |legs| {
        var amount := Outstanding(o);
        if amount <= 0 {
          return Err(InvalidState);
        }
        legs := legs + [Leg(o, Mpesa, amount, LegPending, false, "", "", false)];
      }
      out := CompletePayment(p, code, legs[p].amount, cfg);
    }

    // ---- phone retry and push ----

    method ReadPending(o: nat) returns (seen: seq<nat>)
      ensures (set i | i in seen) == PendingLegs(legs, o)
      ensures forall i :: i in seen ==> i < |legs|
    {
      seen := [];
      for i := 0 to |legs|
        invariant forall k: nat :: k in seen <==> k < i && legs[k].order == o && legs[k].status == LegPending
      {
        if legs[i].order == o && legs[i].status == LegPending {
          seen := seen + [i];
        }
      }
    }

    // The transaction: each leg of the earlier read is failed by id, whatever it is now.
    method CommitRetry(o: nat, total: int, seen: seq<nat>)
      requires forall i :: i in seen ==> i < |legs|
      modifies this`legs
      ensures State() == RetryCommit(old(State()), o, total, set i | i in seen)
    {
      ghost var was := legs;
      for k := 0 to |seen|
        invariant legs == Supersede(was, set i | i in seen[..k])
      {
        assert seen[..k + 1] == seen[..k] + [seen[k]];
        assert seen[k] in seen;
        legs := legs[seen[k] := legs[seen[k]].(status := LegFailed)];
      }
      assert seen[..|seen|] == seen;
      legs := legs + [Leg(o, Mpesa, RoundToShilling(total), LegPending, true, "", "", false)];
    }

    method Retry(o: nat, phoneOk: bool) returns (out: Outcome)
      modifies this
      ensures Tx(State(), out) == Orders.Retry(old(State()), o, phoneOk)
    {
      if !phoneOk {
        return Err(Refused);
      }
      if o >= |orders| {
        return Err(NotFound);
      }
      if orders[o].status != Pending {
        return Err(InvalidState);
      }
      var seen := ReadPending(o);
      CommitRetry(o, orders[o].total, seen);
      out := Ok;
    }

    // UPDATE payments SET status = 'FAILED' WHERE status = 'PENDING'.
    method FailPending(p: nat)
      requires p < |legs|
      modifies this`legs
      ensures State() == FailLeg(old(State()), p)
    {
      if legs[p].status == LegPending {
        legs := legs[p := legs[p].(status := LegFailed)];
      }
    }

    method SupersedePrompts(p: nat)
      requires p < |legs|
      modifies this`legs
      ensures State() == StartPush(old(State()), p)
    {
      ghost var was := legs;
      var o := legs[p].order;
      for i := 0 to |legs|
        invariant |legs| == |was| && legs[i..] == was[i..] && legs[p].order == o
        invariant forall k :: 0 <= k < i ==> legs[k] == if k == p then was[k] else SupersededByPush(was[k], o)
      {
        assert legs[i] == was[i..][0];
        if i != p && legs[i].order == o && legs[i].rail == Mpesa && legs[i].status == LegPending {
          legs := legs[i := legs[i].(status := LegFailed)];
        }
      }
    }

    method BindCheckout(p: nat, checkout: string)
      requires p < |legs|
      modifies this`legs
      ensures State() == Bind(old(State()), p, checkout)
    {
      if legs[p].status == LegPending && !CheckoutTaken(legs, checkout, p) {
        legs := legs[p := legs[p].(checkout := checkout)];
      }
    }

    // stkPromptBusy: another prompt of the order was sent within the session window.
    method PromptBusyFor(p: nat, recent: set<nat>) returns (busy: bool)
      requires p < |legs|
      ensures busy == PromptBusy(legs, p, recent)
    {
      for i := 0 to |legs|
        invariant forall k :: 0 <= k < i ==> !BusyLeg(legs, p, recent, k)
      {
        if i != p && i in recent && legs[i].order == legs[p].order && legs[i].rail == Mpesa && BUNI_PREFIX <= legs[i].checkout {
          assert BusyLeg(legs, p, recent, i);
          return true;
        }
      }
      busy := false;
    }

    // UPDATE payments SET method = 'mpesa' WHERE status = 'PENDING'.
    method Retag(p: nat)
      requires p < |legs| && (legs[p].hasPhone ==> legs[p].rail == Mpesa)
      modifies this`legs
      ensures legs == old(legs)[p := if old(legs)[p].status == LegPending then old(legs)[p].(rail := Mpesa) else old(legs)[p]]
      ensures old(legs)[p].hasPhone ==> legs == old(legs)
    {
      if legs[p].status == LegPending {
        legs := legs[p := legs[p].(rail := Mpesa)];
      }
    }

    // A push with nothing in between: refused without a phone or while a prompt is
    // open; then older prompts are superseded, the leg is re-tagged, and the provider
    // answers with a checkout id or an error.
    method Push(p: nat, recent: set<nat>, accepted: bool, checkout: string) returns (out: Outcome)
      requires p < |legs| && PhonesAreMpesa(legs)
      modifies this
      ensures out.Ok? <==> old(legs)[p].hasPhone && !PromptBusy(old(legs), p, recent) && accepted
      ensures State() == Run(old(State()), PushOps(old(legs), p, recent, accepted, checkout))
    {
      ghost var was := State();
      if !legs[p].hasPhone {
        return Err(Refused);
      }
      var busy := PromptBusyFor(p, recent);
      if busy {
        return Err(Refused);
      }
      SupersedePrompts(p);
      Retag(p);
      if accepted {
        BindCheckout(p, BUNI_PREFIX + checkout);
        out := Ok;
      } else {
        FailPending(p);
        out := Err(Refused);
      }
      RunTwo(was, DoStartPush(p), PushEnd(p, accepted, checkout));
    }

    // ---- provider callback ----

    method LegOfCheckout(checkout: string) returns (p: nat)
      ensures p == FindCheckout(legs, checkout)
    {
      for i := 0 to |legs|
        invariant FindCheckout(legs[..i], checkout) == i
      {
        if legs[i].checkout == checkout || legs[i].checkout == BUNI_PREFIX + checkout {
          FindStays(legs, checkout, i);
          return i;
        }
        assert legs[..i + 1][..i] == legs[..i];
      }
      assert legs[..|legs|] == legs;
      p := |legs|;
    }

    method HandleCallback(cb: Callback, cfg: Config) returns (out: Outcome)
      modifies this
      ensures Tx(State(), out) == Orders.HandleCallback(old(State()), cb, cfg)
    {
      var p := LegOfCheckout(cb.checkout);
      if cb.checkout == "" || p >= |legs| {
        return Err(NotFound);
      }
      if !cb.success {
        FailPending(p);
        return Ok;
      }
      if cb.amount <= 0 || cb.amount != legs[p].amount {
        FailPending(p);
        if legs[p].order < |orders| {
          RaiseFlag(legs[p].order);
        }
        return Err(InvalidState);
      }
      out := CompletePayment(p, cb.receipt, cb.amount, cfg);
    }

    // ---- void ----

    method RestoreLines(lines: seq<Line>)
      modifies this`products
      ensures products == Restore(old(products), lines)
    {
      for i := 0 to |lines|
        invariant products == Restore(old(products), lines[..i])
      {
        RestoreStep(old(products), lines, i);
        var l := lines[i];
        if l.product in products {
          products := products[l.product := products[l.product].(stock := products[l.product].stock + l.qty)];
        }
      }
      assert lines[..|lines|] == lines;
    }

    method CollectedOnline(o: nat) returns (n: nat)
      ensures n > 0 <==> OwedOnline(legs, o)
    {
      n := 0;
      for i := 0 to |legs|
        invariant n > 0 <==> OwedOnline(legs[..i], o)
      {
        assert forall k :: 0 <= k < i ==> legs[..i + 1][k] == legs[..i][k];
        assert legs[..i + 1][i] == legs[i];
        if legs[i].order == o && legs[i].rail == Mpesa && legs[i].status == LegCompleted && legs[i].amount > 0 {
          n := n + 1;
        }
      }
      assert legs[..|legs|] == legs;
    }

    method FlipLegs(o: nat)
      modifies this`legs
      ensures legs == VoidLegs(old(legs), o)
    {
      ghost var was := legs;
      for i := 0 to |legs|
        invariant |legs| == |was| && legs[i..] == was[i..]
        invariant forall k :: 0 <= k < i ==> legs[k] == VoidLeg(was[k], o)
      {
        assert legs[i] == was[i..][0];
        if legs[i].order == o && (legs[i].status == LegPending || legs[i].status == LegCompleted) {
          legs := legs[i := legs[i].(status := LegVoided)];
        }
      }
    }

    method CancelCards(o: nat)
      modifies this`cards
      ensures cards == VoidCards(old(cards), o)
    {
      ghost var was := cards;
      for i := 0 to |cards|
        invariant |cards| == |was| && cards[i..] == was[i..]
        invariant forall k :: 0 <= k < i ==> cards[k] == VoidCard(was[k], o)
      {
        assert cards[i] == was[i..][0];
        if cards[i].order == o && cards[i].status == CardActive {
          cards := cards[i := cards[i].(status := CardVoid, remaining := 0)];
        }
      }
    }

    method SumLegs(o: nat) returns (credit: int, tabs: int)
      ensures credit == Sum(legs, VoidedCredit(o)) && tabs == Sum(legs, TabLegs(o))
    {
      credit, tabs := 0, 0;
      for i := 0 to |legs|
        invariant credit == Sum(legs[..i], VoidedCredit(o)) && tabs == Sum(legs[..i], TabLegs(o))
      {
        SumAppended(legs[..i], legs[i], VoidedCredit(o));
        SumAppended(legs[..i], legs[i], TabLegs(o));
        assert legs[..i + 1] == legs[..i] + [legs[i]];
        if legs[i].order == o && legs[i].rail == Credit && legs[i].status == LegVoided {
          credit := credit + legs[i].amount;
        }
        if legs[i].order == o && legs[i].rail == Account {
          tabs := tabs + 1;
        }
      }
      assert legs[..|legs|] == legs;
    }

    method SumEarned(o: nat) returns (points: int)
      ensures points == Sum(ledger, PointsGained(o))
    {
      points := 0;
      for i := 0 to |ledger|
        invariant points == Sum(ledger[..i], PointsGained(o))
      {
        SumAppended(ledger[..i], ledger[i], PointsGained(o));
        assert ledger[..i + 1] == ledger[..i] + [ledger[i]];
        if ledger[i].order == o && ledger[i].kind == Loyalty && ledger[i].points > 0 {
          points := points + ledger[i].points;
        }
      }
      assert ledger[..|ledger|] == ledger;
    }

    // One more reversal row, when it is due, on top of those already posted.
    method Reverse(due: bool, r: Row, ghost base: Shop, ghost rows: seq<Row>) returns (ok: bool, ghost now: seq<Row>)
      requires AllKnown(base, rows) && State() == PostAll(base, rows)
      modifies this`ledger, this`customers
      ensures ok <==> !due || r.customer in base.customers
      ensures now == Due(rows, due, r)
      ensures ok ==> AllKnown(base, now) && State() == PostAll(base, now)
    {
      ok, now := true, rows;
      if due {
        PostOneMore(base, rows, r);
        now := rows + [r];
        ok := RecordLedger(r);
      }
    }

    method PostMoney(o: nat, order: Order, creditUsed: int, tabs: int) returns (ok: bool)
      modifies this`ledger, this`customers
      ensures var rows := MoneyRows(order, o, creditUsed, tabs);
              && (ok <==> |rows| == 0 || order.customer in old(customers))
              && (ok ==> AllKnown(old(State()), rows) && State() == PostAll(old(State()), rows))
    {
      ghost var base := State();
      ghost var rows: seq<Row> := [];
      ok, rows := Reverse(creditUsed > 0, Row(order.customer, o, CreditTopup, creditUsed, 0, Plain), base, rows);
      if ok {
        ok, rows := Reverse(tabs > 0, Row(order.customer, o, Adjustment, -order.total, 0, Plain), base, rows);
      }
    }

    method PostPoints(o: nat, order: Order, earned: int, ghost base: Shop, ghost rows: seq<Row>) returns (ok: bool)
      requires AllKnown(base, rows) && State() == PostAll(base, rows)
      modifies this`ledger, this`customers
      ensures var now := PointRows(rows, order, o, earned);
              && (ok <==> |now| == |rows| || order.customer in base.customers)
              && (ok ==> AllKnown(base, now) && State() == PostAll(base, now))
    {
      ghost var now;
      ok, now := Reverse(earned > 0, Row(order.customer, o, Loyalty, 0, -earned, Plain), base, rows);
      if ok {
        ok, now := Reverse(order.redeemed > 0, Row(order.customer, o, Loyalty, 0, order.redeemed, Plain), base, now);
      }
    }

    // Points earned on the order, read after the money rows went in.
    method EarnedBefore(o: nat, paid: bool, ghost before: seq<Row>, ghost rows: seq<Row>) returns (earned: int)
      requires ledger == before + rows && forall x :: x in rows ==> !x.kind.Loyalty?
      ensures earned == EarnedIn(before, o, paid)
    {
      earned := 0;
      if paid {
        earned := SumEarned(o);
        NothingGained(before, rows, o);
      }
    }

    // The reversal rows of a sale, on the tables a void has already rewritten.
    method PostReversals(o: nat, order: Order, creditUsed: int, tabs: int, paid: bool) returns (ok: bool)
      modifies this`ledger, this`customers
      ensures Reversed(old(State()), State(), order.customer, ReversalsOf(order, o, creditUsed, tabs, EarnedIn(old(ledger), o, paid)), ok)
    {
      ghost var base := State();
      ghost var rows := MoneyRows(order, o, creditUsed, tabs);
      ok := PostMoney(o, order, creditUsed, tabs);
      if ok {
        var earned := EarnedBefore(o, paid, base.ledger, rows);
        ok := PostPoints(o, order, earned, base, rows);
      }
    }

    // Everything a void does before the first reversal row.
    method RewriteTables(o: nat)
      requires o < |orders|
      modifies this`orders, this`products, this`legs, this`cards
      ensures State() == VoidTables(old(State()), o)
    {
      var order := orders[o];
      var paid := order.status == Paid;
      orders := orders[o := order.(status := Voided)];
      var online := 0;
      if paid {
        RestoreLines(order.lines);
        online := CollectedOnline(o);
      }
      FlipLegs(o);
      if online > 0 {
        RaiseFlag(o);
      }
      if paid {
        CancelCards(o);
      }
    }

    method Void(o: nat, caller: Caller) returns (out: Outcome)
      modifies this
      ensures Tx(State(), out) == Orders.Void(old(State()), o, caller)
    {
      if o >= |orders| || (!caller.seesAll && orders[o].cashier != caller.id) {
        return Err(NotFound);
      }
      if orders[o].status == Voided {
        return Err(InvalidState);
      }
      var saved := State();
      var order := orders[o];
      RewriteTables(o);
      if order.customer != NO_CUSTOMER {
        var creditUsed, tabs := SumLegs(o);
        TabsStay(saved.legs, o);
        ReversalsInOrder(saved, o);
        var ok := PostReversals(o, order, creditUsed, tabs, order.status == Paid);
        if !ok {
          Rollback(saved);
          return Err(NotFound);
        }
      }
      out := Ok;
    }

    // ---- customer ledger ----

    // The guarded UPDATE decides, then the row is recorded without moving the balance again.
    method RecordCustomerPayment(c: int, amount: int) returns (out: Outcome)
      modifies this
      ensures Tx(State(), out) == CustomerPayment(old(State()), c, amount)
    {
      if amount <= 0 {
        return Err(Refused);
      }
      if c !in customers {
        return Err(NotFound);
      }
      if !customers[c].active {
        return Err(Refused);
      }
      if customers[c].balance < amount {
        return Err(Overpayment);
      }
      customers := customers[c := customers[c].(balance := customers[c].balance - amount)];
      var _ := RecordLedgerNoBalance(Row(c, NO_ORDER, Payment, -amount, 0, Plain));
      out := Ok;
    }

    method RecordCustomerAdjustment(c: int, amount: int, noted: bool) returns (out: Outcome)
      modifies this
      ensures Tx(State(), out) == CustomerAdjustment(old(State()), c, amount, noted)
    {
      if !noted {
        return Err(Refused);
      }
      var ok := RecordLedger(Row(c, NO_ORDER, Adjustment, amount, 0, Plain));
      out := if ok then Ok else Err(NotFound);
    }

    // The store-credit column moves here and again inside RecordLedger.
    method RedeemGiftCard(k: nat, c: int) returns (out: Outcome)
      modifies this
      ensures Tx(State(), out) == RedeemCard(old(State()), k, c)
    {
      if k >= |cards| {
        return Err(NotFound);
      }
      if cards[k].status != CardActive || cards[k].remaining <= 0 {
        return Err(Refused);
      }
      if c !in customers {
        return Err(NotFound);
      }
      if !customers[c].active {
        return Err(Refused);
      }
      var v := cards[k].remaining;
      customers := customers[c := customers[c].(credit := customers[c].credit + v)];
      var _ := RecordLedger(Row(c, NO_ORDER, CreditTopup, v, 0, Plain));
      cards := cards[k := cards[k].(status := CardEmpty, remaining := 0, holder := c)];
      out := Ok;
    }

    // ---- tab settlement ----

    method FirstTabLeg(o: nat) returns (p: nat)
      ensures p == TabLeg(legs, o)
    {
      for i := 0 to |legs|
        invariant TabLeg(legs[..i], o) == i
      {
        if legs[i].order == o && legs[i].rail == Account && legs[i].status == LegPending {
          TabStays(legs, o, i);
          return i;
        }
        assert legs[..i + 1][..i] == legs[..i];
      }
      assert legs[..|legs|] == legs;
      p := |legs|;
    }

    method CountSettlements(o: nat) returns (n: int)
      ensures n == Sum(ledger, Settlements(o))
    {
      n := 0;
      for i := 0 to |ledger|
        invariant n == Sum(ledger[..i], Settlements(o))
      {
        SumAppended(ledger[..i], ledger[i], Settlements(o));
        assert ledger[..i + 1] == ledger[..i] + [ledger[i]];
        if ledger[i].order == o && ledger[i].kind == Payment && ledger[i].note == TabSettled {
          n := n + 1;
        }
      }
      assert ledger[..|ledger|] == ledger;
    }

    // One call running alone: it goes through the three phases of the protocol.
    method SettleTab(o: nat, mpesa: bool, code: string, cfg: Config) returns (ok: bool)
      modifies this
      ensures var sys := Behave(System(old(State()), [Start]), o, SettleMoves(mpesa, code, cfg));
              |sys.calls| == 1 && State() == sys.shop && (ok <==> sys.calls[0].Succeeded?)
    {
      AloneBehaves(State(), o, mpesa, code, cfg);
      if o >= |orders| || orders[o].status != Pending {
        return false;
      }
      var p := FirstTabLeg(o);
      if p >= |legs| || orders[o].customer == NO_CUSTOMER {
        return false;
      }
      var out;
      if mpesa {
        out := ManualConfirm(o, code, cfg);
      } else {
        out := CompletePayment(p, "", legs[p].amount, cfg);
      }
      if out != Ok {
        return false;
      }
      if o >= |orders| || orders[o].customer !in customers {
        return false;
      }
      var posted := CountSettlements(o);
      if posted == 0 {
        var _ := RecordLedger(SettleRow(orders[o], o));
      }
      ok := true;
    }

    // ---- sweeper and recheck ----

    method SweepCandidates() returns (found: seq<nat>)
      ensures found == Candidates(legs, |legs|, SWEEP_LIMIT)
    {
      found := [];
      var i := |legs|;
      while i > 0 && |found| < SWEEP_LIMIT
        invariant 0 <= i <= |legs| && |found| <= SWEEP_LIMIT
        invariant found + Candidates(legs, i, SWEEP_LIMIT - |found|) == Candidates(legs, |legs|, SWEEP_LIMIT)
      {
        i := i - 1;
        if Sweepable(legs[i]) {
          found := found + [i];
        }
      }
    }

    method TimeOut(found: seq<nat>, expired: set<nat>)
      requires forall i :: i in found ==> i < |legs|
      modifies this`legs
      ensures State() == Run(old(State()), TimeoutOps(found, expired))
    {
      ghost var s, n := State(), |legs|;
      for i := 0 to |found|
        invariant |legs| == n && State() == Run(s, TimeoutOps(found[..i], expired))
      {
        assert found[..i + 1][..i] == found[..i];
        assert found[i] in found;
        if found[i] in expired {
          RunOneMore(s, TimeoutOps(found[..i], expired), DoFail(found[i]));
          FailPending(found[i]);
        }
      }
      assert found[..|found|] == found;
    }

    method ApplyEvents(events: seq<Callback>, cfg: Config)
      modifies this
      ensures State() == Run(old(State()), CallbackOps(events, cfg))
    {
      ghost var s := State();
      for i := 0 to |events|
        invariant State() == Run(s, CallbackOps(events[..i], cfg))
      {
        assert events[..i + 1][..i] == events[..i];
        RunOneMore(s, CallbackOps(events[..i], cfg), DoCallback(events[i], cfg));
        var _ := HandleCallback(events[i], cfg);
      }
      assert events[..|events|] == events;
    }

    // SweepBuni: time out old prompts, then apply the callbacks the relay hands out.
    method SweepBuni(expired: set<nat>, events: seq<Callback>, cfg: Config)
      modifies this
      ensures State() == Run(old(State()), SweepOps(old(legs), expired, events, cfg))
    {
      ghost var s := State();
      var found := SweepCandidates();
      if found == [] {
        return;
      }
      CandidatesInRange(legs, |legs|, SWEEP_LIMIT);
      TimeOut(found, expired);
      ApplyEvents(events, cfg);
      RunConcat(s, TimeoutOps(found, expired), CallbackOps(events, cfg));
    }

    // RecheckPayment: the first leg whose provider confirms the money is completed.
    method RecheckPayment(o: nat, answers: nat -> Callback, cfg: Config) returns (out: Outcome)
      modifies this
      ensures Tx(State(), out) == Recheck(old(State()), o, answers, cfg)
    {
      if o >= |orders| {
        return Err(NotFound);
      }
      if orders[o].status == Paid {
        return Ok;
      }
      if orders[o].status != Pending {
        return Err(InvalidState);
      }
      for i := 0 to |legs|
        invariant State() == old(State())
        invariant FirstConfirmed(legs[..i], o, answers) == i
      {
        if Queryable(legs[i], o) && answers(i).success {
          ConfirmedStays(legs, o, answers, i);
          out := CompletePayment(i, answers(i).receipt, answers(i).amount, cfg);
          return;
        }
        assert legs[..i + 1][..i] == legs[..i];
      }
      assert legs[..|legs|] == legs;
      out := Ok;
    }

    // ---- checkout ----

    method FindUuid(uuid: string) returns (found: bool)
      ensures found <==> uuid != "" && exists o :: 0 <= o < |orders| && orders[o].uuid == uuid
    {
      if uuid == "" {
        return false;
      }
      for i := 0 to |orders|
        invariant forall o :: 0 <= o < i ==> orders[o].uuid != uuid
      {
        if orders[i].uuid == uuid {
          return true;
        }
      }
      found := false;
    }

    // The loop over a split tender: positive legs of allowed rails, their sum, and
    // how many wait for a provider.
    method CheckSplit(specs: seq<LegSpec>) returns (ok: bool, sum: int, waiting: nat, onCredit: bool)
      ensures ok <==> forall l :: l in specs ==> l.amount > 0 && l.rail != Account
      ensures ok ==> sum == SpecSum(specs) && waiting == AsyncCount(specs)
      ensures ok ==> (onCredit <==> exists l :: l in specs && l.rail == Credit)
    {
      sum, waiting, onCredit := 0, 0, false;
      for i := 0 to |specs|
        invariant forall l :: l in specs[..i] ==> l.amount > 0 && l.rail != Account
        invariant sum == SpecSum(specs[..i]) && waiting == AsyncCount(specs[..i])
        invariant onCredit <==> exists l :: l in specs[..i] && l.rail == Credit
      {
        var l := specs[i];
        assert specs[..i + 1] == specs[..i] + [l] && specs[..i + 1][..i] == specs[..i];
        assert l in specs;
        if l.amount <= 0 || l.rail == Account {
          return false, sum, waiting, onCredit;
        }
        sum := sum + l.amount;
        if l.rail == Mpesa {
          waiting := waiting + 1;
        }
        if l.rail == Credit {
          onCredit := true;
        }
      }
      assert specs[..|specs|] == specs;
      ok := true;
    }

    // The customer, tender and amount checks before the transaction. Prices, lines
    // and the redemption arrive from the pricing stage.
    method CheckTender(cart: Cart) returns (ok: bool)
      requires cart.redeem >= 0 && GoodLines(products, cart.lines)
      ensures ok <==> Accepts(State(), cart)
    {
      if cart.redeem > 0 && !ActiveCustomer(State(), cart.customer) {
        return false;
      }
      match cart.tender
      case Single(rail, _, _) =>
        ok := (rail == Account || rail == Credit) ==> ActiveCustomer(State(), cart.customer);
      case Split(specs) =>
        var good, sum, waiting, onCredit := CheckSplit(specs);
        ok := specs != [] && good && sum == cart.payable && waiting <= 1
              && (onCredit ==> ActiveCustomer(State(), cart.customer));
    }

    // One payment row of a split or single tender other than a tab.
    method OpenPayment(o: nat, cart: Cart, spec: LegSpec) returns (ok: bool)
      requires spec.rail != Account
      modifies this`legs, this`ledger, this`customers
      ensures OpenLeg(old(State()), o, cart, spec) == if ok then Done(State()) else RolledBack
    {
      match spec.rail
      case Cash =>
        legs := legs + [Leg(o, Cash, spec.amount, LegCompleted, false, "", "", false)];
        ok := true;
      case Credit =>
        if cart.customer !in customers || customers[cart.customer].credit < spec.amount {
          return false;
        }
        legs := legs + [Leg(o, Credit, spec.amount, LegCompleted, false, "", "", false)];
        ok := RecordLedger(Row(cart.customer, o, CreditRedeem, -spec.amount, 0, Plain));
      case Mpesa =>
        var amount := spec.amount;
        if !spec.manual {
          amount := RoundToShilling(spec.amount);
          if !spec.phoneOk {
            return false;
          }
        }
        legs := legs + [Leg(o, Mpesa, amount, LegPending, !spec.manual, "", "", false)];
        ok := true;
    }

    method OpenSplit(o: nat, cart: Cart, specs: seq<LegSpec>) returns (ok: bool)
      requires forall l :: l in specs ==> l.rail != Account
      modifies this`legs, this`ledger, this`customers
      ensures OpenLegs(old(State()), o, cart, specs) == if ok then Done(State()) else RolledBack
    {
      for i := 0 to |specs|
        invariant OpenLegs(old(State()), o, cart, specs[..i]) == Done(State())
      {
        assert specs[i] in specs;
        assert specs[..i + 1][..i] == specs[..i];
        ok := OpenPayment(o, cart, specs[i]);
        if !ok {
          OpenStaysShut(old(State()), o, cart, specs, i + 1);
          return false;
        }
      }
      assert specs[..|specs|] == specs;
      ok := true;
    }

    // A tab: the balance moves first, the stock is only looked at, and the charge
    // row is recorded without moving the balance again.
    method OpenTab(o: nat, cart: Cart, spec: LegSpec) returns (ok: bool)
      requires spec.rail == Account && KnownLines(products, cart.lines)
      modifies this`legs, this`ledger, this`customers
      ensures OpenLeg(old(State()), o, cart, spec) == if ok then Done(State()) else RolledBack
    {
      if cart.customer !in customers {
        return false;
      }
      var c := customers[cart.customer];
      customers := customers[cart.customer := c.(balance := c.balance + spec.amount)];
      ok := StockCovers(cart.lines);
      if !ok {
        return;
      }
      legs := legs + [Leg(o, Account, spec.amount, LegPending, false, "", "", false)];
      ok := RecordLedgerNoBalance(Row(cart.customer, o, Charge, spec.amount, 0, Plain));
    }

    method RedeemPoints(o: nat, cart: Cart) returns (ok: bool)
      modifies this`ledger, this`customers
      ensures ok <==> cart.redeem <= 0 || (cart.customer in old(customers) && cart.redeem <= old(customers)[cart.customer].points)
      ensures ok ==> State() == PostIf(old(State()), cart.redeem > 0, RedeemRow(cart, o))
    {
      if cart.redeem <= 0 {
        return true;
      }
      if cart.customer !in customers || customers[cart.customer].points < cart.redeem {
        return false;
      }
      ok := RecordLedger(RedeemRow(cart, o));
    }

    method OpenTender(o: nat, cart: Cart) returns (ok: bool)
      requires Accepts(State(), cart)
      modifies this`legs, this`ledger, this`customers
      ensures OpenLegs(old(State()), o, cart, cart.Specs()) == if ok then Done(State()) else RolledBack
    {
      match cart.tender
      case Split(specs) => ok := OpenSplit(o, cart, specs);
      case Single(rail, manual, phoneOk) =>
        var spec := LegSpec(rail, cart.payable, manual, phoneOk);
        OneTender(State(), o, cart, spec);
        if rail == Account {
          ok := OpenTab(o, cart, spec);
        } else {
          ok := OpenPayment(o, cart, spec);
        }
    }

    // An instant sale is paid inside the checkout transaction, and refused when a
    // guarded stock update misses.
    method SettleNow(o: nat, cfg: Config) returns (ok: bool)
      requires o < |orders| && orders[o].status.Pending?
      modifies this
      ensures ok <==> !Short(old(products), old(orders)[o].lines) && Settleable(old(State()), old(orders)[o], cfg)
      ensures ok ==> State() == Settle(old(State()), o, cfg)
    {
      if Settleable(State(), orders[o], cfg) {
        SettleInSteps(State(), o, cfg);
      }
      var _ := MarkPaid(o);
      var missed;
      ok, missed := Fulfil(o, cfg);
      ok := ok && !missed;
      if ok {
        IssueGiftCards(o);
      }
    }

    // Points and, for an instant sale, stock: what follows the payment rows.
    method Finish(o: nat, cart: Cart, cfg: Config) returns (ok: bool)
      requires o < |orders| && orders[o] == NewOrder(cart) && GoodLines(products, cart.lines)
      modifies this
      ensures FinishCheckout(old(State()), o, cart, cfg) == if ok then Done(State()) else RolledBack
    {
      ok := RedeemPoints(o, cart);
      if ok && cart.Instant() {
        if cart.tender.Split? {
          CoveredIffNotShort(products, cart.lines);
          ok := StockCovers(cart.lines);
        }
        if ok {
          ok := SettleNow(o, cfg);
        }
      }
    }

    method PlaceOrder(cart: Cart, cfg: Config) returns (ok: bool)
      requires Accepts(State(), cart)
      modifies this
      ensures CheckoutAttempt(old(State()), cart, cfg) == if ok then Done(State()) else RolledBack
      ensures !ok ==> State() == old(State())
    {
      var saved := State();
      var o := |orders|;
      orders := orders + [NewOrder(cart)];
      ghost var open := State();
      assert open == saved.(orders := saved.orders + [NewOrder(cart)]);
      ok := true;
      // Fail fast on stock before taking the money of a single instant tender.
      if cart.tender.Single? && cart.Instant() {
        ok := StockCovers(cart.lines);
        if !ok {
          UncoveredRollsBack(open, o, cart, cfg);
        }
      }
      if ok {
        ok := OpenTender(o, cart);
      }
      if ok {
        ok := Finish(o, cart, cfg);
      }
      if !ok {
        Rollback(saved);
      }
    }

    method Checkout(cart: Cart, cfg: Config) returns (out: Outcome)
      requires cart.redeem >= 0 && GoodLines(products, cart.lines)
      modifies this
      ensures Tx(State(), out) == Orders.Checkout(old(State()), cart, cfg)
    {
      var replayed := FindUuid(cart.uuid);
      if replayed {
        return Ok;
      }
      var ok := CheckTender(cart);
      if ok {
        ok := PlaceOrder(cart, cfg);
      }
      out := if ok then Ok else Err(Refused);
    }
  }
}
