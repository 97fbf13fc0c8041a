// Conservation of stock: what the shelves have lost is what the orders hold.

module StockLaw {
  import opened Sums
  import opened Tables
  import opened Orders
  import opened Soundness
  import opened Checkouts
  import opened Runs
  import opened Lifecycle

  function QtyOf(p: int): Line -> int {
    (l: Line) => if l.product == p then l.qty else 0
  }

  function LineQty(lines: seq<Line>, p: int): int {
    Sum(lines, QtyOf(p))
  }

  // Quantity of p on the lines whose guarded deduction hit.
  function TakenQty(lines: seq<Line>, taken: seq<bool>, p: int): int
    requires |taken| == |lines|
  {
    if lines == [] then 0
    else
      var n := |lines| - 1;
      TakenQty(lines[..n], taken[..n], p) + (if taken[n] then QtyOf(p)(lines[n]) else 0)
  }

  // Quantity of p on the lines completion passed over.
  function SkippedQty(lines: seq<Line>, taken: seq<bool>, p: int): int
    requires |taken| == |lines|
  {
    LineQty(lines, p) - TakenQty(lines, taken, p)
  }

  lemma {:induction false} DeductStock(ps: map<int, Product>, lines: seq<Line>, p: int)
    requires p in ps
    ensures var d := Deduct(ps, lines); d.products[p].stock == ps[p].stock - TakenQty(lines, d.taken, p)
  {
    if lines != [] {
      var n := |lines| - 1;
      var d := Deduct(ps, lines);
      DeductStock(ps, lines[..n], p);
      assert d.taken[..n] == Deduct(ps, lines[..n]).taken;
    }
  }

  lemma {:induction false} RestoreStock(ps: map<int, Product>, lines: seq<Line>, p: int)
    requires p in ps
    ensures Restore(ps, lines)[p].stock == ps[p].stock + LineQty(lines, p)
  {
    if lines != [] {
      RestoreStock(ps, lines[..|lines| - 1], p);
    }
  }

  // Units of p an order currently keeps off the shelf. A voided order that was
  // paid gives back every line, so it keeps minus what completion skipped.
  function Held(order: Order, p: int): int {
    if order.effects.PaidWith? && |order.effects.taken| == |order.lines| then
      match order.status
      case Pending => 0
      case Paid => TakenQty(order.lines, order.effects.taken, p)
      case Voided => -SkippedQty(order.lines, order.effects.taken, p)
    else 0
  }

  function HeldOf(p: int): Order -> int {
    (order: Order) => Held(order, p)
  }

  predicate Balanced(s: Shop, opening: int, p: int) {
    p in s.products && s.products[p].stock == opening - Sum(s.orders, HeldOf(p))
  }

  // ---- one transaction ----

  lemma SameShelf(s: Shop, t: Shop, opening: int, p: int)
    requires Balanced(s, opening, p)
    requires t.products == s.products && t.orders == s.orders
    ensures Balanced(t, opening, p)
  {
  }

  // One order changed, and the shelf moved by the change in what it holds.
  lemma OneOrderMoved(s: Shop, t: Shop, o: nat, opening: int, p: int)
    requires p in t.products && Balanced(s, opening, p)
    requires o < |s.orders| == |t.orders| && t.orders == s.orders[o := t.orders[o]]
    requires t.products[p].stock == s.products[p].stock + Held(s.orders[o], p) - Held(t.orders[o], p)
    ensures Balanced(t, opening, p)
  {
    SumUpdated(s.orders, o, t.orders[o], HeldOf(p));
  }

  lemma SettleBalanced(s: Shop, o: nat, cfg: Config, opening: int, p: int)
    requires Balanced(s, opening, p)
    requires o < |s.orders| && Settleable(s, s.orders[o], cfg) && s.orders[o].status.Pending?
    ensures Balanced(Settle(s, o, cfg), opening, p)
  {
    DeductStock(s.products, s.orders[o].lines, p);
    OneOrderMoved(s, Settle(s, o, cfg), o, opening, p);
  }

  lemma FlagBalanced(s: Shop, o: nat, cond: bool, opening: int, p: int)
    requires Balanced(s, opening, p) && o < |s.orders|
    ensures Balanced(Flag(s, o, cond), opening, p)
  {
    OneOrderMoved(s, Flag(s, o, cond), o, opening, p);
  }

  lemma CompleteBalanced(s: Shop, pay: nat, receipt: string, amount: int, cfg: Config, opening: int, p: int)
    requires Balanced(s, opening, p)
    ensures Balanced(Complete(s, pay, receipt, amount, cfg).shop, opening, p)
  {
    var r := Complete(s, pay, receipt, amount, cfg);
    if r.shop.orders == s.orders && r.shop.products == s.products {
      SameShelf(s, r.shop, opening, p);
    } else {
      var o := s.legs[pay].order;
      var won := s.orders[o].status.Pending?;
      if won {
        SettleBalanced(s, o, cfg, opening, p);
      }
      var flag := amount <= 0 || amount != s.legs[pay].amount || !won || Short(s.products, s.orders[o].lines);
      FlagBalanced(if won then Settle(s, o, cfg) else s, o, flag, opening, p);
    }
  }

  lemma CompleteBalancedFrom(s: Shop, legs: seq<Leg>, pay: nat, receipt: string, amount: int, cfg: Config, opening: int, p: int)
    requires Balanced(s, opening, p)
    ensures Balanced(Complete(s.(legs := legs), pay, receipt, amount, cfg).shop, opening, p)
  {
    CompleteBalanced(s.(legs := legs), pay, receipt, amount, cfg, opening, p);
  }

  lemma CallbackBalanced(s: Shop, cb: Callback, cfg: Config, opening: int, p: int)
    requires Balanced(s, opening, p)
    ensures Balanced(HandleCallback(s, cb, cfg).shop, opening, p)
  {
    var q := FindCheckout(s.legs, cb.checkout);
    var t := HandleCallback(s, cb, cfg).shop;
    CompleteBalanced(s, q, cb.receipt, cb.amount, cfg, opening, p);
    if t.orders == s.orders && t.products == s.products {
      SameShelf(s, t, opening, p);
    } else if !(cb.success && 0 < cb.amount == s.legs[q].amount) {
      FlagBalanced(FailLeg(s, q), s.legs[q].order, true, opening, p);
    }
  }

  lemma VoidBalanced(s: Shop, o: nat, caller: Caller, opening: int, p: int)
    requires Inv(s) && Balanced(s, opening, p)
    ensures Balanced(Void(s, o, caller).shop, opening, p)
  {
    if Void(s, o, caller).out.Ok? {
      assert OrderOk(s, o);
      RestoreStock(s.products, s.orders[o].lines, p);
      OneOrderMoved(s, Void(s, o, caller).shop, o, opening, p);
    }
  }

  lemma CheckoutBalanced(s: Shop, cart: Cart, cfg: Config, opening: int, p: int)
    requires Inv(s) && Balanced(s, opening, p)
    ensures Balanced(Checkout(s, cart, cfg).shop, opening, p)
  {
    if Checkout(s, cart, cfg).shop != s {
      var placed := Placed(s, cart);
      OpenLegsBase(Inserted(s, cart), |s.orders|, cart, cart.Specs()) by {
        InsertedBase(s, cart);
      }
      SumAppended(s.orders, NewOrder(cart), HeldOf(p));
      assert Balanced(placed, opening, p);
      if cart.Instant() {
        SettleBalanced(placed, |s.orders|, cfg, opening, p);
      }
    }
  }

  lemma ManualBalanced(s: Shop, o: nat, code: string, cfg: Config, opening: int, p: int)
    requires Balanced(s, opening, p)
    ensures Balanced(ManualConfirm(s, o, code, cfg).shop, opening, p)
  {
    if o < |s.orders| {
      var q := LastPending(s.legs, o);
      CompleteBalancedFrom(s, Collecting(s, o), q, code, Collecting(s, o)[q].amount, cfg, opening, p);
    }
  }

  predicate MovesStock(op: Op) {
    op.DoCheckout? || op.DoComplete? || op.DoManual? || op.DoCallback? || op.DoVoid?
  }

  lemma OtherStepsKeepShelf(s: Shop, op: Op)
    requires !MovesStock(op)
    ensures Step(s, op).products == s.products && Step(s, op).orders == s.orders
  {
  }

  lemma OtherBalanced(s: Shop, op: Op, opening: int, p: int)
    requires Balanced(s, opening, p) && !MovesStock(op)
    ensures Balanced(Step(s, op), opening, p)
  {
    OtherStepsKeepShelf(s, op);
    SameShelf(s, Step(s, op), opening, p);
  }

  lemma StepBalanced(s: Shop, op: Op, opening: int, p: int)
    requires Inv(s) && Balanced(s, opening, p)
    ensures Balanced(Step(s, op), opening, p)
  {
    match op
    case DoCheckout(cart, cfg) => if cart.payable >= 0 { CheckoutBalanced(s, cart, cfg, opening, p); }
    case DoComplete(q, receipt, amount, cfg) => CompleteBalanced(s, q, receipt, amount, cfg, opening, p);
    case DoManual(o, code, cfg) => ManualBalanced(s, o, code, cfg, opening, p);
    case DoCallback(cb, cfg) => CallbackBalanced(s, cb, cfg, opening, p);
    case DoVoid(o, caller) => VoidBalanced(s, o, caller, opening, p);
    case _ => OtherBalanced(s, op, opening, p);
  }

  lemma {:induction false} RunBalanced(s: Shop, ops: seq<Op>, p: int)
    requires Opening(s) && p in s.products
    ensures Balanced(Run(s, ops), s.products[p].stock, p)
  {
    if ops != [] {
      var rest := ops[..|ops| - 1];
      RunBalanced(s, rest, p);
      OpeningSound(s);
      RunKeeps(s, rest);
      StepBalanced(Run(s, rest), ops[|ops| - 1], s.products[p].stock, p);
    }
  }

  // ---- what a void gives back ----

  lemma {:induction false} TakenWithin(lines: seq<Line>, taken: seq<bool>, p: int)
    requires |taken| == |lines|
    ensures 0 <= TakenQty(lines, taken, p) <= LineQty(lines, p)
  {
    if lines != [] {
      var n := |lines| - 1;
      TakenWithin(lines[..n], taken[..n], p);
    }
  }

  // A skipped line leaves a trace in the quantity of its product.
  lemma {:induction false} SkippedLine(lines: seq<Line>, taken: seq<bool>, i: nat)
    requires |taken| == |lines| && i < |lines|
    ensures !taken[i] ==> SkippedQty(lines, taken, lines[i].product) >= lines[i].qty
  {
    var n := |lines| - 1;
    var p := lines[i].product;
    if i < n {
      SkippedLine(lines[..n], taken[..n], i);
    } else {
      TakenWithin(lines[..n], taken[..n], p);
    }
  }

  lemma {:induction false} NothingSkipped(lines: seq<Line>, taken: seq<bool>, p: int)
    requires |taken| == |lines| && forall i :: 0 <= i < |lines| ==> taken[i] || lines[i].qty == 0
    ensures SkippedQty(lines, taken, p) == 0
  {
    if lines != [] {
      var n := |lines| - 1;
      NothingSkipped(lines[..n], taken[..n], p);
    }
  }

  // With one line per product, a line is deducted exactly when the shelf covers it.
  lemma {:induction false} DeductUntouched(ps: map<int, Product>, lines: seq<Line>, p: int)
    requires p in ps && forall l :: l in lines ==> l.product != p
    ensures Deduct(ps, lines).products[p] == ps[p]
  {
    if lines != [] {
      DeductUntouched(ps, lines[..|lines| - 1], p);
    }
  }

  lemma {:induction false} DeductTakes(ps: map<int, Product>, lines: seq<Line>, i: nat)
    requires Distinct(lines) && i < |lines|
    ensures Deduct(ps, lines).taken[i] == Covers(ps, lines[i])
  {
    var n := |lines| - 1;
    if i < n {
      DeductTakes(ps, lines[..n], i);
    } else if lines[n].product in ps {
      forall l | l in lines[..n]
        ensures l.product != lines[n].product
      {
        var j :| 0 <= j < n && lines[j] == l;
      }
      DeductUntouched(ps, lines[..n], lines[n].product);
    }
  }

  // ---- the shelf after a void, over every run ----

  // What the other orders keep off the shelf.
  function HeldByOthers(s: Shop, o: nat, p: int): int
    requires o < |s.orders|
  {
    Sum(s.orders[..o] + s.orders[o + 1..], HeldOf(p))
  }

  lemma HeldSplit(s: Shop, o: nat, p: int)
    requires o < |s.orders|
    ensures Sum(s.orders, HeldOf(p)) == HeldByOthers(s, o, p) + Held(s.orders[o], p)
  {
    var a, b := s.orders[..o], s.orders[o + 1..];
    assert s.orders == a + [s.orders[o]] + b;
    SumConcat(a + [s.orders[o]], b, HeldOf(p));
    SumAppended(a, s.orders[o], HeldOf(p));
    SumConcat(a, b, HeldOf(p));
  }

  predicate VoidedSale(order: Order) {
    order.status.Voided? && order.effects.PaidWith? && |order.effects.taken| == |order.lines|
  }

  // After a sale was paid and voided, its products stand where they would without it,
  // plus the units that completion skipped and the void returned all the same.
  lemma VoidedShelf(s: Shop, ops: seq<Op>, o: nat, p: int)
    requires Opening(s) && p in s.products
    requires o < |Run(s, ops).orders| && Run(s, ops).orders[o].status.Voided? && Run(s, ops).orders[o].effects.PaidWith?
    ensures var t := Run(s, ops); var order := t.orders[o];
            && VoidedSale(order) && p in t.products
            && t.products[p].stock
               == s.products[p].stock - HeldByOthers(t, o, p) + SkippedQty(order.lines, order.effects.taken, p)
  {
    var t := Run(s, ops);
    OpeningSound(s);
    RunKeeps(s, ops);
    assert OrderOk(t, o);
    RunBalanced(s, ops, p);
    HeldSplit(t, o, p);
  }

  // ---- which lines completion takes ----

  // In one step the order came to be paid.
  predicate BecomesPaid(s: Shop, t: Shop, o: nat) {
    && o < |t.orders| && t.orders[o].effects.PaidWith?
    && (o < |s.orders| ==> s.orders[o].effects.Unpaid?)
  }

  // The lines taken are those a guarded deduction hits on the shelves as they stood.
  predicate TookFrom(ps: map<int, Product>, order: Order) {
    order.effects.PaidWith? && order.effects.taken == Deduct(ps, order.lines).taken
  }

  lemma CompleteTakes(s: Shop, q: nat, receipt: string, amount: int, cfg: Config, o: nat)
    requires BecomesPaid(s, Complete(s, q, receipt, amount, cfg).shop, o)
    ensures TookFrom(s.products, Complete(s, q, receipt, amount, cfg).shop.orders[o])
  {
  }

  lemma ManualTakes(s: Shop, k: nat, code: string, cfg: Config, o: nat)
    requires BecomesPaid(s, ManualConfirm(s, k, code, cfg).shop, o)
    ensures TookFrom(s.products, ManualConfirm(s, k, code, cfg).shop.orders[o])
  {
    var q := LastPending(s.legs, k);
    var legs := Collecting(s, k);
    CompleteTakes(s.(legs := legs), q, code, legs[q].amount, cfg, o);
  }

  lemma CallbackTakes(s: Shop, cb: Callback, cfg: Config, o: nat)
    requires BecomesPaid(s, HandleCallback(s, cb, cfg).shop, o)
    ensures TookFrom(s.products, HandleCallback(s, cb, cfg).shop.orders[o])
  {
    var q := FindCheckout(s.legs, cb.checkout);
    if q < |s.legs| && cb.success && 0 < cb.amount == s.legs[q].amount {
      CompleteTakes(s, q, cb.receipt, cb.amount, cfg, o);
    }
  }

  lemma CheckoutTakes(s: Shop, cart: Cart, cfg: Config, o: nat)
    requires BaseOk(s) && BecomesPaid(s, Checkout(s, cart, cfg).shop, o)
    ensures TookFrom(s.products, Checkout(s, cart, cfg).shop.orders[o])
  {
    InsertedBase(s, cart);
    OpenLegsBase(Inserted(s, cart), |s.orders|, cart, cart.Specs());
  }

  lemma VoidPaysNothing(s: Shop, k: nat, caller: Caller, o: nat)
    ensures !BecomesPaid(s, Void(s, k, caller).shop, o)
  {
  }

  lemma StepTakes(s: Shop, op: Op, o: nat)
    requires Inv(s) && BecomesPaid(s, Step(s, op), o)
    ensures TookFrom(s.products, Step(s, op).orders[o])
  {
    match op
    case DoCheckout(cart, cfg) => CheckoutTakes(s, cart, cfg, o);
    case DoComplete(q, receipt, amount, cfg) => CompleteTakes(s, q, receipt, amount, cfg, o);
    case DoManual(k, code, cfg) => ManualTakes(s, k, code, cfg, o);
    case DoCallback(cb, cfg) => CallbackTakes(s, cb, cfg, o);
    case DoVoid(k, caller) => VoidPaysNothing(s, k, caller, o);
    case _ => OtherStepsKeepShelf(s, op);
  }

  // The step of the run in which the order was paid.
  lemma {:induction false} PaidAtSomeStep(s: Shop, ops: seq<Op>, o: nat) returns (n: nat)
    requires Opening(s) && o < |Run(s, ops).orders| && Run(s, ops).orders[o].effects.PaidWith?
    ensures n < |ops| && BecomesPaid(Run(s, ops[..n]), Run(s, ops[..n + 1]), o)
  {
    var rest := ops[..|ops| - 1];
    var t := Run(s, rest);
    if o < |t.orders| && t.orders[o].effects.PaidWith? {
      n := PaidAtSomeStep(s, rest, o);
      assert rest[..n] == ops[..n] && rest[..n + 1] == ops[..n + 1];
    } else {
      n := |ops| - 1;
      assert ops[..n + 1] == ops;
    }
  }

  lemma CompleteKeepsCatalogue(s: Shop, q: nat, receipt: string, amount: int, cfg: Config)
    ensures Complete(s, q, receipt, amount, cfg).shop.products.Keys == s.products.Keys
  {
  }

  lemma ManualKeepsCatalogue(s: Shop, k: nat, code: string, cfg: Config)
    ensures ManualConfirm(s, k, code, cfg).shop.products.Keys == s.products.Keys
  {
    if k < |s.orders| {
      var q := LastPending(s.legs, k);
      var legs := Collecting(s, k);
      CompleteKeepsCatalogue(s.(legs := legs), q, code, legs[q].amount, cfg);
    }
  }

  lemma CheckoutKeepsCatalogue(s: Shop, cart: Cart, cfg: Config)
    requires BaseOk(s)
    ensures Checkout(s, cart, cfg).shop.products.Keys == s.products.Keys
  {
    if Checkout(s, cart, cfg).shop != s {
      InsertedBase(s, cart);
      OpenLegsBase(Inserted(s, cart), |s.orders|, cart, cart.Specs());
    }
  }

  lemma VoidKeepsCatalogue(s: Shop, k: nat, caller: Caller)
    ensures Void(s, k, caller).shop.products.Keys == s.products.Keys
  {
  }

  lemma StepKeepsCatalogue(s: Shop, op: Op)
    requires Inv(s)
    ensures Step(s, op).products.Keys == s.products.Keys
  {
    match op
    case DoCheckout(cart, cfg) => CheckoutKeepsCatalogue(s, cart, cfg);
    case DoComplete(q, receipt, amount, cfg) => CompleteKeepsCatalogue(s, q, receipt, amount, cfg);
    case DoManual(k, code, cfg) => ManualKeepsCatalogue(s, k, code, cfg);
    case DoCallback(cb, cfg) => CompleteKeepsCatalogue(s, FindCheckout(s.legs, cb.checkout), cb.receipt, cb.amount, cfg);
    case DoVoid(k, caller) => VoidKeepsCatalogue(s, k, caller);
    case _ => OtherStepsKeepShelf(s, op);
  }

  lemma {:induction false} RunKeepsCatalogue(s: Shop, ops: seq<Op>)
    requires Opening(s)
    ensures Run(s, ops).products.Keys == s.products.Keys
  {
    if ops != [] {
      var rest := ops[..|ops| - 1];
      RunKeepsCatalogue(s, rest);
      OpeningSound(s);
      RunKeeps(s, rest);
      StepKeepsCatalogue(Run(s, rest), ops[|ops| - 1]);
    }
  }

  // No unit was skipped exactly when every line was covered on those shelves.
  lemma SkippedIff(ps: map<int, Product>, order: Order)
    requires GoodLines(ps, order.lines) && TookFrom(ps, order)
    ensures (forall p :: p in ps ==> SkippedQty(order.lines, order.effects.taken, p) == 0)
            <==> (forall l :: l in order.lines ==> Covers(ps, l))
  {
    var lines, taken := order.lines, order.effects.taken;
    if forall p :: p in ps ==> SkippedQty(lines, taken, p) == 0 {
      forall l | l in lines
        ensures Covers(ps, l)
      {
        var i :| 0 <= i < |lines| && lines[i] == l;
        SkippedLine(lines, taken, i);
        DeductTakes(ps, lines, i);
      }
    }
    if forall l :: l in lines ==> Covers(ps, l) {
      forall i | 0 <= i < |lines|
        ensures taken[i]
      {
        DeductTakes(ps, lines, i);
        assert lines[i] in lines;
      }
      forall p | p in ps
        ensures SkippedQty(lines, taken, p) == 0
      {
        NothingSkipped(lines, taken, p);
      }
    }
  }

  // A void gives every shelf back to what it would be without the sale exactly when
  // all lines were tracked and covered at the moment the order was paid.
  lemma VoidRestoresShelvesIff(s: Shop, ops: seq<Op>, n: nat, o: nat)
    requires Opening(s) && n < |ops| && BecomesPaid(Run(s, ops[..n]), Run(s, ops[..n + 1]), o)
    requires o < |Run(s, ops).orders| && Run(s, ops).orders[o].status.Voided?
    ensures var t := Run(s, ops);
            (forall p :: p in s.products ==> p in t.products && t.products[p].stock == s.products[p].stock - HeldByOthers(t, o, p))
            <==> (forall l :: l in t.orders[o].lines ==> Covers(Run(s, ops[..n]).products, l))
  {
    var u, t := Run(s, ops[..n]), Run(s, ops);
    PaidLines(s, ops, n, o);
    forall p | p in s.products
      ensures p in t.products
      ensures t.products[p].stock == s.products[p].stock - HeldByOthers(t, o, p)
              <==> SkippedQty(t.orders[o].lines, t.orders[o].effects.taken, p) == 0
    {
      VoidedShelf(s, ops, o, p);
    }
    RunKeepsCatalogue(s, ops[..n]);
    SkippedIff(u.products, t.orders[o]);
  }

  // Lines and effects are those of the step in which the order was paid.
  lemma PaidLines(s: Shop, ops: seq<Op>, n: nat, o: nat)
    requires Opening(s) && n < |ops| && BecomesPaid(Run(s, ops[..n]), Run(s, ops[..n + 1]), o)
    ensures var u, t := Run(s, ops[..n]), Run(s, ops);
            o < |t.orders| && GoodLines(u.products, t.orders[o].lines) && TookFrom(u.products, t.orders[o])
  {
    var u, v := Run(s, ops[..n]), Run(s, ops[..n + 1]);
    OpeningSound(s);
    RunKeeps(s, ops[..n]);
    RunKeeps(s, ops[..n + 1]);
    assert ops[..n + 1][..n] == ops[..n];
    StepTakes(u, ops[n], o);
    RunAges(s, ops, n + 1, o);
    RunKeepsCatalogue(s, ops[..n]);
    RunKeepsCatalogue(s, ops[..n + 1]);
    assert v.orders[o] in v.orders;
  }
}
