// Provider callbacks may repeat and arrive in any order; the books do not care.

module Callbacks {
  import opened Tables
  import opened Orders

  function RunCallbacks(s: Shop, cbs: seq<Callback>, cfg: Config): Shop {
    if cbs == [] then s
    else HandleCallback(RunCallbacks(s, cbs[..|cbs| - 1], cfg), cbs[|cbs| - 1], cfg).shop
  }

  // The callback names leg p, and its receipt is on no other leg.
  predicate Aimed(s: Shop, p: nat, cb: Callback) {
    && p < |s.legs| && cb.checkout != "" && FindCheckout(s.legs, cb.checkout) == p
    && !ReceiptTaken(s.legs, cb.receipt, p)
  }

  // A success that carries the stored amount.
  predicate Genuine(cb: Callback, amount: int) {
    cb.success && cb.amount > 0 && cb.amount == amount
  }

  // The order of leg p can take the money: it is PAID already, or settling it
  // breaks no foreign key.
  predicate CanLand(s: Shop, p: nat, cfg: Config) {
    && p < |s.legs| && s.legs[p].order < |s.orders|
    && var order := s.orders[s.legs[p].order];
       order.status.Paid? || (order.status.Pending? && Settleable(s, order, cfg))
  }

  predicate Lands(s: Shop, p: nat, cbs: seq<Callback>, cfg: Config) {
    CanLand(s, p, cfg) && exists cb :: cb in cbs && Genuine(cb, s.legs[p].amount)
  }

  lemma LandsBy(s: Shop, p: nat, cbs: seq<Callback>, cfg: Config)
    requires cbs != [] && p < |s.legs|
    ensures var n := |cbs| - 1;
            Lands(s, p, cbs, cfg) <==> Lands(s, p, cbs[..n], cfg) || (CanLand(s, p, cfg) && Genuine(cbs[n], s.legs[p].amount))
  {
  }

  // Everything but the payment rows and the discrepancy flags.
  datatype Books = Books(products: map<int, Product>, customers: map<int, Customer>, ledger: seq<Row>, cards: seq<Card>,
                         orders: seq<Order>)

  function BooksOf(s: Shop): Books {
    Books(s.products, s.customers, s.ledger, s.cards,
          seq(|s.orders|, i requires 0 <= i < |s.orders| => s.orders[i].(flagged := false)))
  }

  // What the books become when leg p completes.
  function PaidBooks(s: Shop, p: nat, cfg: Config): Books
    requires CanLand(s, p, cfg)
  {
    var o := s.legs[p].order;
    if s.orders[o].status.Pending? then BooksOf(Settle(s, o, cfg)) else BooksOf(s)
  }

  // ---- lookups only see checkout ids ----

  lemma {:induction false} FindCheckoutSame(a: seq<Leg>, b: seq<Leg>, checkout: string)
    requires |a| == |b| && forall i :: 0 <= i < |a| ==> a[i].checkout == b[i].checkout
    ensures FindCheckout(a, checkout) == FindCheckout(b, checkout)
  {
    if a != [] {
      FindCheckoutSame(a[..|a| - 1], b[..|b| - 1], checkout);
    }
  }

  // t is s with the status of leg p and the flag of its order possibly changed.
  predicate Waiting(s: Shop, t: Shop, p: nat)
    requires p < |s.legs| && s.legs[p].order < |s.orders|
  {
    var o := s.legs[p].order;
    && |t.legs| == |s.legs| && |t.orders| == |s.orders|
    && t == s.(legs := s.legs[p := s.legs[p].(status := t.legs[p].status)],
               orders := s.orders[o := s.orders[o].(flagged := t.orders[o].flagged)])
    && !t.legs[p].status.LegCompleted?
  }

  // Leg p has completed and the books say so.
  predicate Landing(s: Shop, t: Shop, p: nat, cfg: Config)
    requires CanLand(s, p, cfg)
  {
    && |t.legs| == |s.legs| && t.legs[p].status.LegCompleted?
    && t.legs[p] == s.legs[p].(status := LegCompleted, receipt := t.legs[p].receipt, flagged := t.legs[p].flagged)
    && t.legs == s.legs[p := t.legs[p]]
    && |t.orders| == |s.orders|
    && BooksOf(t) == PaidBooks(s, p, cfg)
  }

  lemma AimedStays(s: Shop, t: Shop, p: nat, cb: Callback)
    requires Aimed(s, p, cb) && |t.legs| == |s.legs| && t.legs == s.legs[p := t.legs[p]] && t.legs[p].checkout == s.legs[p].checkout
    ensures Aimed(t, p, cb)
  {
    FindCheckoutSame(s.legs, t.legs, cb.checkout);
  }

  lemma WaitingBooks(s: Shop, t: Shop, p: nat)
    requires p < |s.legs| && s.legs[p].order < |s.orders| && Waiting(s, t, p)
    ensures BooksOf(t) == BooksOf(s)
  {
  }

  // Settling sees neither leg statuses nor flags.
  lemma SettleBooks(s: Shop, t: Shop, p: nat, cfg: Config)
    requires CanLand(s, p, cfg) && Waiting(s, t, p)
    ensures CanLand(t, p, cfg) && PaidBooks(t, p, cfg) == PaidBooks(s, p, cfg)
  {
  }

  lemma CompleteBooks(t: Shop, p: nat, receipt: string, amount: int, cfg: Config)
    requires CanLand(t, p, cfg) && !t.legs[p].status.LegCompleted? && !ReceiptTaken(t.legs, receipt, p)
    ensures Landing(t, Complete(t, p, receipt, amount, cfg).shop, p, cfg)
  {
  }

  // ---- one callback ----

  lemma CallbackWhileWaiting(s: Shop, t: Shop, p: nat, cb: Callback, cfg: Config)
    requires p < |s.legs| && s.legs[p].order < |s.orders| && !s.orders[s.legs[p].order].status.Voided?
    requires Waiting(s, t, p) && Aimed(t, p, cb)
    ensures var u := HandleCallback(t, cb, cfg).shop;
            if CanLand(s, p, cfg) && Genuine(cb, s.legs[p].amount) then Landing(s, u, p, cfg) else Waiting(s, u, p)
  {
    if CanLand(s, p, cfg) && Genuine(cb, s.legs[p].amount) {
      SettleBooks(s, t, p, cfg);
      CompleteBooks(t, p, cb.receipt, cb.amount, cfg);
    } else if Genuine(cb, s.legs[p].amount) {
      assert EarnDue(t.orders[s.legs[p].order], cfg) == EarnDue(s.orders[s.legs[p].order], cfg);
    }
  }

  lemma CallbackAfterLanding(s: Shop, t: Shop, p: nat, cb: Callback, cfg: Config)
    requires CanLand(s, p, cfg) && Landing(s, t, p, cfg) && Aimed(t, p, cb)
    ensures Landing(s, HandleCallback(t, cb, cfg).shop, p, cfg)
  {
  }

  // ---- any finite sequence of them ----

  // The leg completes exactly when some callback is a genuine success and the
  // order can take it; then the books are those of one completion, and otherwise
  // they are untouched. A mismatched amount never completes a sale.
  lemma {:induction false} CallbacksConverge(s: Shop, p: nat, cbs: seq<Callback>, cfg: Config)
    requires p < |s.legs| && s.legs[p].order < |s.orders| && !s.orders[s.legs[p].order].status.Voided?
    requires !s.legs[p].status.LegCompleted?
    requires forall cb :: cb in cbs ==> Aimed(s, p, cb)
    ensures var t := RunCallbacks(s, cbs, cfg);
            if Lands(s, p, cbs, cfg) then Landing(s, t, p, cfg) else Waiting(s, t, p) && BooksOf(t) == BooksOf(s)
  {
    if cbs == [] {
      assert Waiting(s, s, p);
    } else {
      var n := |cbs| - 1;
      var cb := cbs[n];
      var t := RunCallbacks(s, cbs[..n], cfg);
      CallbacksConverge(s, p, cbs[..n], cfg);
      assert cb in cbs;
      AimedStays(s, t, p, cb);
      if Lands(s, p, cbs[..n], cfg) {
        var earlier :| earlier in cbs[..n] && Genuine(earlier, s.legs[p].amount);
        assert earlier in cbs;
        CallbackAfterLanding(s, t, p, cb, cfg);
      } else {
        CallbackWhileWaiting(s, t, p, cb, cfg);
        if Genuine(cb, s.legs[p].amount) && CanLand(s, p, cfg) {
          assert Lands(s, p, cbs, cfg);
        } else {
          LandsBy(s, p, cbs, cfg);
          WaitingBooks(s, RunCallbacks(s, cbs, cfg), p);
        }
      }
    }
  }

  // Order and repetition do not matter: two deliveries with the same callbacks in
  // them give the same books and the same verdict on the leg.
  lemma DeliveryOrderIsIrrelevant(s: Shop, p: nat, cbs: seq<Callback>, dbs: seq<Callback>, cfg: Config)
    requires p < |s.legs| && s.legs[p].order < |s.orders| && !s.orders[s.legs[p].order].status.Voided?
    requires !s.legs[p].status.LegCompleted?
    requires forall cb :: cb in cbs ==> Aimed(s, p, cb)
    requires forall cb :: cb in cbs <==> cb in dbs
    ensures var t, u := RunCallbacks(s, cbs, cfg), RunCallbacks(s, dbs, cfg);
            && |t.legs| == |s.legs| && |u.legs| == |s.legs|
            && BooksOf(t) == BooksOf(u)
            && (t.legs[p].status.LegCompleted? <==> u.legs[p].status.LegCompleted?)
  {
    CallbacksConverge(s, p, cbs, cfg);
    CallbacksConverge(s, p, dbs, cfg);
    assert Lands(s, p, cbs, cfg) <==> Lands(s, p, dbs, cfg);
  }
}
