// What any delivery of callbacks leaves on the payment leg and on the flag of its order.

module CallbackFates {
  import opened Tables
  import opened Orders
  import opened Callbacks
  import opened Completions

  // Success for an amount that is not the one stored when the prompt was sent.
  predicate Forged(cb: Callback, amount: int) {
    cb.success && (cb.amount <= 0 || cb.amount != amount)
  }

  predicate SomeForged(cbs: seq<Callback>, amount: int) {
    exists cb :: cb in cbs && Forged(cb, amount)
  }

  predicate SomeBad(cbs: seq<Callback>, amount: int) {
    exists cb :: cb in cbs && (!cb.success || Forged(cb, amount))
  }

  // The callback is about leg p.
  predicate Names(s: Shop, p: nat, cb: Callback) {
    p < |s.legs| && cb.checkout != "" && FindCheckout(s.legs, cb.checkout) == p
  }

  // A success for the stored amount, with a receipt no other leg carries.
  predicate Pays(s: Shop, p: nat, cb: Callback)
    requires p < |s.legs|
  {
    Genuine(cb, s.legs[p].amount) && ReceiptFree(s.legs, cb.receipt, p)
  }

  predicate SomePays(s: Shop, p: nat, cbs: seq<Callback>)
    requires p < |s.legs|
  {
    exists cb :: cb in cbs && Pays(s, p, cb)
  }

  // The leg after callbacks that did not complete it: FAILED by the first bad one if it
  // was PENDING, and otherwise as it was.
  function Left(was: LegStatus, bad: bool): LegStatus {
    if was == LegPending && bad then LegFailed else was
  }

  // An open leg of a live order that callbacks cbs are all about.
  predicate Addressed(s: Shop, p: nat, cbs: seq<Callback>) {
    && p < |s.legs| && s.legs[p].order < |s.orders| && s.legs[p].status != LegCompleted
    && s.orders[s.legs[p].order].status != Voided && Distinct(s.orders[s.legs[p].order].lines)
    && forall cb :: cb in cbs ==> Names(s, p, cb)
  }

  predicate Takes(s: Shop, p: nat, cfg: Config)
    requires p < |s.legs| && s.legs[p].order < |s.orders|
  {
    s.orders[s.legs[p].order].status == Pending ==> Sellable(s, s.orders[s.legs[p].order], cfg)
  }

  // ---- one callback ----

  // t is s after callbacks that did not land.
  predicate Unpaid(s: Shop, t: Shop, p: nat, bad: bool, forged: bool)
    requires p < |s.legs| && s.legs[p].order < |s.orders|
  {
    var o := s.legs[p].order;
    t == s.(legs := s.legs[p := s.legs[p].(status := Left(s.legs[p].status, bad))],
            orders := s.orders[o := s.orders[o].(flagged := s.orders[o].flagged || forged)])
  }

  predicate Bad(cb: Callback, amount: int) {
    !cb.success || Forged(cb, amount)
  }

  // Only leg p was written, so lookups and receipts on other legs are as before.
  lemma NamesStill(s: Shop, t: Shop, p: nat, cb: Callback)
    requires Names(s, p, cb) && |t.legs| == |s.legs| && t.legs == s.legs[p := t.legs[p]] && t.legs[p].checkout == s.legs[p].checkout
    ensures Names(t, p, cb)
    ensures ReceiptFree(t.legs, cb.receipt, p) <==> ReceiptFree(s.legs, cb.receipt, p)
  {
    FindCheckoutSame(s.legs, t.legs, cb.checkout);
  }

  lemma OneUnpaid(s: Shop, t: Shop, p: nat, cb: Callback, cfg: Config, bad: bool, forged: bool)
    requires Addressed(s, p, [cb]) && Unpaid(s, t, p, bad, forged) && Names(t, p, cb)
    requires !Pays(s, p, cb) || !Takes(s, p, cfg)
    ensures Unpaid(s, HandleCallback(t, cb, cfg).shop, p, bad || Bad(cb, s.legs[p].amount), forged || Forged(cb, s.legs[p].amount))
  {
    if !Bad(cb, s.legs[p].amount) {
      assert cb in [cb];
      NamesStill(s, t, p, cb);
      CompletionRefused(t, p, cb.receipt, cb.amount, cfg);
    }
  }

  // Once the leg has completed, a forged success still flags the order and nothing else moves.
  lemma AfterLanding(t: Shop, p: nat, cb: Callback, cfg: Config)
    requires p < |t.legs| && t.legs[p].order < |t.orders| && t.legs[p].status == LegCompleted && Names(t, p, cb)
    ensures var o := t.legs[p].order;
            HandleCallback(t, cb, cfg).shop
            == t.(orders := t.orders[o := t.orders[o].(flagged := t.orders[o].flagged || Forged(cb, t.legs[p].amount))])
  {
  }

  // ---- any delivery ----

  lemma OneMore(cbs: seq<Callback>, amount: int)
    requires cbs != []
    ensures var n := |cbs| - 1;
            && (SomeBad(cbs, amount) <==> SomeBad(cbs[..n], amount) || Bad(cbs[n], amount))
            && (SomeForged(cbs, amount) <==> SomeForged(cbs[..n], amount) || Forged(cbs[n], amount))
  {
    assert cbs == cbs[..|cbs| - 1] + [cbs[|cbs| - 1]];
  }

  // No callback pays, or the sale cannot be settled: the leg is FAILED by any bad
  // callback if it was PENDING, the order is flagged by a forged one, and nothing else moves.
  lemma {:induction false} FailedDelivery(s: Shop, p: nat, cbs: seq<Callback>, cfg: Config)
    requires Addressed(s, p, cbs) && (!SomePays(s, p, cbs) || !Takes(s, p, cfg))
    ensures Unpaid(s, RunCallbacks(s, cbs, cfg), p, SomeBad(cbs, s.legs[p].amount), SomeForged(cbs, s.legs[p].amount))
  {
    var amount := s.legs[p].amount;
    if cbs == [] {
      assert s.legs[p := s.legs[p]] == s.legs && s.orders[s.legs[p].order := s.orders[s.legs[p].order]] == s.orders;
    } else {
      var n := |cbs| - 1;
      var t := RunCallbacks(s, cbs[..n], cfg);
      OneMore(cbs, amount);
      FailedDelivery(s, p, cbs[..n], cfg);
      assert cbs[n] in cbs;
      NamesStill(s, t, p, cbs[n]);
      OneUnpaid(s, t, p, cbs[n], cfg, SomeBad(cbs[..n], amount), SomeForged(cbs[..n], amount));
    }
  }

  // The first callback of the delivery that pays is number k.
  predicate FirstPays(s: Shop, p: nat, cbs: seq<Callback>, k: nat)
    requires p < |s.legs|
  {
    k < |cbs| && Pays(s, p, cbs[k]) && forall i :: 0 <= i < k ==> !Pays(s, p, cbs[i])
  }

  // The payment was taken twice, or stock is short.
  predicate Odd(s: Shop, p: nat)
    requires p < |s.legs| && s.legs[p].order < |s.orders|
  {
    var order := s.orders[s.legs[p].order];
    order.status == Paid || Oversold(s.products, order.lines)
  }

  predicate LandedLeg(s: Shop, t: Shop, p: nat, receipt: string)
    requires p < |s.legs| && s.legs[p].order < |s.orders|
  {
    t.legs == s.legs[p := s.legs[p].(status := LegCompleted, receipt := if receipt == "" then s.legs[p].receipt else receipt,
                                     flagged := Odd(s, p))]
  }

  // The leg completes with the receipt of the first callback that pays; its order ends
  // PAID, and flagged by a forged callback, a second payment or short stock.
  predicate PaidBy(s: Shop, t: Shop, p: nat, receipt: string, forged: bool)
    requires p < |s.legs| && s.legs[p].order < |s.orders|
  {
    var o := s.legs[p].order;
    && LandedLeg(s, t, p, receipt)
    && |t.orders| == |s.orders| && t.orders == s.orders[o := t.orders[o]] && t.orders[o].status == Paid
    && (t.orders[o].flagged <==> s.orders[o].flagged || forged || Odd(s, p))
  }

  lemma Lands(s: Shop, t: Shop, p: nat, cb: Callback, cfg: Config, bad: bool, forged: bool)
    requires Addressed(s, p, [cb]) && Unpaid(s, t, p, bad, forged) && Names(t, p, cb)
    requires Pays(s, p, cb) && Takes(s, p, cfg)
    ensures PaidBy(s, HandleCallback(t, cb, cfg).shop, p, cb.receipt, forged)
  {
    CompletedLeg(t, p, cb.receipt, cb.amount, cfg);
    if t.orders[t.legs[p].order].status == Pending {
      CompletedSale(t, p, cb.receipt, cb.amount, cfg);
    } else {
      PaidAgain(t, p, cb.receipt, cb.amount, cfg);
    }
  }

  lemma StaysPaid(s: Shop, t: Shop, p: nat, receipt: string, forged: bool, cb: Callback, cfg: Config)
    requires p < |s.legs| && s.legs[p].order < |s.orders|
    requires PaidBy(s, t, p, receipt, forged) && Names(t, p, cb)
    ensures PaidBy(s, HandleCallback(t, cb, cfg).shop, p, receipt, forged || Forged(cb, s.legs[p].amount))
  {
    AfterLanding(t, p, cb, cfg);
  }

  lemma {:induction false} PaidDelivery(s: Shop, p: nat, cbs: seq<Callback>, cfg: Config, k: nat)
    requires Addressed(s, p, cbs) && Takes(s, p, cfg) && FirstPays(s, p, cbs, k)
    ensures PaidBy(s, RunCallbacks(s, cbs, cfg), p, cbs[k].receipt, SomeForged(cbs, s.legs[p].amount))
  {
    var amount := s.legs[p].amount;
    var n := |cbs| - 1;
    var t := RunCallbacks(s, cbs[..n], cfg);
    OneMore(cbs, amount);
    assert cbs[n] in cbs;
    if k < n {
      PaidDelivery(s, p, cbs[..n], cfg, k);
      NamesStill(s, t, p, cbs[n]);
      StaysPaid(s, t, p, cbs[k].receipt, SomeForged(cbs[..n], amount), cbs[n], cfg);
    } else {
      assert !SomePays(s, p, cbs[..n]);
      FailedDelivery(s, p, cbs[..n], cfg);
      NamesStill(s, t, p, cbs[n]);
      Lands(s, t, p, cbs[n], cfg, SomeBad(cbs[..n], amount), SomeForged(cbs[..n], amount));
    }
  }

  // ---- refused callbacks ----

  // No leg has this checkout id, plain or with the prefix: nothing happens.
  lemma UnknownCheckout(s: Shop, cb: Callback, cfg: Config)
    requires cb.checkout == "" || forall l :: l in s.legs ==> l.checkout != cb.checkout && l.checkout != "BUNI-" + cb.checkout
    ensures HandleCallback(s, cb, cfg) == Tx(s, Err(NotFound))
  {
    var p := FindCheckout(s.legs, cb.checkout);
    assert p < |s.legs| ==> s.legs[p] in s.legs;
  }

  // What the provider is told about a callback for an open leg of a live order.
  lemma CallbackAnswers(s: Shop, p: nat, cb: Callback, cfg: Config)
    requires Addressed(s, p, [cb])
    ensures HandleCallback(s, cb, cfg).out
            == if !cb.success then Ok
               else if Forged(cb, s.legs[p].amount) then Err(InvalidState)
               else if !ReceiptFree(s.legs, cb.receipt, p) then Err(DuplicateReceipt)
               else if Takes(s, p, cfg) then Ok
               else Err(NotFound)
  {
    assert Names(s, p, cb);
    if Pays(s, p, cb) {
      if Takes(s, p, cfg) {
        CompletedLeg(s, p, cb.receipt, cb.amount, cfg);
      } else {
        CompletionRefused(s, p, cb.receipt, cb.amount, cfg);
      }
    }
  }

  // Money for a VOIDED order only fails its leg, to be refunded; a forged success also flags it.
  lemma VoidedCallback(s: Shop, p: nat, cb: Callback, cfg: Config)
    requires p < |s.legs| && s.legs[p].order < |s.orders| && s.orders[s.legs[p].order].status == Voided
    requires s.legs[p].status != LegCompleted && Names(s, p, cb)
    ensures var o := s.legs[p].order; var amount := s.legs[p].amount;
            HandleCallback(s, cb, cfg)
            == Tx(s.(legs := s.legs[p := s.legs[p].(status := if Genuine(cb, amount) then LegFailed
                                                              else Left(s.legs[p].status, true))],
                     orders := s.orders[o := s.orders[o].(flagged := s.orders[o].flagged || Forged(cb, amount))]),
                  if cb.success then Err(InvalidState) else Ok)
  {
    assert s.orders[s.legs[p].order := s.orders[s.legs[p].order]] == s.orders;
  }
}
