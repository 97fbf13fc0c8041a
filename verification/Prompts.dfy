// Phone prompts from the outside: which legs a retry, a push, a time-out and a recheck
// write, and that no two legs ever wait for the same checkout id.

module Prompts {
  import opened Tables
  import opened Orders
  import opened Runs
  import opened TenderLaw
  import opened TillSteps
  import opened Completions
  import opened ManualReceipts

  // ---- whole shillings ----

  // The nearest whole shilling, and of two equally near the one further from zero.
  lemma WholeShillings(cents: int)
    ensures var r := RoundToShilling(cents);
            && r % 100 == 0 && -50 <= r - cents <= 50
            && (r - cents == 50 ==> cents >= 0) && (r - cents == -50 ==> cents < 0)
  {
  }

  // ---- retry ----

  // The fresh leg of a retry, for the full total whatever has been paid.
  predicate FreshPrompt(leg: Leg, o: nat, total: int) {
    leg == Leg(o, Mpesa, leg.amount, LegPending, true, "", "", false) && leg.amount == RoundToShilling(total)
  }

  // A retry is refused without a phone number, without the order, or once it is not
  // PENDING, and changes nothing. Otherwise every open leg of the order fails and a
  // fresh one waits.
  lemma RetryWrites(s: Shop, o: nat, phoneOk: bool)
    ensures var tx := Retry(s, o, phoneOk); var t := tx.shop;
            && (tx.out == Ok <==> phoneOk && o < |s.orders| && s.orders[o].status == Pending)
            && (tx.out != Ok ==> t == s)
            && (tx.out == Err(NotFound) <==> phoneOk && o >= |s.orders|)
            && (tx.out == Err(InvalidState) <==> phoneOk && o < |s.orders| && s.orders[o].status != Pending)
            && (tx.out == Ok ==>
                  && t == s.(legs := t.legs) && |t.legs| == |s.legs| + 1 && FreshPrompt(t.legs[|s.legs|], o, s.orders[o].total)
                  && forall i :: 0 <= i < |s.legs| ==>
                       t.legs[i] == if OpenLegOf(s.legs[i], o) then s.legs[i].(status := LegFailed) else s.legs[i])
  {
  }

  // A commit on an earlier read fails the legs that were seen, whatever they have become.
  lemma CommitWrites(s: Shop, o: nat, total: int, seen: set<nat>)
    ensures var t := RetryCommit(s, o, total, seen);
            && t == s.(legs := t.legs) && |t.legs| == |s.legs| + 1 && FreshPrompt(t.legs[|s.legs|], o, total)
            && forall i :: 0 <= i < |s.legs| ==> t.legs[i] == if i in seen then s.legs[i].(status := LegFailed) else s.legs[i]
  {
  }

  // ---- push ----

  predicate CheckoutUsed(legs: seq<Leg>, checkout: string, p: nat) {
    exists j :: 0 <= j < |legs| && j != p && legs[j].checkout == checkout
  }

  // Older M-Pesa prompts of the order fail, and no other leg.
  predicate Superseded(was: seq<Leg>, now: seq<Leg>, p: nat) {
    && |now| == |was| && p < |was|
    && forall i :: 0 <= i < |was| && i != p ==>
         now[i] == if OpenLegOf(was[i], was[p].order) && was[i].rail == Mpesa then was[i].(status := LegFailed) else was[i]
  }

  predicate PromptOut(legs: seq<Leg>, p: nat, recent: set<nat>) {
    exists i: nat :: i < |legs| && p < |legs| && i != p && i in recent && legs[i].order == legs[p].order && legs[i].rail == Mpesa
                     && "BUNI-" <= legs[i].checkout
  }

  lemma StartWrites(s: Shop, p: nat)
    requires p < |s.legs|
    ensures var t := Step(s, DoStartPush(p)); t == s.(legs := t.legs) && Superseded(s.legs, t.legs, p) && t.legs[p] == s.legs[p]
  {
  }

  // The leg after the provider's answer.
  function Answered(legs: seq<Leg>, p: nat, accepted: bool, checkout: string): Leg
    requires p < |legs|
  {
    if legs[p].status != LegPending then legs[p]
    else if !accepted then legs[p].(status := LegFailed)
    else if CheckoutUsed(legs, "BUNI-" + checkout, p) then legs[p]
    else legs[p].(checkout := "BUNI-" + checkout)
  }

  lemma EndWrites(s: Shop, p: nat, accepted: bool, checkout: string)
    requires p < |s.legs|
    ensures Step(s, PushEnd(p, accepted, checkout)) == s.(legs := s.legs[p := Answered(s.legs, p, accepted, checkout)])
  {
    assert s.legs[p := s.legs[p]] == s.legs;
  }

  lemma SameAnswer(was: seq<Leg>, now: seq<Leg>, p: nat, accepted: bool, checkout: string)
    requires Superseded(was, now, p) && now[p] == was[p]
    ensures Answered(now, p, accepted, checkout) == Answered(was, p, accepted, checkout)
  {
    assert forall j :: 0 <= j < |was| ==> now[j].checkout == was[j].checkout;
  }

  lemma LetThrough(s: Shop, p: nat, recent: set<nat>)
    requires p < |s.legs| && !PromptOut(s.legs, p, recent)
    ensures !PromptBusy(s.legs, p, recent)
  {
  }

  // A push that is let through: the leg itself carries the prefixed checkout id when the
  // provider accepted and nobody else has it, fails when the provider refused, and is
  // left alone when it was no longer PENDING.
  lemma PushWrites(s: Shop, p: nat, recent: set<nat>, accepted: bool, checkout: string)
    requires p < |s.legs| && s.legs[p].hasPhone && !PromptOut(s.legs, p, recent)
    ensures var t := Run(s, PushOps(s.legs, p, recent, accepted, checkout));
            && t == s.(legs := t.legs) && Superseded(s.legs, t.legs, p)
            && t.legs[p] == Answered(s.legs, p, accepted, checkout)
  {
    LetThrough(s, p, recent);
    RunTwo(s, DoStartPush(p), PushEnd(p, accepted, checkout));
    var u := Step(s, DoStartPush(p));
    StartWrites(s, p);
    EndWrites(u, p, accepted, checkout);
    SameAnswer(s.legs, u.legs, p, accepted, checkout);
  }

  // Without a phone, or while another prompt of the order is out, nothing is written.
  lemma PushRefused(s: Shop, p: nat, recent: set<nat>, accepted: bool, checkout: string)
    requires p < |s.legs| && (!s.legs[p].hasPhone || PromptOut(s.legs, p, recent))
    ensures Run(s, PushOps(s.legs, p, recent, accepted, checkout)) == s
  {
    if PromptOut(s.legs, p, recent) {
      var i: nat :| i < |s.legs| && i != p && i in recent && s.legs[i].order == s.legs[p].order && s.legs[i].rail == Mpesa
                    && "BUNI-" <= s.legs[i].checkout;
      assert BusyLeg(s.legs, p, recent, i);
    }
  }

  // ---- one leg for a checkout id ----

  predicate UniqueCheckouts(legs: seq<Leg>) {
    forall i, j :: 0 <= i < j < |legs| && legs[i].checkout != "" ==> legs[i].checkout != legs[j].checkout
  }

  // No checkout id appears or moves, and new legs have none.
  predicate SameCheckouts(s: Shop, t: Shop) {
    && |s.legs| <= |t.legs|
    && (forall i :: 0 <= i < |s.legs| ==> t.legs[i].checkout == s.legs[i].checkout)
    && (forall i :: |s.legs| <= i < |t.legs| ==> t.legs[i].checkout == "")
  }

  lemma CompleteBindsNone(s: Shop, p: nat, receipt: string, amount: int, cfg: Config)
    ensures SameCheckouts(s, Complete(s, p, receipt, amount, cfg).shop)
  {
  }

  lemma ManualBindsNone(s: Shop, o: nat, code: string, cfg: Config)
    ensures SameCheckouts(s, ManualConfirm(s, o, code, cfg).shop)
  {
    if o < |s.orders| {
      var p := LastPending(s.legs, o);
      var legs := Collecting(s, o);
      CompleteBindsNone(s.(legs := legs), p, code, legs[p].amount, cfg);
    }
  }

  lemma CallbackBindsNone(s: Shop, cb: Callback, cfg: Config)
    ensures SameCheckouts(s, HandleCallback(s, cb, cfg).shop)
  {
    CompleteBindsNone(s, FindCheckout(s.legs, cb.checkout), cb.receipt, cb.amount, cfg);
  }

  lemma CheckoutBindsNone(s: Shop, cart: Cart, cfg: Config)
    ensures SameCheckouts(s, Checkout(s, cart, cfg).shop)
  {
    if Checkout(s, cart, cfg).shop != s {
      OpenLegsAppend(s.(orders := s.orders + [NewOrder(cart)]), |s.orders|, cart, cart.Specs());
    }
  }

  lemma VoidBindsNone(s: Shop, o: nat, caller: Caller)
    ensures SameCheckouts(s, Void(s, o, caller).shop)
  {
  }

  lemma StepBindsNone(s: Shop, op: Op)
    requires !op.DoBind?
    ensures SameCheckouts(s, Step(s, op))
  {
    match op
    case DoCheckout(cart, cfg) => if cart.payable >= 0 { CheckoutBindsNone(s, cart, cfg); }
    case DoComplete(p, receipt, amount, cfg) => CompleteBindsNone(s, p, receipt, amount, cfg);
    case DoManual(o, code, cfg) => ManualBindsNone(s, o, code, cfg);
    case DoCallback(cb, cfg) => CallbackBindsNone(s, cb, cfg);
    case DoVoid(o, caller) => VoidBindsNone(s, o, caller);
    case _ =>
  }

  lemma StepKeepsCheckouts(s: Shop, op: Op)
    requires UniqueCheckouts(s.legs)
    ensures UniqueCheckouts(Step(s, op).legs)
  {
    if !op.DoBind? {
      StepBindsNone(s, op);
    }
  }

  // In every run a checkout id names at most one leg.
  lemma {:induction false} OneLegPerCheckout(s: Shop, ops: seq<Op>)
    requires UniqueCheckouts(s.legs)
    ensures UniqueCheckouts(Run(s, ops).legs)
  {
    if ops != [] {
      OneLegPerCheckout(s, ops[..|ops| - 1]);
      StepKeepsCheckouts(Run(s, ops[..|ops| - 1]), ops[|ops| - 1]);
    }
  }

  // A callback is about the first leg whose checkout id it names, plain or prefixed.
  lemma {:induction false} CallbackLeg(legs: seq<Leg>, checkout: string, p: nat)
    requires p < |legs| && (legs[p].checkout == checkout || legs[p].checkout == "BUNI-" + checkout)
    requires forall i :: 0 <= i < p ==> legs[i].checkout != checkout && legs[i].checkout != "BUNI-" + checkout
    ensures FindCheckout(legs, checkout) == p
  {
    var n := |legs| - 1;
    if p < n {
      CallbackLeg(legs[..n], checkout, p);
    }
  }

  // ---- time-outs ----

  // Legs found and expired fail if they were PENDING, and no other leg is written.
  predicate TimedOut(was: seq<Leg>, now: seq<Leg>, found: seq<nat>, expired: set<nat>) {
    && |now| == |was|
    && forall i :: 0 <= i < |was| ==>
         now[i] == if i in found && i in expired && was[i].status == LegPending then was[i].(status := LegFailed) else was[i]
  }

  lemma FailWrites(u: Shop, p: nat)
    requires p < |u.legs|
    ensures var leg := u.legs[p];
            Step(u, DoFail(p)) == u.(legs := u.legs[p := if leg.status == LegPending then leg.(status := LegFailed) else leg])
  {
  }

  lemma OneMoreTimedOut(was: seq<Leg>, now: seq<Leg>, found: seq<nat>, expired: set<nat>, p: nat)
    requires p < |was| && TimedOut(was, now, found, expired)
    ensures var leg := now[p];
            TimedOut(was, if p !in expired then now
                          else now[p := if leg.status == LegPending then leg.(status := LegFailed) else leg], found + [p], expired)
  {
  }

  lemma {:induction false} TimeOutsWrite(s: Shop, found: seq<nat>, expired: set<nat>)
    requires forall i :: i in found ==> i < |s.legs|
    ensures var t := Run(s, TimeoutOps(found, expired)); t == s.(legs := t.legs) && TimedOut(s.legs, t.legs, found, expired)
  {
    if found != [] {
      var n := |found| - 1;
      assert found == found[..n] + [found[n]];
      forall i | i in found[..n]
        ensures i < |s.legs|
      {
        assert i in found;
      }
      assert found[n] in found;
      TimeOutsWrite(s, found[..n], expired);
      var u := Run(s, TimeoutOps(found[..n], expired));
      RunOneMore(s, TimeoutOps(found[..n], expired), DoFail(found[n]));
      FailWrites(u, found[n]);
      OneMoreTimedOut(s.legs, u.legs, found[..n], expired, found[n]);
    }
  }

  predicate PromptLeg(leg: Leg) {
    leg.rail == Mpesa && "BUNI-" <= leg.checkout && (leg.status == LegPending || leg.status == LegFailed)
  }

  // The prompts newer than leg i, up to id n.
  function Newer(legs: seq<Leg>, i: nat, n: nat): set<nat>
    requires n <= |legs|
  {
    set j: nat | i < j < n && PromptLeg(legs[j])
  }

  lemma NewerGrows(legs: seq<Leg>, i: nat, n: nat)
    requires i < n - 1 && n <= |legs|
    ensures |Newer(legs, i, n)| == |Newer(legs, i, n - 1)| + (if PromptLeg(legs[n - 1]) then 1 else 0)
  {
    if PromptLeg(legs[n - 1]) {
      assert Newer(legs, i, n) == Newer(legs, i, n - 1) + {n - 1};
    } else {
      assert Newer(legs, i, n) == Newer(legs, i, n - 1);
    }
  }

  // A batch is the newest prompts there is room for: a leg is in it exactly when fewer
  // than that many are newer.
  lemma {:induction false} BatchIff(legs: seq<Leg>, n: nat, room: nat, i: nat)
    requires i < n <= |legs| && PromptLeg(legs[i])
    ensures i in Candidates(legs, n, room) <==> |Newer(legs, i, n)| < room
  {
    if room > 0 {
      if i == n - 1 {
        assert Newer(legs, i, n) == {};
      } else {
        NewerGrows(legs, i, n);
        BatchIff(legs, n - 1, if PromptLeg(legs[n - 1]) then room - 1 else room, i);
      }
    }
  }

  // What a sweep without claimed callbacks writes: exactly the expired PENDING prompts
  // among the newest hundred fail.
  lemma SweepWrites(s: Shop, expired: set<nat>, cfg: Config)
    ensures var t := Run(s, SweepOps(s.legs, expired, [], cfg));
            && t == s.(legs := t.legs) && |t.legs| == |s.legs|
            && forall i: nat :: i < |s.legs| ==>
                 t.legs[i] == if PromptLeg(s.legs[i]) && s.legs[i].status == LegPending && i in expired && |Newer(s.legs, i, |s.legs|)| < 100
                              then s.legs[i].(status := LegFailed) else s.legs[i]
  {
    var found := Candidates(s.legs, |s.legs|, SWEEP_LIMIT);
    CandidatesInRange(s.legs, |s.legs|, SWEEP_LIMIT);
    assert TimeoutOps(found, expired) + CallbackOps([], cfg) == TimeoutOps(found, expired);
    TimeOutsWrite(s, found, expired);
    forall i: nat | i < |s.legs| && PromptLeg(s.legs[i])
      ensures i in found <==> |Newer(s.legs, i, |s.legs|)| < 100
    {
      BatchIff(s.legs, |s.legs|, SWEEP_LIMIT, i);
    }
  }

  // ---- recheck ----

  // A prompt whose provider can be asked.
  predicate Askable(leg: Leg, o: nat) {
    leg.order == o && leg.rail == Mpesa && leg.status == LegPending && leg.checkout != "" && !("BUNI-" <= leg.checkout)
  }

  predicate Confirmed(legs: seq<Leg>, o: nat, answers: nat -> Callback, p: nat) {
    p < |legs| && Askable(legs[p], o) && answers(p).success
  }

  lemma ConfirmedBefore(legs: seq<Leg>, o: nat, answers: nat -> Callback, n: nat)
    requires n <= |legs|
    ensures forall i: nat :: Confirmed(legs[..n], o, answers, i) <==> i < n && Confirmed(legs, o, answers, i)
  {
    assert forall i: nat :: i < n ==> legs[..n][i] == legs[i];
  }

  lemma {:induction false} FirstConfirmedIs(legs: seq<Leg>, o: nat, answers: nat -> Callback, p: nat)
    requires Confirmed(legs, o, answers, p) && forall i: nat :: i < p ==> !Confirmed(legs, o, answers, i)
    ensures FirstConfirmed(legs, o, answers) == p
  {
    var n := |legs| - 1;
    ConfirmedBefore(legs, o, answers, n);
    if p < n {
      FirstConfirmedIs(legs[..n], o, answers, p);
    } else {
      NoneConfirmed(legs[..n], o, answers);
    }
  }

  lemma {:induction false} NoneConfirmed(legs: seq<Leg>, o: nat, answers: nat -> Callback)
    requires forall i: nat :: !Confirmed(legs, o, answers, i)
    ensures FirstConfirmed(legs, o, answers) == |legs|
  {
    if legs != [] {
      var n := |legs| - 1;
      ConfirmedBefore(legs, o, answers, n);
      NoneConfirmed(legs[..n], o, answers);
      assert !Confirmed(legs, o, answers, n);
    }
  }

  // The first confirmed prompt of a PENDING order is completed with the provider's
  // receipt and amount, and the sale becomes PAID.
  lemma RecheckPays(s: Shop, o: nat, answers: nat -> Callback, cfg: Config, p: nat)
    requires o < |s.orders| && s.orders[o].status == Pending
    requires Confirmed(s.legs, o, answers, p) && forall i: nat :: i < p ==> !Confirmed(s.legs, o, answers, i)
    requires Payable(s, p, answers(p).receipt, cfg)
    ensures var tx := Recheck(s, o, answers, cfg); var t := tx.shop; var cb := answers(p);
            var odd := cb.amount <= 0 || cb.amount != s.legs[p].amount || Oversold(s.products, s.orders[o].lines);
            && tx.out == Ok && SaleDone(s, t, o, cfg) && (t.orders[o].flagged <==> s.orders[o].flagged || odd)
            && t.legs == s.legs[p := s.legs[p].(status := LegCompleted, flagged := odd,
                                                receipt := if cb.receipt == "" then s.legs[p].receipt else cb.receipt)]
  {
    FirstConfirmedIs(s.legs, o, answers, p);
    CompletedLeg(s, p, answers(p).receipt, answers(p).amount, cfg);
    CompletedSale(s, p, answers(p).receipt, answers(p).amount, cfg);
  }

  // In every other case nothing changes.
  lemma RecheckIdle(s: Shop, o: nat, answers: nat -> Callback, cfg: Config)
    requires o < |s.orders| && s.orders[o].status == Pending ==> forall i: nat :: !Confirmed(s.legs, o, answers, i)
    ensures Recheck(s, o, answers, cfg)
            == Tx(s, if o >= |s.orders| then Err(NotFound) else if s.orders[o].status == Voided then Err(InvalidState) else Ok)
  {
    if o < |s.orders| && s.orders[o].status == Pending {
      NoneConfirmed(s.legs, o, answers);
    }
  }
}
