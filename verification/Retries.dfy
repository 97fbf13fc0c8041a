// RetrySTKWithPhone reads the order first and opens its transaction afterwards. What
// other transactions committed in between decides what the retry does.

module Retries {
  import opened Sums
  import opened Tables
  import opened Tallies
  import opened TallyLaws
  import opened Orders
  import opened Soundness
  import opened Runs
  import opened LegRules
  import opened Lifecycle
  import opened TenderLaw
  import opened VoidLaw

  // ---- the read, anything, then the commit ----

  // Whatever a retry has read stays something an earlier read may have handed over.
  lemma ReadsStay(s: Shop, ops: seq<Op>, o: nat)
    requires Inv(s) && o < |s.orders| && s.orders[o].status.Pending?
    ensures ReadEarlier(Run(s, ops), o, s.orders[o].total, PendingLegs(s.legs, o))
  {
    RunSameLegs(s, ops);
    FreshRead(s, o);
    assert ops[..0] == [];
    RunAges(s, ops, 0, o);
  }

  // A retry that read the database s and committed after the transactions ops.
  function LateRetry(s: Shop, ops: seq<Op>, o: nat): Shop
    requires o < |s.orders|
  {
    RetryCommit(Run(s, ops), o, s.orders[o].total, PendingLegs(s.legs, o))
  }

  // It is a run like any other, so what holds of every run holds of it.
  lemma LateRetryIsRun(s: Shop, ops: seq<Op>, o: nat)
    requires Inv(s) && o < |s.orders| && s.orders[o].status.Pending?
    ensures LateRetry(s, ops, o) == Run(s, ops + [DoRetryCommit(o, s.orders[o].total, PendingLegs(s.legs, o))])
  {
    ReadsStay(s, ops, o);
    assert (ops + [DoRetryCommit(o, s.orders[o].total, PendingLegs(s.legs, o))])[..|ops|] == ops;
  }

  // The leg rules after it, given them before its commit.
  lemma LateRetryNeatIff(s: Shop, ops: seq<Op>, o: nat)
    requires Inv(s) && o < |s.orders| && s.orders[o].status.Pending? && Neat(Run(s, ops))
    ensures o < |Run(s, ops).orders|
    ensures Neat(LateRetry(s, ops, o))
            <==> !Run(s, ops).orders[o].status.Voided?
                 && PendingLegs(Run(s, ops).legs, o) <= PendingLegs(s.legs, o)
  {
    ReadsStay(s, ops, o);
    RetryCommitNeatIff(Run(s, ops), o, s.orders[o].total, PendingLegs(s.legs, o));
  }

  // The tender law after it, given it before its commit.
  lemma LateRetryTenderIff(s: Shop, ops: seq<Op>, o: nat)
    requires Inv(s) && o < |s.orders| && s.orders[o].status.Pending? && TenderOk(Run(s, ops))
    ensures o < |Run(s, ops).orders|
    ensures TenderOk(LateRetry(s, ops, o)) <==> RetryFits(Run(s, ops), o, PendingLegs(s.legs, o))
  {
    ReadsStay(s, ops, o);
    RunKeeps(s, ops);
    assert OrderOk(Run(s, ops), o);
    RetryKeepsTenderIff(Run(s, ops), o, s.orders[o].total, PendingLegs(s.legs, o));
  }

  // Money that landed on leg p between the read and the commit is written off the
  // order: the collected sum falls by exactly that leg.
  lemma LateRetryForgets(s: Shop, ops: seq<Op>, o: nat, p: nat)
    requires Inv(s) && o < |s.orders| && s.orders[o].status.Pending? && PendingLegs(s.legs, o) == {p}
    ensures var t := Run(s, ops);
            && p < |t.legs|
            && Collected(LateRetry(s, ops, o), o)
               == Collected(t, o) - (if t.legs[p].status.LegCompleted? then t.legs[p].amount else 0)
  {
    var t := Run(s, ops);
    RunSameLegs(s, ops);
    assert p in PendingLegs(s.legs, o);
    var swept := Supersede(t.legs, {p});
    assert swept == t.legs[p := t.legs[p].(status := LegFailed)];
    SumUpdated(t.legs, p, swept[p], CompletedCents(o));
    SumAppended(swept, RetryLeg(o, s.orders[o].total), CompletedCents(o));
  }

  // ---- a void in between ----

  lemma OneStep(s: Shop, op: Op)
    ensures Run(s, [op]) == Step(s, op)
  {
    assert [op][..0] == [];
  }

  lemma VoidLands(s: Shop, o: nat, caller: Caller)
    requires Inv(s) && MayVoid(s, o, caller) && s.orders[o].status.Pending?
    ensures var t := Run(s, [DoVoid(o, caller)]); o < |t.orders| && t.orders[o].status.Voided?
  {
    OneStep(s, DoVoid(o, caller));
    VoidSucceeds(s, o, caller);
  }

  lemma FreshLegWaits(s: Shop, o: nat, total: int, seen: set<nat>)
    ensures |s.legs| in PendingLegs(RetryCommit(s, o, total, seen).legs, o)
  {
  }

  // Read, void, commit: the voided order waits for money again.
  lemma VoidBeatsRetry(s: Shop, o: nat, caller: Caller)
    requires Inv(s) && MayVoid(s, o, caller) && s.orders[o].status.Pending?
    ensures var t := LateRetry(s, [DoVoid(o, caller)], o);
            && o < |t.orders| && t.orders[o].status.Voided? && PendingLegs(t.legs, o) != {} && !Neat(t)
  {
    var ops := [DoVoid(o, caller)];
    VoidLands(s, o, caller);
    VoidedRetryBreaks(Run(s, ops), o, s.orders[o].total, PendingLegs(s.legs, o));
    FreshLegWaits(Run(s, ops), o, s.orders[o].total, PendingLegs(s.legs, o));
  }

  // ---- another retry in between ----

  lemma RetryLands(s: Shop, o: nat)
    requires Inv(s) && o < |s.orders| && s.orders[o].status.Pending?
    ensures var seen := PendingLegs(s.legs, o); var t := Run(s, [DoRetryCommit(o, s.orders[o].total, seen)]);
            && t == RetryCommit(s, o, s.orders[o].total, seen) && Inv(t)
            && |s.legs| in PendingLegs(t.legs, o) && |s.legs| !in seen
  {
    var op := DoRetryCommit(o, s.orders[o].total, PendingLegs(s.legs, o));
    OneStep(s, op);
    FreshRead(s, o);
    FreshLegWaits(s, o, s.orders[o].total, PendingLegs(s.legs, o));
    RunKeeps(s, [op]);
  }

  // Two retries read the order, and both commit: the leg of the first was not seen by
  // the second, so the order waits for its full total twice.
  lemma RetryBeatsRetry(s: Shop, o: nat)
    requires Inv(s) && o < |s.orders| && s.orders[o].status.Pending?
    ensures var t := LateRetry(s, [DoRetryCommit(o, s.orders[o].total, PendingLegs(s.legs, o))], o);
            && |s.legs| in PendingLegs(t.legs, o) && |s.legs| + 1 in PendingLegs(t.legs, o) && !Neat(t)
            && |t.legs| == |s.legs| + 2
            && t.legs[|s.legs|].amount == t.legs[|s.legs| + 1].amount == RoundToShilling(s.orders[o].total)
  {
    var seen := PendingLegs(s.legs, o);
    RetryLands(s, o);
    var u := RetryCommit(s, o, s.orders[o].total, seen);
    MissedLegBreaks(u, o, s.orders[o].total, seen, |s.legs|);
    FreshLegWaits(u, o, s.orders[o].total, seen);
  }

  // ---- a payment in between ----

  // The only leg of o lands in full, with nothing to flag.
  predicate PaysInFull(s: Shop, p: nat, o: nat, cfg: Config) {
    && p < |s.legs| && o < |s.orders| && PendingLegs(s.legs, o) == {p} && s.legs[p].amount > 0
    && s.orders[o].status.Pending? && !s.orders[o].flagged && s.orders[o].total > 50
    && Settleable(s, s.orders[o], cfg) && !Short(s.products, s.orders[o].lines)
  }

  lemma PaymentLands(s: Shop, p: nat, o: nat, cfg: Config)
    requires PaysInFull(s, p, o, cfg)
    ensures var t := Run(s, [DoComplete(p, "", s.legs[p].amount, cfg)]);
            && o < |t.orders| && t.orders[o].status.Paid? && !t.orders[o].flagged && t.orders[o].total == s.orders[o].total
            && p < |t.legs| && t.legs[p].status.LegCompleted? && t.legs[p].amount == s.legs[p].amount
            && Collected(t, o) == Collected(s, o) + s.legs[p].amount
  {
    assert p in PendingLegs(s.legs, o);
    OneStep(s, DoComplete(p, "", s.legs[p].amount, cfg));
    CompletionOutcome(s, p, "", s.legs[p].amount, cfg);
  }

  lemma CommitKeepsOrders(s: Shop, o: nat, total: int, seen: set<nat>)
    ensures RetryCommit(s, o, total, seen).orders == s.orders
  {
  }

  // Read, payment, commit: the order stays PAID and unflagged, and all that paid it
  // is gone, although the read found nothing collected and no leg rule is broken.
  lemma PaymentBeatsRetry(s: Shop, p: nat, o: nat, cfg: Config)
    requires Inv(s) && PaysInFull(s, p, o, cfg) && Collected(s, o) == 0
    ensures var t := LateRetry(s, [DoComplete(p, "", s.legs[p].amount, cfg)], o);
            && Inv(t) && o < |t.orders| && t.orders[o].status.Paid? && !t.orders[o].flagged
            && Collected(t, o) == 0 && !TenderOk(t)
            && (Neat(s) ==> Neat(t))
  {
    var op := DoComplete(p, "", s.legs[p].amount, cfg);
    var t := LateRetry(s, [op], o);
    PaymentLands(s, p, o, cfg);
    LateRetryForgets(s, [op], o, p);
    CommitKeepsOrders(Run(s, [op]), o, s.orders[o].total, PendingLegs(s.legs, o));
    LateRetryIsRun(s, [op], o);
    RunKeeps(s, [op] + [DoRetryCommit(o, s.orders[o].total, PendingLegs(s.legs, o))]);
    assert !OrderCovered(t, o);
    if Neat(s) {
      PaymentStaysNeat(s, p, o, cfg);
    }
  }

  lemma PaymentStaysNeat(s: Shop, p: nat, o: nat, cfg: Config)
    requires Inv(s) && PaysInFull(s, p, o, cfg) && Neat(s)
    ensures Neat(LateRetry(s, [DoComplete(p, "", s.legs[p].amount, cfg)], o))
  {
    var op := DoComplete(p, "", s.legs[p].amount, cfg);
    OneStep(s, op);
    StepNeatIff(s, op);
    PaymentLands(s, p, o, cfg);
    CompleteWaits(s, p, cfg, o);
    LateRetryNeatIff(s, [op], o);
  }

  lemma CompleteWaits(s: Shop, p: nat, cfg: Config, o: nat)
    requires p < |s.legs|
    ensures PendingLegs(Complete(s, p, "", s.legs[p].amount, cfg).shop.legs, o) <= PendingLegs(s.legs, o)
  {
  }

  // ---- the smallest database ----

  lemma OneLeg(legs: seq<Leg>, o: nat)
    requires |legs| == 1
    ensures LegTally(legs, o) == LegPart(legs[0], o)
  {
    SumOne(legs, Waiting(o));
    SumOne(legs, CompletedCents(o));
    SumOne(legs, AsyncDone(o));
    SumOne(legs, LiveLegs(o));
    SumOne(legs, CreditCents(o));
    SumOne(legs, StrayInstant(o));
    SumOne(legs, VoidedCredit(o));
    SumOne(legs, TabLegs(o));
  }

  function OneSale(leg: Leg): Shop {
    Shop(map[], map[], [Order(Pending, 1000, NO_CUSTOMER, 0, [], 7, "", false, Unpaid)], [leg], [], [])
  }

  lemma OneSaleSound(leg: Leg)
    requires leg == Leg(0, Mpesa, 1000, LegPending, true, "", "", false)
    ensures Inv(OneSale(leg))
  {
    var s := OneSale(leg);
    OneLeg(s.legs, 0);
    RowsUnlinked(s.ledger, 0);
    CardsUnlinked(s.cards, 0);
    assert OrderOk(s, 0);
  }

  lemma OneSaleNeat(leg: Leg)
    requires leg == Leg(0, Mpesa, 1000, LegPending, true, "", "", false)
    ensures Neat(OneSale(leg)) && PendingLegs(OneSale(leg).legs, 0) == {0} && Collected(OneSale(leg), 0) == 0
  {
    OneLeg(OneSale(leg).legs, 0);
    assert NeatAt(OneSale(leg), 0);
  }

  // One sale of 1000 that waits for its leg. A void in between breaks the leg rules.
  lemma RetryAfterVoid() returns (s: Shop)
    ensures s.orders == [Order(Pending, 1000, NO_CUSTOMER, 0, [], 7, "", false, Unpaid)]
    ensures Inv(s) && Neat(s) && !Neat(LateRetry(s, [DoVoid(0, Caller(7, false))], 0))
  {
    var leg := Leg(0, Mpesa, 1000, LegPending, true, "", "", false);
    OneSaleSound(leg);
    OneSaleNeat(leg);
    s := OneSale(leg);
    VoidBeatsRetry(s, 0, Caller(7, false));
  }

  lemma OneSalePays(leg: Leg)
    requires leg == Leg(0, Mpesa, 1000, LegPending, true, "", "", false)
    ensures PaysInFull(OneSale(leg), 0, 0, Config(false, 0))
  {
    OneSaleNeat(leg);
  }

  // The full payment in between leaves it PAID, unflagged and with nothing collected.
  lemma RetryAfterPayment() returns (s: Shop)
    ensures s.orders == [Order(Pending, 1000, NO_CUSTOMER, 0, [], 7, "", false, Unpaid)]
    ensures Inv(s) && |s.legs| == 1 && s.legs[0].amount == 1000
    ensures var t := LateRetry(s, [DoComplete(0, "", s.legs[0].amount, Config(false, 0))], 0);
            && 0 < |t.orders| && t.orders[0].status.Paid? && !t.orders[0].flagged && Collected(t, 0) == 0
  {
    var leg := Leg(0, Mpesa, 1000, LegPending, true, "", "", false);
    OneSaleSound(leg);
    OneSaleNeat(leg);
    OneSalePays(leg);
    s := OneSale(leg);
    PaymentBeatsRetry(s, 0, 0, Config(false, 0));
  }
}
