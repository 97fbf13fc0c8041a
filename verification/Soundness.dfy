// What every reachable database satisfies.

module Soundness {
  import opened Sums
  import opened Tables
  import opened Tallies
  import opened TallyLaws
  import opened Orders

  // The merged lines of an order: one per product, at least one unit each.
  predicate GoodLines(ps: map<int, Product>, lines: seq<Line>) {
    KnownLines(ps, lines) && Distinct(lines) && forall l :: l in lines ==> l.qty > 0
  }

  // Foreign keys hold, nothing that is guarded against going negative has.
  predicate Linked(s: Shop) {
    && NO_CUSTOMER !in s.customers
    && Stocked(s.products)
    && (forall c :: c in s.customers ==> s.customers[c].credit >= 0)
    && (forall o :: o in s.orders ==> GoodLines(s.products, o.lines))
    && (forall l :: l in s.legs ==> l.order < |s.orders|)
    && (forall r :: r in s.ledger ==> NO_ORDER <= r.order < |s.orders| && r.customer in s.customers)
    && (forall k :: k in s.cards ==> CardLinked(s, k))
  }

  predicate CardLinked(s: Shop, k: Card) {
    && k.order < |s.orders|
    && (k.status.CardActive? ==> k.remaining == k.initial)
    && (k.status.CardEmpty? ==> k.holder in s.customers)
  }

  // The cached columns of customer c are the folds of c's ledger rows, except
  // that each redeemed gift card sits in the store-credit column once more.
  predicate ColumnsOk(s: Shop, c: int)
    requires c in s.customers
  {
    var k := s.customers[c];
    && k.balance == Sum(s.ledger, BalanceOf(c))
    && k.points == Sum(s.ledger, PointsOf(c))
    && k.credit == Sum(s.ledger, CreditOf(c)) + RedeemedBy(s.cards, c)
  }

  predicate BaseOk(s: Shop) {
    Linked(s) && forall c :: c in s.customers ==> ColumnsOk(s, c)
  }

  // One order against its legs L, its ledger rows R and its gift cards C.
  // known: the order names a customer on file.
  predicate OrderSound(order: Order, known: bool, L: Legs, R: Rows, C: Cards, gifts: int) {
    && order.total >= 0 && order.redeemed >= 0
    // status and once-only effects
    && (order.status.Pending? ==> order.effects.Unpaid?)
    && (order.status.Paid? ==> order.effects.PaidWith?)
    && (order.effects.PaidWith? ==> |order.effects.taken| == |order.lines| && order.effects.earned >= 0)
    && R.earns == One(order.effects.Points() > 0)
    && C.minted == (if order.effects.PaidWith? then gifts else 0)
    // payment legs
    && L.tabs <= 1
    && (!order.status.Paid? ==> L.asyncDone == 0)
    && (order.status.Voided? ==> C.active == 0)
    && (!order.status.Voided? ==> L.strayInstant == 0)
    && L.credit >= 0
    && (!known ==> order.redeemed == 0 && L.credit == 0 && L.tabs == 0 && order.effects.Points() == 0)
    // ledger rows
    && R.charge == (if L.tabs > 0 then order.total else 0)
    && R.reversal == (if order.status.Voided? && L.tabs > 0 then -order.total else 0)
    && R.credit == (if order.status.Voided? then 0 else -L.credit)
    && R.points == (if order.status.Voided? then 0 else order.effects.Points() - order.redeemed)
    && (!order.status.Voided? ==> R.gained == order.effects.Points())
    && 0 <= R.settlements <= 1
    && R.settled == -order.total * R.settlements
  }

  predicate OrderOk(s: Shop, o: nat)
    requires o < |s.orders|
  {
    OrderSound(s.orders[o], s.orders[o].customer in s.customers, LegTally(s.legs, o), RowTally(s.ledger, o),
               CardTally(s.cards, o), GiftUnits(s.orders[o].lines, s.products))
  }

  predicate Inv(s: Shop) {
    BaseOk(s) && forall o: nat :: o < |s.orders| ==> OrderOk(s, o)
  }

  // ---- frames ----

  // Nothing that order k depends on differs.
  predicate Untouched(s: Shop, t: Shop, k: nat) {
    && k < |s.orders| && k < |t.orders|
    && t.orders[k] == s.orders[k]
    && LegTally(t.legs, k) == LegTally(s.legs, k)
    && RowTally(t.ledger, k) == RowTally(s.ledger, k)
    && CardTally(t.cards, k) == CardTally(s.cards, k)
    && SameCatalogue(s.products, t.products)
    && s.customers.Keys <= t.customers.Keys
  }

  lemma UntouchedOk(s: Shop, t: Shop, k: nat)
    requires Untouched(s, t, k) && OrderOk(s, k)
    ensures OrderOk(t, k)
  {
    GiftUnitsSame(s.orders[k].lines, s.products, t.products);
  }

  // ---- base facts, primitive by primitive ----

  lemma PostedBase(s: Shop, r: Row)
    requires BaseOk(s) && r.customer in s.customers && NO_ORDER <= r.order < |s.orders|
    requires r.kind.IsCredit() ==> s.customers[r.customer].credit + r.amount >= 0
    ensures BaseOk(Post(s, r))
  {
    var t := Post(s, r);
    forall c | c in t.customers
      ensures ColumnsOk(t, c)
    {
      assert ColumnsOk(s, c);
      SumAppended(s.ledger, r, BalanceOf(c));
      SumAppended(s.ledger, r, PointsOf(c));
      SumAppended(s.ledger, r, CreditOf(c));
    }
  }

  lemma PostedTally(s: Shop, r: Row, k: nat)
    requires r.customer in s.customers
    ensures RowTally(Post(s, r).ledger, k) == RowTally(s.ledger, k).Plus(RowPart(r, k))
  {
    RowAppended(s.ledger, r, k);
  }

  // A row of another order, or of none.
  lemma PostedElsewhere(s: Shop, r: Row, k: nat)
    requires r.customer in s.customers && r.order != k
    ensures RowTally(Post(s, r).ledger, k) == RowTally(s.ledger, k)
  {
  }

  // Tables other than the ledger and the customers may be swapped under these conditions.
  lemma SwappedBase(s: Shop, t: Shop)
    requires BaseOk(s)
    requires t.customers == s.customers && t.ledger == s.ledger && |s.orders| <= |t.orders|
    requires SameCatalogue(s.products, t.products) && Stocked(t.products)
    requires forall o :: o in t.orders ==> GoodLines(t.products, o.lines)
    requires forall l :: l in t.legs ==> l.order < |t.orders|
    requires forall k :: k in t.cards ==> CardLinked(t, k)
    requires forall c :: c in t.customers ==> RedeemedBy(t.cards, c) == RedeemedBy(s.cards, c)
    ensures BaseOk(t)
  {
  }

  lemma LegsSwapped(s: Shop, legs: seq<Leg>)
    requires BaseOk(s) && forall l :: l in legs ==> l.order < |s.orders|
    ensures BaseOk(s.(legs := legs))
  {
  }

  // ---- movements outside any order ----

  lemma LooseRowKeeps(s: Shop, r: Row)
    requires Inv(s) && r.customer in s.customers && r.order == NO_ORDER
    requires r.kind.IsCredit() ==> s.customers[r.customer].credit + r.amount >= 0
    ensures Inv(Post(s, r))
  {
    PostedBase(s, r);
    forall k: nat | k < |s.orders|
      ensures OrderOk(Post(s, r), k)
    {
      PostedElsewhere(s, r, k);
      UntouchedOk(s, Post(s, r), k);
    }
  }

  lemma CustomerPaymentKeeps(s: Shop, c: int, amount: int)
    requires Inv(s)
    ensures Inv(CustomerPayment(s, c, amount).shop)
  {
    if CustomerPayment(s, c, amount).out.Ok? {
      LooseRowKeeps(s, Row(c, NO_ORDER, Payment, -amount, 0, Plain));
    }
  }

  lemma CustomerAdjustmentKeeps(s: Shop, c: int, amount: int, noted: bool)
    requires Inv(s)
    ensures Inv(CustomerAdjustment(s, c, amount, noted).shop)
  {
    if CustomerAdjustment(s, c, amount, noted).out.Ok? {
      LooseRowKeeps(s, Row(c, NO_ORDER, Adjustment, amount, 0, Plain));
    }
  }

  lemma TopUpKeeps(s: Shop, c: int, amount: int)
    requires Inv(s)
    ensures Inv(TopUp(s, c, amount).shop)
  {
    if TopUp(s, c, amount).out.Ok? {
      LooseRowKeeps(s, Row(c, NO_ORDER, CreditTopup, amount, 0, Plain));
    }
  }

  lemma RedeemCardBase(s: Shop, k: nat, c: int)
    requires BaseOk(s) && RedeemCard(s, k, c).out.Ok?
    ensures BaseOk(RedeemCard(s, k, c).shop)
  {
    var t := RedeemCard(s, k, c).shop;
    var r := Row(c, NO_ORDER, CreditTopup, s.cards[k].remaining, 0, Plain);
    assert CardLinked(s, s.cards[k]);
    forall x | x in t.cards
      ensures CardLinked(t, x)
    {
      var i :| 0 <= i < |t.cards| && t.cards[i] == x;
      assert CardLinked(s, s.cards[i]);
    }
    forall d | d in t.customers
      ensures ColumnsOk(t, d)
    {
      assert ColumnsOk(s, d);
      SumAppended(s.ledger, r, BalanceOf(d));
      SumAppended(s.ledger, r, PointsOf(d));
      SumAppended(s.ledger, r, CreditOf(d));
      CardRedeemed(s.cards, k, c, 0, d);
    }
  }

  lemma RedeemCardKeeps(s: Shop, k: nat, c: int)
    requires Inv(s)
    ensures Inv(RedeemCard(s, k, c).shop)
  {
    var t := RedeemCard(s, k, c).shop;
    if RedeemCard(s, k, c).out.Ok? {
      RedeemCardBase(s, k, c);
      forall o: nat | o < |s.orders|
        ensures OrderOk(t, o)
      {
        assert OrderOk(s, o);
        RowAppended(s.ledger, Row(c, NO_ORDER, CreditTopup, s.cards[k].remaining, 0, Plain), o);
        CardRedeemed(s.cards, k, c, o, c);
        CardBounds(t.cards, o);
      }
    }
  }

  // ---- changes to payment legs only ----

  // Legs of order o changed so that it stays sound; no other order's did.
  lemma LegsKeep(s: Shop, legs: seq<Leg>)
    requires Inv(s) && forall l :: l in legs ==> l.order < |s.orders|
    requires forall o: nat :: o < |s.orders| ==> OrderOk(s.(legs := legs), o)
    ensures Inv(s.(legs := legs))
  {
  }

  lemma FailingKeeps(s: Shop, legs: seq<Leg>)
    requires Inv(s) && Failing(s.legs, legs)
    ensures Inv(s.(legs := legs))
  {
    forall l | l in legs
      ensures l.order < |s.orders|
    {
      var i :| 0 <= i < |legs| && legs[i] == l;
      assert s.legs[i] in s.legs;
    }
    forall o: nat | o < |s.orders|
      ensures OrderOk(s.(legs := legs), o)
    {
      assert OrderOk(s, o);
      LegsFailed(s.legs, legs, o);
      LegBounds(legs, o);
    }
    LegsKeep(s, legs);
  }

  lemma FailLegKeeps(s: Shop, p: nat)
    requires Inv(s) && p < |s.legs|
    ensures Inv(FailLeg(s, p))
  {
    FailingKeeps(s, FailLeg(s, p).legs);
  }

  lemma StartPushKeeps(s: Shop, p: nat)
    requires Inv(s) && p < |s.legs|
    ensures Inv(StartPush(s, p))
  {
    FailingKeeps(s, StartPush(s, p).legs);
  }

  lemma BindKeeps(s: Shop, p: nat, checkout: string)
    requires Inv(s) && p < |s.legs|
    ensures Inv(Bind(s, p, checkout))
  {
    var legs := Bind(s, p, checkout).legs;
    assert s.legs[p] in s.legs;
    forall o: nat | o < |s.orders|
      ensures OrderOk(s.(legs := legs), o)
    {
      assert OrderOk(s, o);
      LegsReweighed(s.legs, legs, o);
    }
    LegsKeep(s, legs);
  }

  lemma LegAddedElsewhere(s: Shop, leg: Leg, k: nat)
    requires k < |s.orders| && leg.order != k
    ensures Untouched(s, s.(legs := s.legs + [leg]), k)
  {
  }

  lemma WaitingPart(leg: Leg)
    requires leg.rail.Mpesa? && leg.status.LegPending?
    ensures LegPart(leg, leg.order) == NO_LEGS.(waiting := 1, live := 1)
  {
  }

  // A waiting leg is no part of what OrderSound weighs.
  lemma WaitingSound(order: Order, known: bool, L: Legs, R: Rows, C: Cards, gifts: int)
    requires OrderSound(order, known, L, R, C, gifts)
    ensures OrderSound(order, known, L.Plus(NO_LEGS.(waiting := 1, live := 1)), R, C, gifts)
  {
  }

  // A PENDING M-Pesa leg may be added to any order.
  lemma MpesaLegKeeps(s: Shop, leg: Leg)
    requires Inv(s) && leg.order < |s.orders| && leg.rail.Mpesa? && leg.status.LegPending?
    ensures Inv(s.(legs := s.legs + [leg]))
  {
    var t := s.(legs := s.legs + [leg]);
    forall o: nat | o < |s.orders|
      ensures OrderOk(t, o)
    {
      assert OrderOk(s, o);
      if o == leg.order {
        LegAppended(s.legs, leg, o);
        WaitingPart(leg);
        WaitingSound(s.orders[o], s.orders[o].customer in s.customers, LegTally(s.legs, o), RowTally(s.ledger, o),
                     CardTally(s.cards, o), GiftUnits(s.orders[o].lines, s.products));
      } else {
        LegAddedElsewhere(s, leg, o);
        UntouchedOk(s, t, o);
      }
    }
    LegsKeep(s, t.legs);
  }

  lemma SupersededOrder(s: Shop, o: nat, seen: set<nat>, k: nat)
    requires k < |s.orders| && OrderOk(s, k) && o < |s.orders| && ReadEarlier(s, o, s.orders[o].total, seen)
    ensures OrderOk(s.(legs := Supersede(s.legs, seen)), k)
  {
    LegBounds(Supersede(s.legs, seen), k);
    if k == o {
      LegsSuperseded(s.legs, o, seen);
    } else {
      LegsReweighed(s.legs, Supersede(s.legs, seen), k);
    }
  }

  lemma SupersededKeeps(s: Shop, o: nat, seen: set<nat>)
    requires Inv(s) && o < |s.orders| && ReadEarlier(s, o, s.orders[o].total, seen)
    ensures Inv(s.(legs := Supersede(s.legs, seen)))
  {
    var swept := Supersede(s.legs, seen);
    forall l | l in swept
      ensures l.order < |s.orders|
    {
      var i :| 0 <= i < |swept| && swept[i] == l;
      assert s.legs[i] in s.legs;
    }
    forall k: nat | k < |s.orders|
      ensures OrderOk(s.(legs := swept), k)
    {
      assert OrderOk(s, k);
      SupersededOrder(s, o, seen, k);
    }
    LegsKeep(s, swept);
  }

  // The commit of a retry is sound whatever was committed since it read the order.
  lemma RetryCommitKeeps(s: Shop, o: nat, total: int, seen: set<nat>)
    requires Inv(s) && ReadEarlier(s, o, total, seen)
    ensures Inv(RetryCommit(s, o, total, seen))
  {
    SupersededKeeps(s, o, seen);
    MpesaLegKeeps(s.(legs := Supersede(s.legs, seen)), RetryLeg(o, total));
  }

  // A read that has just happened.
  lemma FreshRead(s: Shop, o: nat)
    requires Inv(s) && o < |s.orders| && s.orders[o].status.Pending?
    ensures ReadEarlier(s, o, s.orders[o].total, PendingLegs(s.legs, o))
  {
    assert OrderOk(s, o);
    forall i | i in PendingLegs(s.legs, o)
      ensures s.legs[i].rail.Account? || s.legs[i].rail.Mpesa?
    {
      LegCounted(s.legs, o, i);
    }
  }

  lemma RetryKeeps(s: Shop, o: nat, phoneOk: bool)
    requires Inv(s)
    ensures Inv(Retry(s, o, phoneOk).shop)
  {
    if Retry(s, o, phoneOk).out.Ok? {
      FreshRead(s, o);
      RetryCommitKeeps(s, o, s.orders[o].total, PendingLegs(s.legs, o));
    }
  }
}
