// How the tallies move when a table gains a row, changes a row or is swept.

module TallyLaws {
  import opened Sums
  import opened Tables
  import opened Tallies

  // ---- legs ----

  // Column by column, so that no record is rebuilt from eight sums at once.
  lemma LegCountsAppended(legs: seq<Leg>, x: Leg, o: nat)
    ensures var t := LegTally(legs, o); var u := LegTally(legs + [x], o); var part := LegPart(x, o);
            && u.waiting == t.waiting + part.waiting && u.asyncDone == t.asyncDone + part.asyncDone
            && u.live == t.live + part.live && u.strayInstant == t.strayInstant + part.strayInstant
            && u.tabs == t.tabs + part.tabs
  {
    var more := legs + [x];
    assert Sum(more, Waiting(o)) == Sum(legs, Waiting(o)) + Waiting(o)(x) by { SumAppended(legs, x, Waiting(o)); }
    assert Sum(more, AsyncDone(o)) == Sum(legs, AsyncDone(o)) + AsyncDone(o)(x) by { SumAppended(legs, x, AsyncDone(o)); }
    assert Sum(more, LiveLegs(o)) == Sum(legs, LiveLegs(o)) + LiveLegs(o)(x) by { SumAppended(legs, x, LiveLegs(o)); }
    assert Sum(more, StrayInstant(o)) == Sum(legs, StrayInstant(o)) + StrayInstant(o)(x) by { SumAppended(legs, x, StrayInstant(o)); }
    assert Sum(more, TabLegs(o)) == Sum(legs, TabLegs(o)) + TabLegs(o)(x) by { SumAppended(legs, x, TabLegs(o)); }
  }

  lemma LegCentsAppended(legs: seq<Leg>, x: Leg, o: nat)
    ensures var t := LegTally(legs, o); var u := LegTally(legs + [x], o); var part := LegPart(x, o);
            && u.completed == t.completed + part.completed && u.credit == t.credit + part.credit
            && u.voidedCredit == t.voidedCredit + part.voidedCredit
  {
    var more := legs + [x];
    assert Sum(more, CompletedCents(o)) == Sum(legs, CompletedCents(o)) + CompletedCents(o)(x) by { SumAppended(legs, x, CompletedCents(o)); }
    assert Sum(more, CreditCents(o)) == Sum(legs, CreditCents(o)) + CreditCents(o)(x) by { SumAppended(legs, x, CreditCents(o)); }
    assert Sum(more, VoidedCredit(o)) == Sum(legs, VoidedCredit(o)) + VoidedCredit(o)(x) by { SumAppended(legs, x, VoidedCredit(o)); }
  }

  lemma Rebuilt(t: Legs, part: Legs, u: Legs)
    requires u.waiting == t.waiting + part.waiting && u.asyncDone == t.asyncDone + part.asyncDone
    requires u.live == t.live + part.live && u.strayInstant == t.strayInstant + part.strayInstant
    requires u.tabs == t.tabs + part.tabs && u.completed == t.completed + part.completed
    requires u.credit == t.credit + part.credit && u.voidedCredit == t.voidedCredit + part.voidedCredit
    ensures u == t.Plus(part)
  {
  }

  lemma LegAppended(legs: seq<Leg>, x: Leg, o: nat)
    ensures LegTally(legs + [x], o) == LegTally(legs, o).Plus(LegPart(x, o))
  {
    LegCountsAppended(legs, x, o);
    LegCentsAppended(legs, x, o);
    Rebuilt(LegTally(legs, o), LegPart(x, o), LegTally(legs + [x], o));
  }

  lemma LegUpdated(legs: seq<Leg>, i: nat, x: Leg, o: nat)
    requires i < |legs|
    ensures LegTally(legs[i := x], o) == LegTally(legs, o).Minus(LegPart(legs[i], o)).Plus(LegPart(x, o))
  {
    var t, u, was, part := LegTally(legs, o), LegTally(legs[i := x], o), LegPart(legs[i], o), LegPart(x, o);
    assert u.waiting == t.waiting - was.waiting + part.waiting by { SumUpdated(legs, i, x, Waiting(o)); }
    assert u.completed == t.completed - was.completed + part.completed by { SumUpdated(legs, i, x, CompletedCents(o)); }
    assert u.asyncDone == t.asyncDone - was.asyncDone + part.asyncDone by { SumUpdated(legs, i, x, AsyncDone(o)); }
    assert u.live == t.live - was.live + part.live by { SumUpdated(legs, i, x, LiveLegs(o)); }
    assert u.credit == t.credit - was.credit + part.credit by { SumUpdated(legs, i, x, CreditCents(o)); }
    assert u.strayInstant == t.strayInstant - was.strayInstant + part.strayInstant by { SumUpdated(legs, i, x, StrayInstant(o)); }
    assert u.voidedCredit == t.voidedCredit - was.voidedCredit + part.voidedCredit by { SumUpdated(legs, i, x, VoidedCredit(o)); }
    assert u.tabs == t.tabs - was.tabs + part.tabs by { SumUpdated(legs, i, x, TabLegs(o)); }
  }

  // Legs that weigh the same for this order leave its tally alone.
  lemma LegsReweighed(legs: seq<Leg>, swept: seq<Leg>, o: nat)
    requires |swept| == |legs|
    requires forall i :: 0 <= i < |legs| ==> LegPart(swept[i], o) == LegPart(legs[i], o)
    ensures LegTally(swept, o) == LegTally(legs, o)
  {
    var t, u := LegTally(legs, o), LegTally(swept, o);
    assert u.waiting == t.waiting by { Reweighed(legs, swept, o, Waiting(o), (part: Legs) => part.waiting); }
    assert u.completed == t.completed by { Reweighed(legs, swept, o, CompletedCents(o), (part: Legs) => part.completed); }
    assert u.asyncDone == t.asyncDone by { Reweighed(legs, swept, o, AsyncDone(o), (part: Legs) => part.asyncDone); }
    assert u.live == t.live by { Reweighed(legs, swept, o, LiveLegs(o), (part: Legs) => part.live); }
    assert u.credit == t.credit by { Reweighed(legs, swept, o, CreditCents(o), (part: Legs) => part.credit); }
    assert u.strayInstant == t.strayInstant by { Reweighed(legs, swept, o, StrayInstant(o), (part: Legs) => part.strayInstant); }
    assert u.voidedCredit == t.voidedCredit by { Reweighed(legs, swept, o, VoidedCredit(o), (part: Legs) => part.voidedCredit); }
    assert u.tabs == t.tabs by { Reweighed(legs, swept, o, TabLegs(o), (part: Legs) => part.tabs); }
  }

  // One column of the tally.
  lemma Reweighed(legs: seq<Leg>, swept: seq<Leg>, o: nat, weight: Leg -> int, column: Legs -> int)
    requires |swept| == |legs|
    requires forall i :: 0 <= i < |legs| ==> LegPart(swept[i], o) == LegPart(legs[i], o)
    requires forall l :: weight(l) == column(LegPart(l, o))
    ensures Sum(swept, weight) == Sum(legs, weight)
  {
    SumMatched(swept, weight, legs, weight);
  }

  lemma LegsUnlinked(legs: seq<Leg>, o: nat)
    requires forall l :: l in legs ==> l.order != o
    ensures LegTally(legs, o) == NO_LEGS
  {
    SumZero(legs, Waiting(o));
    SumZero(legs, CompletedCents(o));
    SumZero(legs, AsyncDone(o));
    SumZero(legs, LiveLegs(o));
    SumZero(legs, CreditCents(o));
    SumZero(legs, StrayInstant(o));
    SumZero(legs, VoidedCredit(o));
    SumZero(legs, TabLegs(o));
  }

  lemma LegBounds(legs: seq<Leg>, o: nat)
    ensures var t := LegTally(legs, o); t.waiting >= 0 && t.asyncDone >= 0 && t.live >= 0 && t.strayInstant >= 0 && t.tabs >= 0
  {
    SumNonNegative(legs, Waiting(o));
    SumNonNegative(legs, AsyncDone(o));
    SumNonNegative(legs, LiveLegs(o));
    SumNonNegative(legs, StrayInstant(o));
    SumNonNegative(legs, TabLegs(o));
  }

  // A single leg is counted in its order's tally.
  lemma LegCounted(legs: seq<Leg>, o: nat, i: nat)
    requires i < |legs|
    ensures var t := LegTally(legs, o); var part := LegPart(legs[i], o);
            part.waiting <= t.waiting && part.asyncDone <= t.asyncDone && part.live <= t.live
            && part.strayInstant <= t.strayInstant && part.tabs <= t.tabs
  {
    SumCounts(legs, Waiting(o), i);
    SumCounts(legs, AsyncDone(o), i);
    SumCounts(legs, LiveLegs(o), i);
    SumCounts(legs, StrayInstant(o), i);
    SumCounts(legs, TabLegs(o), i);
  }

  // The void sweep: nothing of the order stays live, and its credit legs are all voided.
  lemma LegsVoided(legs: seq<Leg>, o: nat)
    ensures var t := LegTally(legs, o); var u := LegTally(VoidLegs(legs, o), o);
            u.waiting == 0 && u.completed == 0 && u.asyncDone == 0 && u.live == 0 && u.credit == t.credit && u.tabs == t.tabs
    ensures LegTally(legs, o).strayInstant == 0 ==> LegTally(VoidLegs(legs, o), o).voidedCredit == LegTally(legs, o).credit
  {
    var swept := VoidLegs(legs, o);
    var t, u := LegTally(legs, o), LegTally(swept, o);
    assert u.waiting == 0 by { SumZero(swept, Waiting(o)); }
    assert u.completed == 0 by { SumZero(swept, CompletedCents(o)); }
    assert u.asyncDone == 0 by { SumZero(swept, AsyncDone(o)); }
    assert u.live == 0 by { SumZero(swept, LiveLegs(o)); }
    assert u.credit == t.credit by { SumMatched(swept, CreditCents(o), legs, CreditCents(o)); }
    assert u.tabs == t.tabs by { SumMatched(swept, TabLegs(o), legs, TabLegs(o)); }
    if t.strayInstant == 0 {
      forall i | 0 <= i < |legs|
        ensures VoidedCredit(o)(swept[i]) == CreditCents(o)(legs[i])
      {
        LegCounted(legs, o, i);
      }
      SumMatched(swept, VoidedCredit(o), legs, CreditCents(o));
    }
  }

  lemma LegsVoidedElsewhere(legs: seq<Leg>, o: nat, k: nat)
    requires k != o
    ensures LegTally(VoidLegs(legs, o), k) == LegTally(legs, k)
  {
    LegsReweighed(legs, VoidLegs(legs, o), k);
  }

  // Failing some of the PENDING legs.
  predicate Failing(legs: seq<Leg>, swept: seq<Leg>) {
    && |swept| == |legs|
    && forall i :: 0 <= i < |legs| ==>
         swept[i] == legs[i] || (legs[i].status.LegPending? && swept[i] == legs[i].(status := LegFailed))
  }

  lemma LegsFailed(legs: seq<Leg>, swept: seq<Leg>, o: nat)
    requires Failing(legs, swept)
    ensures var t := LegTally(legs, o); var u := LegTally(swept, o);
            u.waiting <= t.waiting && u.completed == t.completed && u.asyncDone == t.asyncDone && u.live <= t.live
            && u.credit == t.credit && u.strayInstant == t.strayInstant && u.tabs == t.tabs
  {
    var t, u := LegTally(legs, o), LegTally(swept, o);
    assert u.waiting <= t.waiting by { SumBelow(swept, Waiting(o), legs, Waiting(o)); }
    assert u.completed == t.completed by { SumMatched(swept, CompletedCents(o), legs, CompletedCents(o)); }
    assert u.asyncDone == t.asyncDone by { SumMatched(swept, AsyncDone(o), legs, AsyncDone(o)); }
    assert u.live <= t.live by { SumBelow(swept, LiveLegs(o), legs, LiveLegs(o)); }
    assert u.credit == t.credit by { SumMatched(swept, CreditCents(o), legs, CreditCents(o)); }
    assert u.strayInstant == t.strayInstant by { SumMatched(swept, StrayInstant(o), legs, StrayInstant(o)); }
    assert u.tabs == t.tabs by { SumMatched(swept, TabLegs(o), legs, TabLegs(o)); }
  }

  // Failing phone and account legs, whatever they have become.
  predicate Superseding(legs: seq<Leg>, swept: seq<Leg>) {
    && |swept| == |legs|
    && forall i :: 0 <= i < |legs| ==>
         swept[i] == legs[i] || ((legs[i].rail.Account? || legs[i].rail.Mpesa?) && swept[i] == legs[i].(status := LegFailed))
  }

  lemma LegsOverridden(legs: seq<Leg>, swept: seq<Leg>, o: nat)
    requires Superseding(legs, swept)
    ensures var t := LegTally(legs, o); var u := LegTally(swept, o);
            && u.waiting <= t.waiting && u.asyncDone <= t.asyncDone && u.live <= t.live
            && u.credit == t.credit && u.strayInstant == t.strayInstant && u.tabs == t.tabs
  {
    var t, u := LegTally(legs, o), LegTally(swept, o);
    assert u.waiting <= t.waiting by { SumBelow(swept, Waiting(o), legs, Waiting(o)); }
    assert u.asyncDone <= t.asyncDone by { SumBelow(swept, AsyncDone(o), legs, AsyncDone(o)); }
    assert u.live <= t.live by { SumBelow(swept, LiveLegs(o), legs, LiveLegs(o)); }
    assert u.credit == t.credit by { SumMatched(swept, CreditCents(o), legs, CreditCents(o)); }
    assert u.strayInstant == t.strayInstant by { SumMatched(swept, StrayInstant(o), legs, StrayInstant(o)); }
    assert u.tabs == t.tabs by { SumMatched(swept, TabLegs(o), legs, TabLegs(o)); }
  }

  // A retry fails legs of one order by id.
  lemma LegsSuperseded(legs: seq<Leg>, o: nat, seen: set<nat>)
    requires forall i :: i in seen ==> i < |legs| && legs[i].order == o && (legs[i].rail.Account? || legs[i].rail.Mpesa?)
    ensures var t := LegTally(legs, o); var u := LegTally(Supersede(legs, seen), o);
            && u.waiting <= t.waiting && u.asyncDone <= t.asyncDone && u.live <= t.live
            && u.credit == t.credit && u.strayInstant == t.strayInstant && u.tabs == t.tabs
  {
    LegsOverridden(legs, Supersede(legs, seen), o);
  }

  lemma NoneWaiting(legs: seq<Leg>, o: nat)
    requires forall l :: l in legs && l.order == o ==> !l.status.LegPending?
    ensures LegTally(legs, o).waiting == 0
  {
    SumZero(legs, Waiting(o));
  }

  // ---- ledger ----

  lemma RowAppended(rows: seq<Row>, r: Row, o: int)
    ensures RowTally(rows + [r], o) == RowTally(rows, o).Plus(RowPart(r, o))
  {
    var t, u, part := RowTally(rows, o), RowTally(rows + [r], o), RowPart(r, o);
    assert u.points == t.points + part.points by { SumAppended(rows, r, PointsMoved(o)); }
    assert u.gained == t.gained + part.gained by { SumAppended(rows, r, PointsGained(o)); }
    assert u.earns == t.earns + part.earns by { SumAppended(rows, r, EarnRows(o)); }
    assert u.credit == t.credit + part.credit by { SumAppended(rows, r, CreditMoved(o)); }
    assert u.charge == t.charge + part.charge by { SumAppended(rows, r, Charged(o)); }
    assert u.reversal == t.reversal + part.reversal by { SumAppended(rows, r, Adjusted(o)); }
    assert u.settlements == t.settlements + part.settlements by { SumAppended(rows, r, Settlements(o)); }
    assert u.settled == t.settled + part.settled by { SumAppended(rows, r, SettledCents(o)); }
  }

  lemma RowsConcat(a: seq<Row>, b: seq<Row>, o: int)
    ensures RowTally(a + b, o) == RowTally(a, o).Plus(RowTally(b, o))
  {
    var t, u, v := RowTally(a, o), RowTally(b, o), RowTally(a + b, o);
    assert v.points == t.points + u.points by { SumConcat(a, b, PointsMoved(o)); }
    assert v.gained == t.gained + u.gained by { SumConcat(a, b, PointsGained(o)); }
    assert v.earns == t.earns + u.earns by { SumConcat(a, b, EarnRows(o)); }
    assert v.credit == t.credit + u.credit by { SumConcat(a, b, CreditMoved(o)); }
    assert v.charge == t.charge + u.charge by { SumConcat(a, b, Charged(o)); }
    assert v.reversal == t.reversal + u.reversal by { SumConcat(a, b, Adjusted(o)); }
    assert v.settlements == t.settlements + u.settlements by { SumConcat(a, b, Settlements(o)); }
    assert v.settled == t.settled + u.settled by { SumConcat(a, b, SettledCents(o)); }
  }

  lemma RowAlone(r: Row, o: int)
    ensures RowTally([r], o) == RowPart(r, o)
  {
    assert [] + [r] == [r];
    RowAppended([], r, o);
  }

  lemma RowsUnlinked(rows: seq<Row>, o: int)
    requires forall r :: r in rows ==> r.order != o
    ensures RowTally(rows, o) == NO_ROWS
  {
    SumZero(rows, PointsMoved(o));
    SumZero(rows, PointsGained(o));
    SumZero(rows, EarnRows(o));
    SumZero(rows, CreditMoved(o));
    SumZero(rows, Charged(o));
    SumZero(rows, Adjusted(o));
    SumZero(rows, Settlements(o));
    SumZero(rows, SettledCents(o));
  }

  // ---- gift cards ----

  lemma CardsAppended(a: seq<Card>, b: seq<Card>, o: nat, c: int)
    ensures CardTally(a + b, o) == Cards(CardTally(a, o).minted + CardTally(b, o).minted, CardTally(a, o).active + CardTally(b, o).active)
    ensures RedeemedBy(a + b, c) == RedeemedBy(a, c) + RedeemedBy(b, c)
  {
    SumConcat(a, b, MintedBy(o));
    SumConcat(a, b, ActiveFrom(o));
    SumConcat(a, b, FaceRedeemed(c));
  }

  lemma {:induction false} CopiesSummed(n: nat, x: Card, f: Card -> int)
    ensures Sum(seq(n, _ => x), f) == n * f(x)
  {
    if n > 0 {
      assert seq(n, _ => x)[..n - 1] == seq(n - 1, _ => x);
      CopiesSummed(n - 1, x, f);
    }
  }

  predicate Fresh(cards: seq<Card>, o: nat) {
    forall k :: k in cards ==> k.order == o && k.status == CardActive && k.remaining == k.initial
  }

  lemma {:induction false} MintFresh(o: nat, lines: seq<Line>, ps: map<int, Product>)
    ensures Fresh(Mint(o, lines, ps), o)
  {
    if lines != [] {
      MintFresh(o, lines[..|lines| - 1], ps);
    }
  }

  lemma {:induction false} MintCounted(o: nat, lines: seq<Line>, ps: map<int, Product>)
    ensures |Mint(o, lines, ps)| == GiftUnits(lines, ps)
  {
    if lines != [] {
      MintCounted(o, lines[..|lines| - 1], ps);
    }
  }

  lemma {:induction false} SumOnes<T>(xs: seq<T>, f: T -> int, v: int)
    requires forall i :: 0 <= i < |xs| ==> f(xs[i]) == v
    ensures Sum(xs, f) == |xs| * v
  {
    if xs != [] {
      SumOnes(xs[..|xs| - 1], f, v);
    }
  }

  // Minting adds one active card per gift unit, to its own order only.
  lemma MintTallied(o: nat, lines: seq<Line>, ps: map<int, Product>, k: nat, c: int)
    ensures var n := GiftUnits(lines, ps);
            CardTally(Mint(o, lines, ps), k) == if k == o then Cards(n, n) else Cards(0, 0)
    ensures RedeemedBy(Mint(o, lines, ps), c) == 0
  {
    MintFresh(o, lines, ps);
    MintCounted(o, lines, ps);
    SumOnes(Mint(o, lines, ps), MintedBy(k), One(k == o));
    SumOnes(Mint(o, lines, ps), ActiveFrom(k), One(k == o));
    SumZero(Mint(o, lines, ps), FaceRedeemed(c));
  }

  lemma CardsVoided(cards: seq<Card>, o: nat, k: nat, c: int)
    ensures CardTally(VoidCards(cards, o), k)
            == if k == o then CardTally(cards, k).(active := 0) else CardTally(cards, k)
    ensures RedeemedBy(VoidCards(cards, o), c) == RedeemedBy(cards, c)
  {
    var swept := VoidCards(cards, o);
    SumMatched(swept, MintedBy(k), cards, MintedBy(k));
    SumMatched(swept, FaceRedeemed(c), cards, FaceRedeemed(c));
    if k == o {
      SumZero(swept, ActiveFrom(k));
    } else {
      SumMatched(swept, ActiveFrom(k), cards, ActiveFrom(k));
    }
  }

  function Spent(k: Card, holder: int): Card {
    k.(status := CardEmpty, remaining := 0, holder := holder)
  }

  lemma CardRedeemed(cards: seq<Card>, i: nat, holder: int, k: nat, c: int)
    requires i < |cards| && cards[i].status == CardActive
    ensures var spent := cards[i := Spent(cards[i], holder)];
            && CardTally(spent, k).minted == CardTally(cards, k).minted
            && CardTally(spent, k).active <= CardTally(cards, k).active
            && RedeemedBy(spent, c) == RedeemedBy(cards, c) + (if c == holder then cards[i].initial else 0)
  {
    SumUpdated(cards, i, Spent(cards[i], holder), MintedBy(k));
    SumUpdated(cards, i, Spent(cards[i], holder), ActiveFrom(k));
    SumUpdated(cards, i, Spent(cards[i], holder), FaceRedeemed(c));
  }

  lemma CardsUnlinked(cards: seq<Card>, o: nat)
    requires forall k :: k in cards ==> k.order != o
    ensures CardTally(cards, o) == Cards(0, 0)
  {
    SumZero(cards, MintedBy(o));
    SumZero(cards, ActiveFrom(o));
  }

  // An order that minted nothing has nothing active.
  lemma CardsMinted(cards: seq<Card>, o: nat)
    ensures 0 <= CardTally(cards, o).active <= CardTally(cards, o).minted
  {
    CardBounds(cards, o);
    SumBelow(cards, ActiveFrom(o), cards, MintedBy(o));
  }

  lemma CardBounds(cards: seq<Card>, o: nat)
    ensures 0 <= CardTally(cards, o).active
  {
    SumNonNegative(cards, ActiveFrom(o));
  }

  // ---- stock ----

  // Two product tables that differ in stock only.
  predicate SameCatalogue(ps: map<int, Product>, qs: map<int, Product>) {
    && ps.Keys == qs.Keys
    && forall p :: p in ps ==> qs[p].tracked == ps[p].tracked && qs[p].gift == ps[p].gift
  }

  predicate Stocked(ps: map<int, Product>) {
    forall p :: p in ps ==> ps[p].stock >= 0
  }

  lemma {:induction false} DeductKeeps(ps: map<int, Product>, lines: seq<Line>)
    ensures SameCatalogue(ps, Deduct(ps, lines).products)
    ensures Stocked(ps) ==> Stocked(Deduct(ps, lines).products)
  {
    if lines != [] {
      DeductKeeps(ps, lines[..|lines| - 1]);
    }
  }

  lemma {:induction false} RestoreKeeps(ps: map<int, Product>, lines: seq<Line>)
    ensures SameCatalogue(ps, Restore(ps, lines))
    ensures Stocked(ps) ==> Stocked(Restore(ps, lines))
  {
    if lines != [] {
      RestoreKeeps(ps, lines[..|lines| - 1]);
    }
  }

  lemma GiftUnitsSame(lines: seq<Line>, ps: map<int, Product>, qs: map<int, Product>)
    requires SameCatalogue(ps, qs)
    ensures GiftUnits(lines, ps) == GiftUnits(lines, qs)
  {
    SumMatched(lines, GiftQty(ps), lines, GiftQty(qs));
  }
}
