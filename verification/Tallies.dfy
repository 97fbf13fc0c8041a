// What the SQL aggregates over one order or one customer add up to.

module Tallies {
  import opened Tables
  import opened Sums

  function One(b: bool): int {
    if b then 1 else 0
  }

  // ---- payment legs of one order ----

  datatype Legs = Legs(waiting: int, completed: int, asyncDone: int, live: int, credit: int,
                       strayInstant: int, voidedCredit: int, tabs: int) {
    function Plus(t: Legs): Legs {
      Legs(waiting + t.waiting, completed + t.completed, asyncDone + t.asyncDone, live + t.live, credit + t.credit,
           strayInstant + t.strayInstant, voidedCredit + t.voidedCredit, tabs + t.tabs)
    }

    function Minus(t: Legs): Legs {
      Legs(waiting - t.waiting, completed - t.completed, asyncDone - t.asyncDone, live - t.live, credit - t.credit,
           strayInstant - t.strayInstant, voidedCredit - t.voidedCredit, tabs - t.tabs)
    }
  }

  const NO_LEGS := Legs(0, 0, 0, 0, 0, 0, 0, 0)

  // The columns of the tally as weights of one leg.
  function Waiting(o: nat): Leg -> int { (l: Leg) => One(l.order == o && l.status.LegPending?) }
  function CompletedCents(o: nat): Leg -> int { (l: Leg) => if l.order == o && l.status.LegCompleted? then l.amount else 0 }
  function AsyncDone(o: nat): Leg -> int { (l: Leg) => One(l.order == o && l.status.LegCompleted? && (l.rail.Account? || l.rail.Mpesa?)) }
  function LiveLegs(o: nat): Leg -> int { (l: Leg) => One(l.order == o && Live(l)) }
  function CreditCents(o: nat): Leg -> int { (l: Leg) => if l.order == o && l.rail.Credit? then l.amount else 0 }
  function StrayInstant(o: nat): Leg -> int { (l: Leg) => One(l.order == o && (l.rail.Cash? || l.rail.Credit?) && !l.status.LegCompleted?) }
  function VoidedCredit(o: nat): Leg -> int { (l: Leg) => if l.order == o && l.rail.Credit? && l.status.LegVoided? then l.amount else 0 }
  function TabLegs(o: nat): Leg -> int { (l: Leg) => One(l.order == o && l.rail.Account?) }

  // One leg in the tally of order o.
  function LegPart(leg: Leg, o: nat): Legs {
    Legs(Waiting(o)(leg), CompletedCents(o)(leg), AsyncDone(o)(leg), LiveLegs(o)(leg),
         CreditCents(o)(leg), StrayInstant(o)(leg), VoidedCredit(o)(leg), TabLegs(o)(leg))
  }

  function LegTally(legs: seq<Leg>, o: nat): Legs {
    Legs(Sum(legs, Waiting(o)), Sum(legs, CompletedCents(o)), Sum(legs, AsyncDone(o)), Sum(legs, LiveLegs(o)),
         Sum(legs, CreditCents(o)), Sum(legs, StrayInstant(o)), Sum(legs, VoidedCredit(o)), Sum(legs, TabLegs(o)))
  }

  // ---- ledger rows of one order ----

  // gained: SUM(points_delta) over loyalty rows with a positive delta.
  datatype Rows = Rows(points: int, gained: int, earns: int, credit: int, charge: int, reversal: int,
                       settlements: int, settled: int) {
    function Plus(t: Rows): Rows {
      Rows(points + t.points, gained + t.gained, earns + t.earns, credit + t.credit, charge + t.charge,
           reversal + t.reversal, settlements + t.settlements, settled + t.settled)
    }
  }

  const NO_ROWS := Rows(0, 0, 0, 0, 0, 0, 0, 0)

  predicate IsSettlement(r: Row) {
    r.kind.Payment? && r.note.TabSettled?
  }

  function PointsMoved(o: int): Row -> int { (r: Row) => if r.order == o && !r.kind.IsCredit() then r.points else 0 }
  function PointsGained(o: int): Row -> int { (r: Row) => if r.order == o && r.kind.Loyalty? && r.points > 0 then r.points else 0 }
  function EarnRows(o: int): Row -> int { (r: Row) => One(r.order == o && r.kind.Loyalty? && r.note.Earned?) }
  function CreditMoved(o: int): Row -> int { (r: Row) => if r.order == o && r.kind.IsCredit() then r.amount else 0 }
  function Charged(o: int): Row -> int { (r: Row) => if r.order == o && r.kind.Charge? then r.amount else 0 }
  function Adjusted(o: int): Row -> int { (r: Row) => if r.order == o && r.kind.Adjustment? then r.amount else 0 }
  function Settlements(o: int): Row -> int { (r: Row) => One(r.order == o && IsSettlement(r)) }
  function SettledCents(o: int): Row -> int { (r: Row) => if r.order == o && IsSettlement(r) then r.amount else 0 }

  // One row in the tally of order o.
  function RowPart(r: Row, o: int): Rows {
    Rows(PointsMoved(o)(r), PointsGained(o)(r), EarnRows(o)(r), CreditMoved(o)(r),
         Charged(o)(r), Adjusted(o)(r), Settlements(o)(r), SettledCents(o)(r))
  }

  function RowTally(rows: seq<Row>, o: int): Rows {
    Rows(Sum(rows, PointsMoved(o)), Sum(rows, PointsGained(o)), Sum(rows, EarnRows(o)), Sum(rows, CreditMoved(o)),
         Sum(rows, Charged(o)), Sum(rows, Adjusted(o)), Sum(rows, Settlements(o)), Sum(rows, SettledCents(o)))
  }

  // ---- gift cards of one order ----

  function MintedBy(o: nat): Card -> int { (c: Card) => One(c.order == o) }
  function ActiveFrom(o: nat): Card -> int { (c: Card) => One(c.order == o && c.status.CardActive?) }

  datatype Cards = Cards(minted: int, active: int)

  function CardTally(cards: seq<Card>, o: nat): Cards {
    Cards(Sum(cards, MintedBy(o)), Sum(cards, ActiveFrom(o)))
  }

  function GiftQty(ps: map<int, Product>): Line -> int {
    (l: Line) => if l.product in ps && ps[l.product].gift then l.qty else 0
  }

  function GiftUnits(lines: seq<Line>, ps: map<int, Product>): int {
    Sum(lines, GiftQty(ps))
  }

  // ---- one customer ----

  // The folds of the ledger that the cached customer columns stand for:
  // credit kinds move store credit, every other kind moves balance and points.
  function BalanceOf(c: int): Row -> int { (r: Row) => if r.customer == c && !r.kind.IsCredit() then r.amount else 0 }
  function PointsOf(c: int): Row -> int { (r: Row) => if r.customer == c && !r.kind.IsCredit() then r.points else 0 }
  function CreditOf(c: int): Row -> int { (r: Row) => if r.customer == c && r.kind.IsCredit() then r.amount else 0 }

  // Face value of the gift cards this customer has redeemed.
  function FaceRedeemed(c: int): Card -> int { (k: Card) => if k.status.CardEmpty? && k.holder == c then k.initial else 0 }

  function RedeemedBy(cards: seq<Card>, c: int): int {
    Sum(cards, FaceRedeemed(c))
  }
}
