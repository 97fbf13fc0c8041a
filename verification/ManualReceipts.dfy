// A receipt code typed by the cashier: which leg it is booked on, what it is worth,
// and what a refused code leaves behind.

module ManualReceipts {
  import opened Sums
  import opened Tables
  import opened Tallies
  import opened Orders
  import opened Completions

  // Ten capitals or digits.
  predicate WellFormed(code: string) {
    |code| == 10 && forall i :: 0 <= i < |code| ==> 'A' <= code[i] <= 'Z' || '0' <= code[i] <= '9'
  }

  lemma CodesAgree(code: string)
    ensures WellFormed(code) <==> ValidReceipt(code)
  {
    if WellFormed(code) {
      forall ch | ch in code
        ensures 'A' <= ch <= 'Z' || '0' <= ch <= '9'
      {
        var i :| 0 <= i < |code| && code[i] == ch;
      }
    }
    assert forall i :: 0 <= i < |code| ==> code[i] in code;
  }

  predicate OpenLegOf(leg: Leg, o: nat) {
    leg.order == o && leg.status == LegPending
  }

  // The last PENDING leg of order o.
  predicate LastOpen(legs: seq<Leg>, o: nat, p: nat) {
    p < |legs| && OpenLegOf(legs[p], o) && forall q :: p < q < |legs| ==> !OpenLegOf(legs[q], o)
  }

  predicate NoneOpen(legs: seq<Leg>, o: nat) {
    forall l :: l in legs ==> !OpenLegOf(l, o)
  }

  lemma {:induction false} LastOpenFound(legs: seq<Leg>, o: nat, p: nat)
    requires LastOpen(legs, o, p)
    ensures LastPending(legs, o) == p
  {
    var n := |legs| - 1;
    if p < n {
      assert !OpenLegOf(legs[n], o);
      LastOpenFound(legs[..n], o, p);
    }
  }

  lemma NoneOpenFound(legs: seq<Leg>, o: nat)
    ensures LastPending(legs, o) == |legs| <==> NoneOpen(legs, o)
  {
    assert LastPending(legs, o) < |legs| ==> legs[LastPending(legs, o)] in legs;
  }

  function PaidCents(o: nat): Leg -> int { (l: Leg) => if l.order == o && l.status == LegCompleted then l.amount else 0 }

  // Cents of the COMPLETED legs of order o.
  function PaidIn(legs: seq<Leg>, o: nat): int {
    Sum(legs, PaidCents(o))
  }

  lemma PaidInIs(legs: seq<Leg>, o: nat)
    ensures PaidIn(legs, o) == LegTally(legs, o).completed
  {
    SumMatched(legs, PaidCents(o), legs, CompletedCents(o));
  }

  // The code can be booked on order o.
  predicate Bookable(s: Shop, o: nat, code: string, cfg: Config) {
    && WellFormed(code) && o < |s.orders| && s.orders[o].status == Pending && Sellable(s, s.orders[o], cfg)
    && forall l :: l in s.legs ==> l.receipt != code
  }

  // Some leg is PENDING: the code goes on the last one, for that leg's own amount, and
  // nothing but short stock or a worthless leg is suspicious.
  lemma BooksOpenLeg(s: Shop, o: nat, code: string, cfg: Config, p: nat)
    requires Bookable(s, o, code, cfg) && LastOpen(s.legs, o, p)
    ensures var tx := ManualConfirm(s, o, code, cfg); var t := tx.shop;
            var odd := s.legs[p].amount <= 0 || Oversold(s.products, s.orders[o].lines);
            && tx.out == Ok && SaleDone(s, t, o, cfg)
            && t.legs == s.legs[p := s.legs[p].(status := LegCompleted, receipt := code, flagged := odd)]
            && (t.orders[o].flagged <==> s.orders[o].flagged || odd)
            && PaidIn(t.legs, o) == PaidIn(s.legs, o) + s.legs[p].amount
  {
    CodesAgree(code);
    LastOpenFound(s.legs, o, p);
    CompletedLeg(s, p, code, s.legs[p].amount, cfg);
    CompletedSale(s, p, code, s.legs[p].amount, cfg);
    var t := ManualConfirm(s, o, code, cfg).shop;
    SumUpdated(s.legs, p, t.legs[p], PaidCents(o));
  }

  // The row a code is booked on when no leg is PENDING: what is left to pay.
  function Remainder(s: Shop, o: nat): Leg
    requires o < |s.orders|
  {
    Leg(o, Mpesa, s.orders[o].total - PaidIn(s.legs, o), LegPending, false, "", "", false)
  }

  lemma RemainderPayable(s: Shop, o: nat, code: string, cfg: Config)
    requires Bookable(s, o, code, cfg)
    ensures Payable(s.(legs := s.legs + [Remainder(s, o)]), |s.legs|, code, cfg)
  {
  }

  lemma NewLegCompletes(s: Shop, o: nat, code: string, cfg: Config)
    requires WellFormed(code) && o < |s.orders| && s.orders[o].status == Pending
    requires NoneOpen(s.legs, o) && PaidIn(s.legs, o) < s.orders[o].total
    ensures ManualConfirm(s, o, code, cfg)
            == Complete(s.(legs := s.legs + [Remainder(s, o)]), |s.legs|, code, Remainder(s, o).amount, cfg)
  {
    CodesAgree(code);
    NoneOpenFound(s.legs, o);
    PaidInIs(s.legs, o);
  }

  lemma SameSale(s: Shop, u: Shop, t: Shop, o: nat, cfg: Config)
    requires u == s.(legs := u.legs) && SaleDone(u, t, o, cfg)
    ensures SaleDone(s, t, o, cfg)
  {
  }

  // No leg is PENDING and something is left to pay: one new leg worth exactly that.
  lemma BooksNewLeg(s: Shop, o: nat, code: string, cfg: Config)
    requires Bookable(s, o, code, cfg) && NoneOpen(s.legs, o) && PaidIn(s.legs, o) < s.orders[o].total
    ensures var tx := ManualConfirm(s, o, code, cfg); var t := tx.shop;
            var odd := Oversold(s.products, s.orders[o].lines);
            && tx.out == Ok && SaleDone(s, t, o, cfg)
            && t.legs == s.legs + [Remainder(s, o).(status := LegCompleted, receipt := code, flagged := odd)]
            && (t.orders[o].flagged <==> s.orders[o].flagged || odd)
            && PaidIn(t.legs, o) == s.orders[o].total
  {
    var p, leg := |s.legs|, Remainder(s, o);
    var u := s.(legs := s.legs + [leg]);
    NewLegCompletes(s, o, code, cfg);
    RemainderPayable(s, o, code, cfg);
    CompletedLeg(u, p, code, leg.amount, cfg);
    CompletedSale(u, p, code, leg.amount, cfg);
    var t := Complete(u, p, code, leg.amount, cfg).shop;
    SameSale(s, u, t, o, cfg);
    assert t.legs == s.legs + [t.legs[p]];
    SumAppended(s.legs, t.legs[p], PaidCents(o));
  }

  // Why a code is refused before any table is touched.
  predicate TurnedAway(s: Shop, o: nat, code: string, error: Error) {
    if !WellFormed(code) then error == BadReceipt
    else if o >= |s.orders| then error == NotFound
    else if s.orders[o].status == Paid then error == AlreadyPaid
    else if s.orders[o].status == Voided then error == InvalidState
    else error == InvalidState && NoneOpen(s.legs, o) && PaidIn(s.legs, o) >= s.orders[o].total
  }

  // Those refusals change nothing.
  lemma TurnedAwayIs(s: Shop, o: nat, code: string, cfg: Config, error: Error)
    requires TurnedAway(s, o, code, error)
    ensures ManualConfirm(s, o, code, cfg) == Tx(s, Err(error))
  {
    CodesAgree(code);
    if o < |s.orders| {
      PaidInIs(s.legs, o);
      if NoneOpen(s.legs, o) {
        NoneOpenFound(s.legs, o);
      }
    }
  }

  predicate OnAnother(legs: seq<Leg>, code: string, p: nat) {
    exists j :: 0 <= j < |legs| && j != p && legs[j].receipt == code
  }

  // A code that another leg carries, or a sale that misses a product or its customer.
  // With a leg PENDING the refusal changes nothing.
  lemma RefusedOnOpenLeg(s: Shop, o: nat, code: string, cfg: Config, p: nat)
    requires WellFormed(code) && o < |s.orders| && s.orders[o].status == Pending && Distinct(s.orders[o].lines)
    requires LastOpen(s.legs, o, p) && (OnAnother(s.legs, code, p) || !Sellable(s, s.orders[o], cfg))
    ensures ManualConfirm(s, o, code, cfg) == Tx(s, Err(if OnAnother(s.legs, code, p) then DuplicateReceipt else NotFound))
  {
    CodesAgree(code);
    LastOpenFound(s.legs, o, p);
    CompletionRefused(s, p, code, s.legs[p].amount, cfg);
  }

  lemma OnAnotherAppended(legs: seq<Leg>, x: Leg, code: string)
    ensures OnAnother(legs + [x], code, |legs|) <==> OnAnother(legs, code, |legs|)
  {
    if OnAnother(legs, code, |legs|) {
      var j :| 0 <= j < |legs| && legs[j].receipt == code;
      assert (legs + [x])[j].receipt == code;
    }
  }

  // Without one, the leg created for the code stays behind, PENDING.
  lemma RefusedOnNewLeg(s: Shop, o: nat, code: string, cfg: Config)
    requires WellFormed(code) && o < |s.orders| && s.orders[o].status == Pending && Distinct(s.orders[o].lines)
    requires NoneOpen(s.legs, o) && PaidIn(s.legs, o) < s.orders[o].total
    requires OnAnother(s.legs, code, |s.legs|) || !Sellable(s, s.orders[o], cfg)
    ensures ManualConfirm(s, o, code, cfg)
            == Tx(s.(legs := s.legs + [Remainder(s, o)]), Err(if OnAnother(s.legs, code, |s.legs|) then DuplicateReceipt else NotFound))
  {
    var u := s.(legs := s.legs + [Remainder(s, o)]);
    NewLegCompletes(s, o, code, cfg);
    OnAnotherAppended(s.legs, Remainder(s, o), code);
    assert ReceiptFree(u.legs, code, |s.legs|) <==> !OnAnother(u.legs, code, |s.legs|);
    CompletionRefused(u, |s.legs|, code, Remainder(s, o).amount, cfg);
  }
}
