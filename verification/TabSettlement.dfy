// Concurrent SettleTab calls on one order. A call is three transactions (read,
// complete, post) and anything may commit in between.

module TabSettlement {
  import opened Sums
  import opened Tables
  import opened Tallies
  import opened TallyLaws
  import opened Orders
  import opened Soundness
  import opened Transitions
  import opened Checkouts
  import opened Runs
  import opened LegRules
  import opened Lifecycle

  datatype Phase = Start | Chosen(leg: nat) | Banked | Succeeded | GaveUp

  // The database and the progress of every call on order o.
  datatype System = System(shop: Shop, calls: seq<Phase>)

  datatype Move =
    | Read(call: nat)
    | PayCash(call: nat, cfg: Config)
    | PayMpesa(call: nat, code: string, cfg: Config)
    | Post(call: nat)
    | Other(op: Op)

  function ReadPhase(s: Shop, o: nat): Phase {
    if o >= |s.orders| || !s.orders[o].status.Pending? || TabLeg(s.legs, o) >= |s.legs| || s.orders[o].customer == NO_CUSTOMER
    then GaveUp else Chosen(TabLeg(s.legs, o))
  }

  function Paying(sys: System, call: nat, tx: Tx): System
    requires call < |sys.calls|
  {
    System(tx.shop, sys.calls[call := if tx.out.Ok? then Banked else GaveUp])
  }

  function Next(sys: System, o: nat, move: Move): System {
    match move
    case Read(i) =>
      if i < |sys.calls| && sys.calls[i].Start? then sys.(calls := sys.calls[i := ReadPhase(sys.shop, o)]) else sys
    case PayCash(i, cfg) =>
      if i < |sys.calls| && sys.calls[i].Chosen? && sys.calls[i].leg < |sys.shop.legs| then
        var p := sys.calls[i].leg;
        Paying(sys, i, Complete(sys.shop, p, "", sys.shop.legs[p].amount, cfg))
      else sys
    case PayMpesa(i, code, cfg) =>
      if i < |sys.calls| && sys.calls[i].Chosen? then Paying(sys, i, ManualConfirm(sys.shop, o, code, cfg)) else sys
    case Post(i) =>
      if i < |sys.calls| && sys.calls[i].Banked? then
        if o < |sys.shop.orders| && sys.shop.orders[o].customer in sys.shop.customers
        then System(PostSettlement(sys.shop, o), sys.calls[i := Succeeded])
        else sys.(calls := sys.calls[i := GaveUp])
      else sys
    case Other(op) => if op == DoPostSettlement(o) then sys else sys.(shop := Step(sys.shop, op))
  }

  function Behave(sys: System, o: nat, moves: seq<Move>): System {
    if moves == [] then sys else Next(Behave(sys, o, moves[..|moves| - 1]), o, moves[|moves| - 1])
  }

  // ---- no other transaction writes a settlement row ----

  predicate Quiet(s: Shop, t: Shop, o: nat) {
    s.ledger <= t.ledger && forall r :: r in t.ledger[|s.ledger|..] ==> !(IsSettlement(r) && r.order == o)
  }

  lemma QuietKeeps(s: Shop, t: Shop, o: nat)
    requires Quiet(s, t, o)
    ensures RowTally(t.ledger, o).settlements == RowTally(s.ledger, o).settlements
  {
    var added := t.ledger[|s.ledger|..];
    assert t.ledger == s.ledger + added;
    SumConcat(s.ledger, added, Settlements(o));
    SumZero(added, Settlements(o));
  }

  lemma QuietTrans(s: Shop, t: Shop, u: Shop, o: nat)
    requires Quiet(s, t, o) && Quiet(t, u, o)
    ensures Quiet(s, u, o)
  {
  }

  lemma SettleQuiet(s: Shop, k: nat, cfg: Config, o: nat)
    requires k < |s.orders| && Settleable(s, s.orders[k], cfg)
    ensures Quiet(s, Settle(s, k, cfg), o)
  {
  }

  lemma CompleteQuiet(s: Shop, p: nat, receipt: string, amount: int, cfg: Config, o: nat)
    requires Linked(s)
    ensures Quiet(s, Complete(s, p, receipt, amount, cfg).shop, o)
  {
  }

  lemma ManualQuiet(s: Shop, k: nat, code: string, cfg: Config, o: nat)
    requires Inv(s)
    ensures Quiet(s, ManualConfirm(s, k, code, cfg).shop, o)
  {
    if k < |s.orders| && s.orders[k].status.Pending? {
      var legs := Collecting(s, k);
      CollectingKeeps(s, k);
      var p := LastPending(s.legs, k);
      CompleteQuiet(s.(legs := legs), p, code, legs[p].amount, cfg, o);
    }
  }

  lemma {:induction false} OpenLegsQuiet(s: Shop, k: nat, cart: Cart, specs: seq<LegSpec>, o: nat)
    requires OpenLegs(s, k, cart, specs).Done?
    ensures Quiet(s, OpenLegs(s, k, cart, specs).shop, o)
  {
    if specs != [] {
      var rest := specs[..|specs| - 1];
      OpenLegsQuiet(s, k, cart, rest, o);
      var m := OpenLegs(s, k, cart, rest).shop;
      assert Quiet(m, OpenLegs(s, k, cart, specs).shop, o);
      QuietTrans(s, m, OpenLegs(s, k, cart, specs).shop, o);
    }
  }

  lemma CheckoutQuiet(s: Shop, cart: Cart, cfg: Config, o: nat)
    requires Inv(s)
    ensures Quiet(s, Checkout(s, cart, cfg).shop, o)
  {
    if Checkout(s, cart, cfg).shop != s {
      var m := OpenLegs(Inserted(s, cart), |s.orders|, cart, cart.Specs()).shop;
      var placed := Placed(s, cart);
      OpenLegsQuiet(Inserted(s, cart), |s.orders|, cart, cart.Specs(), o);
      assert Quiet(s, m, o);
      assert Quiet(m, placed, o);
      QuietTrans(s, m, placed, o);
      if cart.Instant() {
        SettleQuiet(placed, |s.orders|, cfg, o);
        QuietTrans(s, placed, Settle(placed, |s.orders|, cfg), o);
      }
    }
  }

  lemma CallbackQuiet(s: Shop, cb: Callback, cfg: Config, o: nat)
    requires Linked(s)
    ensures Quiet(s, HandleCallback(s, cb, cfg).shop, o)
  {
  }

  lemma PlainReversals(s: Shop, k: nat)
    requires k < |s.orders|
    ensures forall r :: r in Reversals(s, k) ==> !IsSettlement(r)
  {
  }

  lemma AppendedQuiet(s: Shop, t: Shop, added: seq<Row>, o: nat)
    requires t.ledger == s.ledger + added && forall r :: r in added ==> !IsSettlement(r)
    ensures Quiet(s, t, o)
  {
  }

  lemma VoidAppends(s: Shop, k: nat, caller: Caller)
    requires Void(s, k, caller).out.Ok?
    ensures k < |s.orders| && Void(s, k, caller).shop.ledger == s.ledger + Reversals(s, k)
  {
  }

  lemma VoidQuiet(s: Shop, k: nat, caller: Caller, o: nat)
    ensures Quiet(s, Void(s, k, caller).shop, o)
  {
    if Void(s, k, caller).out.Ok? {
      VoidAppends(s, k, caller);
      PlainReversals(s, k);
      AppendedQuiet(s, Void(s, k, caller).shop, Reversals(s, k), o);
    } else {
      VoidRefused(s, k, caller);
      SameLedgerQuiet(s, s, o);
    }
  }

  lemma VoidRefused(s: Shop, k: nat, caller: Caller)
    requires !Void(s, k, caller).out.Ok?
    ensures Void(s, k, caller).shop == s
  {
  }

  lemma LedgerQuiet(s: Shop, op: Op, o: nat)
    requires op.DoPay? || op.DoAdjust? || op.DoTopUp? || op.DoRedeemCard? || op.DoPostSettlement?
    requires op != DoPostSettlement(o)
    ensures Quiet(s, Step(s, op), o)
  {
  }

  lemma SameLedgerQuiet(s: Shop, t: Shop, o: nat)
    requires t.ledger == s.ledger
    ensures Quiet(s, t, o)
  {
  }

  lemma StepQuiet(s: Shop, op: Op, o: nat)
    requires Inv(s) && op != DoPostSettlement(o)
    ensures Quiet(s, Step(s, op), o)
  {
    match op
    case DoCheckout(cart, cfg) => if cart.payable >= 0 { CheckoutQuiet(s, cart, cfg, o); } else { SameLedgerQuiet(s, s, o); }
    case DoComplete(p, receipt, amount, cfg) => CompleteQuiet(s, p, receipt, amount, cfg, o);
    case DoManual(k, code, cfg) => ManualQuiet(s, k, code, cfg, o);
    case DoCallback(cb, cfg) => CallbackQuiet(s, cb, cfg, o);
    case DoVoid(k, caller) => VoidQuiet(s, k, caller, o);
    case DoPay(_, _) => LedgerQuiet(s, op, o);
    case DoAdjust(_, _, _) => LedgerQuiet(s, op, o);
    case DoTopUp(_, _) => LedgerQuiet(s, op, o);
    case DoRedeemCard(_, _) => LedgerQuiet(s, op, o);
    case DoPostSettlement(_) => LedgerQuiet(s, op, o);
    case _ => SameLedgerQuiet(s, Step(s, op), o);
  }

  // ---- the protocol invariant ----

  predicate PhaseOk(s: Shop, o: nat, phase: Phase)
    requires o < |s.orders|
  {
    match phase
    case Chosen(p) => p < |s.legs| && s.legs[p].order == o && s.legs[p].rail.Account?
    case Banked => s.orders[o].effects.PaidWith?
    case Succeeded => RowTally(s.ledger, o).settlements == 1
    case _ => true
  }

  predicate ProtocolOk(sys: System, o: nat) {
    && Inv(sys.shop) && o < |sys.shop.orders|
    && (RowTally(sys.shop.ledger, o).settlements > 0 ==> sys.shop.orders[o].effects.PaidWith?)
    && forall i :: 0 <= i < |sys.calls| ==> PhaseOk(sys.shop, o, sys.calls[i])
  }

  // A database step under which every phase stays justified.
  predicate Onward(s: Shop, t: Shop, o: nat) {
    && Inv(t) && o < |s.orders| && Grown(s, t) && SameLegs(s, t)
    && RowTally(t.ledger, o).settlements == RowTally(s.ledger, o).settlements
  }

  lemma OnwardKeeps(sys: System, t: Shop, o: nat)
    requires ProtocolOk(sys, o) && Onward(sys.shop, t, o)
    ensures ProtocolOk(sys.(shop := t), o)
  {
  }

  lemma StepOnward(s: Shop, op: Op, o: nat)
    requires Inv(s) && o < |s.orders| && op != DoPostSettlement(o)
    ensures Onward(s, Step(s, op), o)
  {
    StepKeeps(s, op);
    StepGrows(s, op);
    StepSameLegs(s, op);
    StepQuiet(s, op, o);
    QuietKeeps(s, Step(s, op), o);
  }

  // A completion that reports success leaves the order paid.
  lemma CashPays(s: Shop, p: nat, cfg: Config)
    requires Inv(s) && p < |s.legs| && s.legs[p].order < |s.orders| && s.legs[p].rail.Account?
    requires Complete(s, p, "", s.legs[p].amount, cfg).out.Ok?
    ensures var t := Complete(s, p, "", s.legs[p].amount, cfg).shop; s.legs[p].order < |t.orders| && t.orders[s.legs[p].order].effects.PaidWith?
  {
    assert OrderOk(s, s.legs[p].order);
    LegCounted(s.legs, s.legs[p].order, p);
  }

  lemma ReceiptPays(s: Shop, o: nat, code: string, cfg: Config)
    requires o < |s.orders| && ManualConfirm(s, o, code, cfg).out.Ok?
    ensures var t := ManualConfirm(s, o, code, cfg).shop; o < |t.orders| && t.orders[o].effects.PaidWith?
  {
  }

  lemma PayingKeeps(sys: System, o: nat, call: nat, op: Op, tx: Tx)
    requires ProtocolOk(sys, o) && call < |sys.calls| && op != DoPostSettlement(o) && tx.shop == Step(sys.shop, op)
    requires tx.out.Ok? ==> o < |tx.shop.orders| && tx.shop.orders[o].effects.PaidWith?
    ensures ProtocolOk(Paying(sys, call, tx), o)
  {
    StepOnward(sys.shop, op, o);
    OnwardKeeps(sys, tx.shop, o);
    var after := Paying(sys, call, tx);
    forall i | 0 <= i < |after.calls|
      ensures PhaseOk(after.shop, o, after.calls[i])
    {
      if i != call {
        assert after.calls[i] == sys.calls[i];
        assert PhaseOk(sys.(shop := tx.shop).shop, o, sys.calls[i]);
      }
    }
  }

  lemma CashKeeps(sys: System, o: nat, call: nat, cfg: Config)
    requires ProtocolOk(sys, o) && call < |sys.calls| && sys.calls[call].Chosen? && sys.calls[call].leg < |sys.shop.legs|
    ensures ProtocolOk(Next(sys, o, PayCash(call, cfg)), o)
  {
    var s, p := sys.shop, sys.calls[call].leg;
    assert PhaseOk(s, o, sys.calls[call]);
    var tx := Complete(s, p, "", s.legs[p].amount, cfg);
    if tx.out.Ok? {
      CashPays(s, p, cfg);
    }
    PayingKeeps(sys, o, call, DoComplete(p, "", s.legs[p].amount, cfg), tx);
  }

  lemma MpesaKeeps(sys: System, o: nat, call: nat, code: string, cfg: Config)
    requires ProtocolOk(sys, o) && call < |sys.calls| && sys.calls[call].Chosen?
    ensures ProtocolOk(Next(sys, o, PayMpesa(call, code, cfg)), o)
  {
    var tx := ManualConfirm(sys.shop, o, code, cfg);
    if tx.out.Ok? {
      ReceiptPays(sys.shop, o, code, cfg);
    }
    PayingKeeps(sys, o, call, DoManual(o, code, cfg), tx);
  }

  lemma PostKeeps(sys: System, o: nat, call: nat)
    requires ProtocolOk(sys, o) && call < |sys.calls| && sys.calls[call].Banked?
    requires sys.shop.orders[o].customer in sys.shop.customers
    ensures ProtocolOk(System(PostSettlement(sys.shop, o), sys.calls[call := Succeeded]), o)
  {
    var s := sys.shop;
    var t := PostSettlement(s, o);
    PostSettlementKeeps(s, o);
    assert OrderOk(s, o);
    PostedTally(s, SettleRow(s.orders[o], o), o);
    var calls := sys.calls[call := Succeeded];
    assert PhaseOk(s, o, sys.calls[call]);
    forall i | 0 <= i < |calls|
      ensures PhaseOk(t, o, calls[i])
    {
      assert PhaseOk(s, o, sys.calls[i]);
    }
  }

  lemma NextKeeps(sys: System, o: nat, move: Move)
    requires ProtocolOk(sys, o)
    ensures ProtocolOk(Next(sys, o, move), o)
  {
    var s := sys.shop;
    match move
    case Read(i) =>
    case PayCash(i, cfg) =>
      if i < |sys.calls| && sys.calls[i].Chosen? && sys.calls[i].leg < |s.legs| {
        CashKeeps(sys, o, i, cfg);
      }
    case PayMpesa(i, code, cfg) =>
      if i < |sys.calls| && sys.calls[i].Chosen? {
        MpesaKeeps(sys, o, i, code, cfg);
      }
    case Post(i) =>
      if i < |sys.calls| && sys.calls[i].Banked? && s.orders[o].customer in s.customers {
        PostKeeps(sys, o, i);
      }
    case Other(op) =>
      if op != DoPostSettlement(o) {
        StepOnward(s, op, o);
        OnwardKeeps(sys, Step(s, op), o);
      }
  }

  lemma {:induction false} BehaveKeeps(sys: System, o: nat, moves: seq<Move>)
    requires ProtocolOk(sys, o)
    ensures ProtocolOk(Behave(sys, o, moves), o)
  {
    if moves != [] {
      BehaveKeeps(sys, o, moves[..|moves| - 1]);
      NextKeeps(Behave(sys, o, moves[..|moves| - 1]), o, moves[|moves| - 1]);
    }
  }

  // At most one settlement row, worth minus the order total, on an order that was
  // paid; and a call that reports success has it.
  predicate SettledOnce(sys: System, o: nat)
    requires o < |sys.shop.orders|
  {
    var R := RowTally(sys.shop.ledger, o);
    && R.settlements <= 1
    && R.settled == -sys.shop.orders[o].total * R.settlements
    && (R.settlements == 1 ==> sys.shop.orders[o].effects.PaidWith?)
    && (forall i :: 0 <= i < |sys.calls| && sys.calls[i].Succeeded? ==> R.settlements == 1)
  }

  lemma ProtocolSettles(sys: System, o: nat)
    requires ProtocolOk(sys, o)
    ensures SettledOnce(sys, o)
  {
    assert OrderOk(sys.shop, o);
    forall i | 0 <= i < |sys.calls| && sys.calls[i].Succeeded?
      ensures RowTally(sys.shop.ledger, o).settlements == 1
    {
      assert PhaseOk(sys.shop, o, sys.calls[i]);
    }
  }

  lemma FreshCallsOk(s: Shop, o: nat, n: nat)
    requires Inv(s) && o < |s.orders| && RowTally(s.ledger, o).settlements == 0
    ensures ProtocolOk(System(s, seq(n, _ => Start)), o)
  {
  }

  // Any number of concurrent calls on a tab order that has not been settled, with
  // any other transactions in between.
  lemma TabSettlesOnce(s: Shop, o: nat, n: nat, moves: seq<Move>)
    requires Inv(s) && o < |s.orders| && RowTally(s.ledger, o).settlements == 0
    ensures var sys := Behave(System(s, seq(n, _ => Start)), o, moves); o < |sys.shop.orders| && SettledOnce(sys, o)
  {
    var sys := System(s, seq(n, _ => Start));
    FreshCallsOk(s, o, n);
    BehaveKeeps(sys, o, moves);
    ProtocolSettles(Behave(sys, o, moves), o);
  }
}
