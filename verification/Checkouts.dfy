// Checkout inserts one sound order and leaves every other order alone.

module Checkouts {
  import opened Tables
  import opened Tallies
  import opened TallyLaws
  import opened Orders
  import opened Soundness
  import opened Transitions

  function Tabs(specs: seq<LegSpec>): nat {
    if specs == [] then 0 else Tabs(specs[..|specs| - 1]) + (if specs[|specs| - 1].rail.Account? then 1 else 0)
  }

  function TabCents(specs: seq<LegSpec>): int {
    if specs == [] then 0
    else TabCents(specs[..|specs| - 1]) + (if specs[|specs| - 1].rail.Account? then specs[|specs| - 1].amount else 0)
  }

  function CreditCentsOf(specs: seq<LegSpec>): int {
    if specs == [] then 0
    else CreditCentsOf(specs[..|specs| - 1]) + (if specs[|specs| - 1].rail.Credit? then specs[|specs| - 1].amount else 0)
  }

  lemma OpenLegBase(s: Shop, o: nat, cart: Cart, spec: LegSpec)
    requires BaseOk(s) && o < |s.orders| && OpenLeg(s, o, cart, spec).Done?
    ensures BaseOk(OpenLeg(s, o, cart, spec).shop)
  {
    var s1 := s.(legs := s.legs + [OpenedLeg(o, spec)]);
    LegsSwapped(s, s1.legs);
    if Ledgered(spec) {
      PostedBase(s1, OpenRow(o, cart, spec));
    }
  }

  lemma OpenLegElsewhere(s: Shop, o: nat, cart: Cart, spec: LegSpec, k: nat)
    requires o < |s.orders| && OpenLeg(s, o, cart, spec).Done? && k < |s.orders| && k != o
    ensures Untouched(s, OpenLeg(s, o, cart, spec).shop, k)
  {
    LegAddedElsewhere(s, OpenedLeg(o, spec), k);
    if Ledgered(spec) {
      PostedElsewhere(s.(legs := s.legs + [OpenedLeg(o, spec)]), OpenRow(o, cart, spec), k);
    }
  }

  function OpenPart(spec: LegSpec): Rows {
    match spec.rail
    case Cash => NO_ROWS
    case Credit => NO_ROWS.(credit := -spec.amount)
    case Account => NO_ROWS.(charge := spec.amount)
    case Mpesa => NO_ROWS
  }

  lemma OpenRowPart(o: nat, cart: Cart, spec: LegSpec)
    requires Ledgered(spec)
    ensures RowPart(OpenRow(o, cart, spec), o) == OpenPart(spec)
  {
  }

  lemma NothingPosted(R: Rows)
    ensures R.Plus(NO_ROWS) == R
  {
  }

  // Opening one leg moves the leg tally by the leg and the row tally by its ledger row.
  lemma OpenLegTallies(s: Shop, o: nat, cart: Cart, spec: LegSpec)
    requires o < |s.orders| && OpenLeg(s, o, cart, spec).Done?
    ensures var t := OpenLeg(s, o, cart, spec).shop;
            && LegTally(t.legs, o) == LegTally(s.legs, o).Plus(LegPart(OpenedLeg(o, spec), o))
            && RowTally(t.ledger, o) == RowTally(s.ledger, o).Plus(OpenPart(spec))
  {
    var s1 := s.(legs := s.legs + [OpenedLeg(o, spec)]);
    LegAppended(s.legs, OpenedLeg(o, spec), o);
    if Ledgered(spec) {
      PostedTally(s1, OpenRow(o, cart, spec), o);
      OpenRowPart(o, cart, spec);
    } else {
      NothingPosted(RowTally(s.ledger, o));
    }
  }

  // The tallies of the new order, leg after leg.
  predicate OpenedTallies(L: Legs, R: Rows, specs: seq<LegSpec>) {
    && L.waiting == AsyncCount(specs) && L.asyncDone == 0 && L.strayInstant == 0
    && L.credit == CreditCentsOf(specs) && L.tabs == Tabs(specs)
    && R == NO_ROWS.(credit := -CreditCentsOf(specs), charge := TabCents(specs))
  }

  lemma OpenedTalliesGrow(L: Legs, R: Rows, o: nat, specs: seq<LegSpec>)
    requires specs != [] && OpenedTallies(L, R, specs[..|specs| - 1])
    ensures var spec := specs[|specs| - 1];
            OpenedTallies(L.Plus(LegPart(OpenedLeg(o, spec), o)), R.Plus(OpenPart(spec)), specs)
  {
  }

  lemma {:induction false} OpenLegsTallies(s: Shop, o: nat, cart: Cart, specs: seq<LegSpec>)
    requires o < |s.orders| && OpenLegs(s, o, cart, specs).Done?
    requires OpenedTallies(LegTally(s.legs, o), RowTally(s.ledger, o), [])
    ensures var t := OpenLegs(s, o, cart, specs).shop; OpenedTallies(LegTally(t.legs, o), RowTally(t.ledger, o), specs)
  {
    if specs != [] {
      var rest := specs[..|specs| - 1];
      var m := OpenLegs(s, o, cart, rest).shop;
      OpenLegsTallies(s, o, cart, rest);
      OpenLegTallies(m, o, cart, specs[|specs| - 1]);
      OpenedTalliesGrow(LegTally(m.legs, o), RowTally(m.ledger, o), o, specs);
    }
  }

  lemma {:induction false} OpenLegsElsewhere(s: Shop, o: nat, cart: Cart, specs: seq<LegSpec>, k: nat)
    requires o < |s.orders| && OpenLegs(s, o, cart, specs).Done? && k < |s.orders| && k != o
    ensures Untouched(s, OpenLegs(s, o, cart, specs).shop, k)
  {
    if specs != [] {
      var rest := specs[..|specs| - 1];
      OpenLegsElsewhere(s, o, cart, rest, k);
      OpenLegElsewhere(OpenLegs(s, o, cart, rest).shop, o, cart, specs[|specs| - 1], k);
    }
  }

  lemma {:induction false} OpenLegsBase(s: Shop, o: nat, cart: Cart, specs: seq<LegSpec>)
    requires BaseOk(s) && o < |s.orders| && OpenLegs(s, o, cart, specs).Done?
    ensures var t := OpenLegs(s, o, cart, specs).shop;
            BaseOk(t) && t.products == s.products && t.cards == s.cards && t.customers.Keys == s.customers.Keys
  {
    if specs != [] {
      var rest := specs[..|specs| - 1];
      OpenLegsBase(s, o, cart, rest);
      OpenLegBase(OpenLegs(s, o, cart, rest).shop, o, cart, specs[|specs| - 1]);
    }
  }

  // ---- the new order ----

  lemma {:induction false} NoTabs(specs: seq<LegSpec>)
    requires forall l :: l in specs ==> !l.rail.Account?
    ensures Tabs(specs) == 0 && TabCents(specs) == 0
  {
    if specs != [] {
      NoTabs(specs[..|specs| - 1]);
    }
  }

  lemma {:induction false} CreditPositive(specs: seq<LegSpec>)
    requires forall l :: l in specs ==> l.amount >= 0
    ensures CreditCentsOf(specs) >= 0
    ensures (forall l :: l in specs ==> !l.rail.Credit?) ==> CreditCentsOf(specs) == 0
  {
    if specs != [] {
      CreditPositive(specs[..|specs| - 1]);
    }
  }

  // What an accepted tender adds up to.
  lemma TenderAddsUp(s: Shop, cart: Cart)
    requires Accepts(s, cart) && cart.payable >= 0
    ensures var specs := cart.Specs();
            && AsyncCount(specs) <= 1 && Tabs(specs) <= 1 && CreditCentsOf(specs) >= 0
            && TabCents(specs) == (if Tabs(specs) > 0 then cart.payable else 0)
            && (cart.customer !in s.customers ==> Tabs(specs) == 0 && CreditCentsOf(specs) == 0)
  {
    var specs := cart.Specs();
    CreditPositive(specs);
    match cart.tender
    case Single(_, _, _) =>
      assert specs[..0] == [];
    case Split(legs) =>
      NoTabs(legs);
  }

  // The inserted order row, before any leg.
  function Inserted(s: Shop, cart: Cart): Shop {
    s.(orders := s.orders + [NewOrder(cart)])
  }

  lemma InsertedBase(s: Shop, cart: Cart)
    requires BaseOk(s) && Accepts(s, cart)
    ensures BaseOk(Inserted(s, cart))
    ensures forall k: nat :: k < |s.orders| ==> Untouched(s, Inserted(s, cart), k)
  {
  }

  lemma InsertedTallies(s: Shop, cart: Cart)
    requires Linked(s)
    ensures OpenedTallies(LegTally(s.legs, |s.orders|), RowTally(s.ledger, |s.orders|), [])
    ensures CardTally(s.cards, |s.orders|) == Cards(0, 0)
  {
    LegsUnlinked(s.legs, |s.orders|);
    RowsUnlinked(s.ledger, |s.orders|);
    CardsUnlinked(s.cards, |s.orders|);
  }

  // After the points are spent the PENDING order is sound.
  lemma RedeemedSound(s: Shop, o: nat, cart: Cart)
    requires BaseOk(s) && o < |s.orders| && s.orders[o] == NewOrder(cart) && AddsUp(s, cart)
    requires OpenedTallies(LegTally(s.legs, o), RowTally(s.ledger, o), cart.Specs()) && CardTally(s.cards, o) == Cards(0, 0)
    requires cart.redeem > 0 ==> cart.customer in s.customers
    ensures OrderOk(PostIf(s, cart.redeem > 0, RedeemRow(cart, o)), o)
  {
  }

  // The facts of TenderAddsUp, as seen from the state the legs were opened in.
  predicate AddsUp(s: Shop, cart: Cart) {
    var specs := cart.Specs();
    && cart.payable >= 0 && cart.redeem >= 0
    && AsyncCount(specs) <= 1 && Tabs(specs) <= 1 && CreditCentsOf(specs) >= 0
    && TabCents(specs) == (if Tabs(specs) > 0 then cart.payable else 0)
    && (cart.customer !in s.customers ==> Tabs(specs) == 0 && CreditCentsOf(specs) == 0 && cart.redeem == 0)
  }

  // The database once the PENDING order, its legs and its spent points are in.
  function Placed(s: Shop, cart: Cart): Shop
    requires OpenLegs(Inserted(s, cart), |s.orders|, cart, cart.Specs()).Done?
    requires cart.redeem > 0 ==> cart.customer in OpenLegs(Inserted(s, cart), |s.orders|, cart, cart.Specs()).shop.customers
  {
    PostIf(OpenLegs(Inserted(s, cart), |s.orders|, cart, cart.Specs()).shop, cart.redeem > 0, RedeemRow(cart, |s.orders|))
  }

  predicate Placeable(s: Shop, cart: Cart) {
    && Accepts(s, cart)
    && OpenLegs(Inserted(s, cart), |s.orders|, cart, cart.Specs()).Done?
    && (cart.redeem > 0 ==> cart.customer in OpenLegs(Inserted(s, cart), |s.orders|, cart, cart.Specs()).shop.customers)
  }

  lemma PlacedBase(s: Shop, cart: Cart)
    requires BaseOk(s) && Placeable(s, cart)
    ensures BaseOk(Placed(s, cart))
  {
    var s0 := Inserted(s, cart);
    InsertedBase(s, cart);
    OpenLegsBase(s0, |s.orders|, cart, cart.Specs());
    if cart.redeem > 0 {
      PostedBase(OpenLegs(s0, |s.orders|, cart, cart.Specs()).shop, RedeemRow(cart, |s.orders|));
    }
  }

  lemma PlacedElsewhere(s: Shop, cart: Cart, k: nat)
    requires BaseOk(s) && Placeable(s, cart) && k < |s.orders|
    ensures Untouched(s, Placed(s, cart), k)
  {
    var s0 := Inserted(s, cart);
    InsertedBase(s, cart);
    OpenLegsElsewhere(s0, |s.orders|, cart, cart.Specs(), k);
    if cart.redeem > 0 {
      PostedElsewhere(OpenLegs(s0, |s.orders|, cart, cart.Specs()).shop, RedeemRow(cart, |s.orders|), k);
    }
  }

  lemma OpenedOrder(s: Shop, cart: Cart)
    requires BaseOk(s) && Placeable(s, cart)
    ensures var t := OpenLegs(Inserted(s, cart), |s.orders|, cart, cart.Specs()).shop;
            && OpenedTallies(LegTally(t.legs, |s.orders|), RowTally(t.ledger, |s.orders|), cart.Specs())
            && CardTally(t.cards, |s.orders|) == Cards(0, 0) && BaseOk(t) && t.customers.Keys == s.customers.Keys
  {
    InsertedBase(s, cart);
    InsertedTallies(s, cart);
    OpenLegsBase(Inserted(s, cart), |s.orders|, cart, cart.Specs());
    OpenLegsTallies(Inserted(s, cart), |s.orders|, cart, cart.Specs());
  }

  lemma PlacedOrder(s: Shop, cart: Cart)
    requires BaseOk(s) && Placeable(s, cart) && cart.payable >= 0
    ensures OrderOk(Placed(s, cart), |s.orders|)
  {
    TenderAddsUp(s, cart);
    OpenedOrder(s, cart);
    RedeemedSound(OpenLegs(Inserted(s, cart), |s.orders|, cart, cart.Specs()).shop, |s.orders|, cart);
  }

  lemma PlacedKeeps(s: Shop, cart: Cart)
    requires Inv(s) && Placeable(s, cart) && cart.payable >= 0
    ensures Inv(Placed(s, cart))
  {
    PlacedBase(s, cart);
    PlacedOrder(s, cart);
    forall k: nat | k < |s.orders|
      ensures OrderOk(Placed(s, cart), k)
    {
      PlacedElsewhere(s, cart, k);
      UntouchedOk(s, Placed(s, cart), k);
    }
  }

  lemma CheckoutKeeps(s: Shop, cart: Cart, cfg: Config)
    requires Inv(s) && cart.payable >= 0
    ensures Inv(Checkout(s, cart, cfg).shop)
  {
    if Checkout(s, cart, cfg).shop != s {
      PlacedKeeps(s, cart);
      if cart.Instant() {
        SettleKeeps(Placed(s, cart), |s.orders|, cfg);
      }
    }
  }
}
