// Amounts of a sale in 64-bit cents: subtotal, discount, tax and loyalty redemption,
// for a checkout and for a quote.

module Billing {
  import opened Int64
  import opened Options
  import opened Sums
  import opened Tables
  import opened Orders
  import opened Soundness
  import opened Pricing
  import Tax

  // ---- 64-bit line totals ----

  // The product as the machine computes it, given up when dividing back fails.
  function LineTotal(price: int, qty: int): Option<int64> {
    var w := Wrap64(price * qty);
    if qty > 0 && Quot(w, qty) != price then None else Some(w)
  }

  lemma QuotientRest(a: int, b: int)
    requires b > 0
    ensures a == Quot(a, b) * b + Rem(a, b) && -b < Rem(a, b) < b
  {
  }

  lemma SameMultiple(a: int, b: int, m: int)
    requires m > 0 && -m < a * m - b * m < m
    ensures a == b
  {
    assert (a - b) * m == a * m - b * m;
    SmallMultiple(a - b, m);
  }

  lemma WrapShift(v: int)
    ensures exists k: int :: Wrap64(v) == v + k * WHOLE
  {
    var k := -((v + HALF) / WHOLE);
    assert Wrap64(v) == v + k * WHOLE;
  }

  // Dividing back detects every overflow and nothing else.
  lemma OverflowCheckExact(price: int64, qty: nat)
    requires 0 < qty < HALF
    ensures LineTotal(price, qty) == if Fits(price * qty) then Some(price * qty) else None
  {
    var v := price * qty;
    var w := Wrap64(v);
    WrapShift(v);
    var k: int :| w == v + k * WHOLE;
    QuotientRest(w, qty);
    if Quot(w, qty) == price {
      assert w - v == Rem(w, qty);
      assert k * WHOLE == Rem(w, qty);
    }
    if Fits(v) {
      SameMultiple(Quot(w, qty), price, qty);
    }
  }

  // ---- subtotal ----

  function Add(sub: int64, line: Option<int64>): Option<int64> {
    match line
    case None => None
    case Some(w) => var t := Wrap64(sub + w); if t < 0 then None else Some(t)
  }

  function Subtotal(lines: seq<Line>): Option<int64> {
    if lines == [] then Some(0)
    else match Subtotal(lines[..|lines| - 1])
         case None => None
         case Some(sub) => Add(sub, LineTotal(lines[|lines| - 1].price, lines[|lines| - 1].qty))
  }

  function LineValue(): Line -> int { (l: Line) => l.price * l.qty }

  function ExactSum(lines: seq<Line>): int {
    Sum(lines, LineValue())
  }

  lemma {:induction false} SubtotalStaysNone(lines: seq<Line>, n: nat)
    requires n <= |lines| && Subtotal(lines[..n]).None?
    ensures Subtotal(lines).None?
  {
    if n == |lines| {
      assert lines[..n] == lines;
    } else {
      assert lines[..|lines| - 1][..n] == lines[..n];
      SubtotalStaysNone(lines[..|lines| - 1], n);
    }
  }

  method ComputeSubtotal(lines: seq<Line>) returns (r: Option<int64>)
    ensures r == Subtotal(lines)
  {
    var subtotal: int64 := 0;
    for i := 0 to |lines|
      invariant Subtotal(lines[..i]) == Some(subtotal)
    {
      var l := lines[i];
      assert lines[..i + 1][..i] == lines[..i];
      if Subtotal(lines[..i + 1]).None? {
        SubtotalStaysNone(lines, i + 1);
      }
      var line := Wrap64(l.price * l.qty);
      if l.qty > 0 && Quot(line, l.qty) != l.price {
        return None;
      }
      subtotal := Wrap64(subtotal + line);
      if subtotal < 0 {
        return None;
      }
    }
    assert lines[..|lines|] == lines;
    r := Some(subtotal);
  }

  predicate Priced(l: Line) {
    1 <= l.qty <= MAX_QTY && 0 <= l.price <= MAX_PRICE_CENTS
  }

  lemma PricedTotal(l: Line)
    requires Priced(l)
    ensures 0 <= l.price * l.qty < HALF
    ensures LineTotal(l.price, l.qty) == Some(l.price * l.qty)
  {
    ProductMonotone(l.price, MAX_PRICE_CENTS, l.qty);
    ProductMonotone(0, l.price, l.qty);
    OverflowCheckExact(l.price, l.qty);
  }

  // On merged lines the subtotal is the exact sum, and is refused exactly when that
  // sum leaves the 64-bit range.
  lemma {:induction false} SubtotalExactIff(lines: seq<Line>)
    requires forall l :: l in lines ==> Priced(l)
    ensures ExactSum(lines) >= 0
    ensures Subtotal(lines) == if ExactSum(lines) < HALF then Some(ExactSum(lines)) else None
  {
    if lines != [] {
      SubtotalExactIff(lines[..|lines| - 1]);
      PricedTotal(lines[|lines| - 1]);
    }
  }

  // ---- discount and tax ----

  predicate DiscountOk(sub: int64, discount: int64) {
    !(discount < 0 || (sub > 0 && discount >= sub) || (sub == 0 && discount != 0))
  }

  datatype Bill = Bill(subtotal: int64, discount: int64, tax: int, total: int64)

  function Discounted(sub: int64, discount: int64, percent: real, inclusive: bool): Option<Bill> {
    if !DiscountOk(sub, discount) || !Tax.ValidPercent(percent) then None
    else
      var (tax, total) := Tax.Totals(sub - discount, percent, inclusive);
      Some(Bill(sub, discount, tax, Wrap64(total)))
  }

  function CheckoutBill(lines: seq<Line>, discount: int64, mayDiscount: bool, percent: real, inclusive: bool): Option<Bill> {
    match Subtotal(lines)
    case None => None
    case Some(sub) => if discount > 0 && !mayDiscount then None else Discounted(sub, discount, percent, inclusive)
  }

  // A bill is drawn up exactly when the lines fit 64 bits, the discount leaves something
  // to pay and is the caller's to give, and the rate is within 0 and 100 percent.
  predicate Billable(lines: seq<Line>, discount: int64, mayDiscount: bool, percent: real) {
    && ExactSum(lines) < HALF && 0.0 <= percent <= 100.0
    && (discount == 0 || (0 < discount < ExactSum(lines) && mayDiscount))
  }

  lemma BillIff(lines: seq<Line>, discount: int64, mayDiscount: bool, percent: real, inclusive: bool)
    requires forall l :: l in lines ==> Priced(l)
    ensures var b := CheckoutBill(lines, discount, mayDiscount, percent, inclusive);
            && (b.Some? <==> Billable(lines, discount, mayDiscount, percent))
            && (b.Some? ==>
                  && b.value.subtotal == ExactSum(lines) && b.value.discount == discount
                  && (b.value.tax, b.value.total) == (Tax.Totals(ExactSum(lines) - discount, percent, inclusive).0,
                                                      Wrap64(Tax.Totals(ExactSum(lines) - discount, percent, inclusive).1)))
  {
    SubtotalExactIff(lines);
  }

  // ---- quotes ----

  datatype QuoteItem = QuoteItem(qty: int, price: int64, lineTotal: int64)

  function QuoteLine(it: QuoteItem): Option<int64> {
    if it.qty <= 0 || it.qty > MAX_QTY || it.price < 0 || it.price > MAX_PRICE_CENTS then None
    else LineTotal(it.price, it.qty)
  }

  function QuoteSub(items: seq<QuoteItem>): Option<int64> {
    if items == [] then Some(0)
    else match QuoteSub(items[..|items| - 1])
         case None => None
         case Some(sub) => Add(sub, QuoteLine(items[|items| - 1]))
  }

  function QuoteBill(items: seq<QuoteItem>, discount: int64, percent: real, inclusive: bool): Option<Bill> {
    if |items| == 0 || |items| > MAX_LINES then None
    else match QuoteSub(items)
         case None => None
         case Some(sub) => Discounted(sub, discount, percent, inclusive)
  }

  lemma {:induction false} QuoteStaysNone(items: seq<QuoteItem>, n: nat)
    requires n <= |items| && QuoteSub(items[..n]).None?
    ensures QuoteSub(items).None?
  {
    if n == |items| {
      assert items[..n] == items;
    } else {
      assert items[..|items| - 1][..n] == items[..n];
      QuoteStaysNone(items[..|items| - 1], n);
    }
  }

  function Totalled(it: QuoteItem): QuoteItem {
    it.(lineTotal := Wrap64(it.price * it.qty))
  }

  lemma {:induction false} QuoteSubIgnoresTotals(items: seq<QuoteItem>, others: seq<QuoteItem>)
    requires |items| == |others|
    requires forall i :: 0 <= i < |items| ==> items[i].qty == others[i].qty && items[i].price == others[i].price
    ensures QuoteSub(items) == QuoteSub(others)
  {
    if items != [] {
      QuoteSubIgnoresTotals(items[..|items| - 1], others[..|others| - 1]);
    }
  }

  method AddQuoteLine(sub: int64, it: QuoteItem) returns (next: Option<int64>, totalled: QuoteItem)
    ensures next == Add(sub, QuoteLine(it)) && totalled == Totalled(it)
  {
    var line := Wrap64(it.price * it.qty);
    totalled := it.(lineTotal := line);
    if it.qty <= 0 || it.qty > MAX_QTY || it.price < 0 || it.price > MAX_PRICE_CENTS {
      return None, totalled;
    }
    if it.qty > 0 && Quot(line, it.qty) != it.price {
      return None, totalled;
    }
    var sum := Wrap64(sub + line);
    next := if sum < 0 then None else Some(sum);
  }

  // quoteTotals: line totals are written into the items as the sum is built.
  method QuoteTotals(items: array<QuoteItem>, discount: int64, percent: real, inclusive: bool) returns (bill: Option<Bill>)
    modifies items
    ensures bill == QuoteBill(old(items[..]), discount, percent, inclusive)
    ensures bill.Some? ==> forall i :: 0 <= i < items.Length ==> items[i] == Totalled(old(items[i]))
  {
    if items.Length == 0 || items.Length > MAX_LINES {
      return None;
    }
    ghost var was := items[..];
    var sub: int64 := 0;
    for i := 0 to items.Length
      invariant QuoteSub(was[..i]) == Some(sub)
      invariant forall k :: 0 <= k < i ==> items[k] == Totalled(was[k])
      invariant forall k :: i <= k < items.Length ==> items[k] == was[k]
    {
      assert was[..i + 1][..i] == was[..i];
      var next, totalled := AddQuoteLine(sub, items[i]);
      if next.None? {
        QuoteStaysNone(was, i + 1);
        return None;
      }
      items[i], sub := totalled, next.value;
    }
    assert was[..items.Length] == was;
    bill := Discounted(sub, discount, percent, inclusive);
  }

  function QuoteOf(lines: seq<Line>): seq<QuoteItem> {
    seq(|lines|, i requires 0 <= i < |lines| => QuoteItem(lines[i].qty, Wrap64(lines[i].price), 0))
  }

  lemma {:induction false} QuoteSubAgrees(lines: seq<Line>)
    requires forall l :: l in lines ==> Priced(l)
    ensures QuoteSub(QuoteOf(lines)) == Subtotal(lines)
  {
    if lines != [] {
      var n := |lines| - 1;
      QuoteSubAgrees(lines[..n]);
      assert QuoteOf(lines)[..n] == QuoteOf(lines[..n]);
      assert lines[n] in lines;
      PricedTotal(lines[n]);
    }
  }

  // The same lines ring up to the same numbers on the till and in a quote, unless the
  // till refuses a discount to a cashier who may not give one.
  lemma QuoteAgrees(lines: seq<Line>, discount: int64, mayDiscount: bool, percent: real, inclusive: bool)
    requires 1 <= |lines| <= MAX_LINES && forall l :: l in lines ==> Priced(l)
    ensures CheckoutBill(lines, discount, mayDiscount, percent, inclusive)
            == if discount > 0 && !mayDiscount then None else QuoteBill(QuoteOf(lines), discount, percent, inclusive)
  {
    QuoteSubAgrees(lines);
  }

  // ---- loyalty redemption ----

  datatype Redemption = Redemption(cents: int, points: int)

  function EffectiveValue(setting: int64): (pc: int64)
    ensures pc >= 0
  {
    if setting < 0 then 100 else setting
  }

  function EffectiveShare(setting: int64): (pct: int64)
    ensures 0 <= pct <= 100
  {
    if setting < 0 || setting > 100 then 50 else setting
  }

  function Cap(total: int64, share: int64): int64 {
    Quot(Wrap64(total * share), 100)
  }

  // Cents for the points asked for, cut to whole points at the cap.
  function Offered(cap: int64, want: int64, pc: int64): int
    requires pc > 0
  {
    var cents := if want > cap then cap - Rem(cap, pc) else want;
    if cents < 0 then 0 else cents
  }

  // Points asked for, as the till computes them; None is a refusal.
  function Redeem(total: int64, asked: int64, value: int64, share: int64, balance: int64): Option<Redemption> {
    var pc := EffectiveValue(value);
    if pc == 0 then None
    else
      var cents := Offered(Cap(total, EffectiveShare(share)), Wrap64(asked * pc), pc);
      var spent := Quot(cents, pc);
      if spent == 0 || balance < spent then None else Some(Redemption(cents, spent))
  }

  function Min(a: int, b: int): int {
    if a < b then a else b
  }

  lemma DividesBack(n: nat, pc: nat)
    requires pc > 0
    ensures Quot(n * pc, pc) == n
  {
    QuotientRest(n * pc, pc);
    SameMultiple(Quot(n * pc, pc), n, pc);
  }

  lemma PointsFitIff(cap: nat, asked: nat, pc: nat)
    requires pc > 0
    ensures asked * pc <= cap <==> asked <= cap / pc
    ensures cap / pc * pc == cap - cap % pc
  {
    assert cap == cap / pc * pc + cap % pc;
    if asked <= cap / pc {
      ProductMonotone(asked, cap / pc, pc);
    } else {
      ProductMonotone(cap / pc + 1, asked, pc);
    }
  }

  lemma CapWithin(total: nat, pct: nat)
    requires pct <= 100
    ensures 0 <= total * pct / 100 <= total
  {
    ProductMonotone(pct, 100, total);
  }

  // The cap is the share of the total that was meant exactly when it is computed
  // within 64 bits.
  lemma CapExactIff(total: int64, pct: int64)
    requires total >= 0 && 0 <= pct <= 100
    ensures Cap(total, pct) == total * pct / 100 <==> Fits(total * pct)
  {
    var v := total * pct;
    WrapShift(v);
    var k: int :| Wrap64(v) == v + k * WHOLE;
    if !Fits(v) {
      WrapBelow(v);
    }
  }

  lemma WrapBelow(v: nat)
    requires !Fits(v)
    ensures Quot(Wrap64(v), 100) < v / 100
  {
    assert v >= HALF;
    WrapShift(v);
    var k: int :| Wrap64(v) == v + k * WHOLE;
    assert k <= -1;
    assert Wrap64(v) <= v - WHOLE;
  }

  // The whole points a customer may spend: those asked for, as far as the cap goes.
  function Best(cap: nat, asked: nat, pc: nat): nat
    requires pc > 0
  {
    Min(asked, cap / pc)
  }

  function Positive(v: int): nat {
    if v < 0 then 0 else v
  }

  // When the cents offered under the computed cap are those due under the exact one. An
  // amount cut to the cap: both caps hold the same number of whole points. Any other
  // amount: it fits 64 bits, or what it wraps to happens to be the last whole point.
  predicate Faithful(cap: int64, exact: nat, asked: int64, pc: int64)
    requires pc > 0 && asked > 0
  {
    var want := Wrap64(asked * pc);
    if want > cap then Positive(cap) / pc == exact / pc
    else Fits(asked * pc) || Positive(want) == exact - exact % pc
  }

  lemma TooManyAsked(cap: nat, asked: nat, pc: nat)
    requires pc > 0 && asked * pc > cap
    ensures Best(cap, asked, pc) == cap / pc
  {
    PointsFitIff(cap, asked, pc);
  }

  lemma WholesOf(n: nat, pc: nat)
    requires pc > 0
    ensures n / pc >= 0 && n / pc * pc >= 0
  {
    ProductMonotone(0, n / pc, pc);
  }

  lemma MultipleBelow(cap: int, pc: nat)
    requires pc > 0
    ensures Positive(cap - Rem(cap, pc)) == Positive(cap) / pc * pc
  {
    if cap < 0 {
      WholesOf(-cap, pc);
      assert Quot(cap, pc) * pc == -(-cap / pc * pc);
      assert 0 / pc == 0;
    } else {
      WholesOf(cap, pc);
    }
  }

  lemma CutToCap(cap: int64, want: int64, pc: int64)
    requires pc > 0 && want > cap
    ensures Offered(cap, want, pc) == Positive(cap) / pc * pc
  {
    MultipleBelow(cap, pc);
  }

  lemma SameWholes(a: nat, b: nat, pc: nat)
    requires pc > 0
    ensures a * pc == b * pc <==> a == b
  {
    if a * pc == b * pc {
      SameMultiple(a, b, pc);
    }
  }

  // Points cut to the cap are the best exactly when the exact cap holds no more.
  lemma CutIsBestIff(cap: int64, exact: nat, asked: int64, pc: int64)
    requires cap <= exact < HALF && asked > 0 && pc > 0 && Wrap64(asked * pc) > cap
    ensures Positive(cap) / pc == Best(exact, asked, pc) <==> Positive(cap) / pc == exact / pc
  {
    PointsFitIff(exact, asked, pc);
    PointsFitIff(Positive(cap), asked, pc);
    ProductMonotone(0, asked, pc);
  }

  // Offered cents are the best whole points exactly then, for every amount asked for.
  lemma OfferedIff(cap: int64, exact: nat, asked: int64, pc: int64)
    requires cap <= exact < HALF && asked > 0 && pc > 0
    ensures Offered(cap, Wrap64(asked * pc), pc) == Best(exact, asked, pc) * pc <==> Faithful(cap, exact, asked, pc)
  {
    var want := Wrap64(asked * pc);
    PointsFitIff(exact, asked, pc);
    ProductMonotone(0, asked, pc);
    if asked * pc > exact {
      TooManyAsked(exact, asked, pc);
    }
    if want > cap {
      CutToCap(cap, want, pc);
      SameWholes(Positive(cap) / pc, Best(exact, asked, pc), pc);
      CutIsBestIff(cap, exact, asked, pc);
    }
  }

  predicate Refused(points: int, balance: int) {
    points == 0 || balance < points
  }

  // What the till should answer.
  function Due(best: nat, pc: nat, balance: int): Option<Redemption> {
    if Refused(best, balance) then None else Some(Redemption(best * pc, best))
  }

  // A cap computed past 64 bits is below the one that was meant.
  lemma CapBelow(total: int64, pct: int64)
    requires total >= 0 && 0 <= pct <= 100
    ensures 0 <= total * pct / 100 <= total && Cap(total, pct) <= total * pct / 100
  {
    CapWithin(total, pct);
    CapExactIff(total, pct);
    if !Fits(total * pct) {
      WrapBelow(total * pct);
    }
  }

  // The points the till comes to: what the request wraps to, as far as the computed cap goes.
  function Reached(cap: int, want: int, pc: nat): nat
    requires pc > 0
  {
    Positive(Min(want, cap)) / pc
  }

  lemma OfferedPoints(cap: int64, want: int64, pc: int64)
    requires pc > 0
    ensures Quot(Offered(cap, want, pc), pc) == Reached(cap, want, pc)
  {
    if want > cap {
      CutToCap(cap, want, pc);
      DividesBack(Positive(cap) / pc, pc);
    }
  }

  // Redemption answers as it should exactly when the offer is faithful, or when neither
  // the points reached nor the points due can be spent.
  lemma RedeemExactIff(total: int64, asked: int64, value: int64, share: int64, balance: int64)
    requires total >= 0 && asked > 0 && EffectiveValue(value) > 0
    ensures var pc := EffectiveValue(value);
            var cap := Cap(total, EffectiveShare(share));
            var exact := total * EffectiveShare(share) / 100;
            && 0 <= exact <= total
            && var best := Best(exact, asked, pc);
               && 0 <= best * pc <= exact
               && (Redeem(total, asked, value, share, balance) == Due(best, pc, balance)
                   <==> Faithful(cap, exact, asked, pc)
                        || (Refused(Reached(cap, Wrap64(asked * pc), pc), balance) && Refused(best, balance)))
  {
    var pc := EffectiveValue(value);
    var cap := Cap(total, EffectiveShare(share));
    CapBelow(total, EffectiveShare(share));
    var exact := total * EffectiveShare(share) / 100;
    var best := Best(exact, asked, pc);
    PointsFitIff(exact, best, pc);
    OfferedIff(cap, exact, asked, pc);
    OfferedPoints(cap, Wrap64(asked * pc), pc);
    DividesBack(best, pc);
  }

  lemma FaithfulAtCap(exact: int64, asked: int64, pc: int64)
    requires exact >= 0 && asked > 0 && pc > 0
    ensures var want := Wrap64(asked * pc);
            Faithful(exact, exact, asked, pc) <==> Fits(asked * pc) || want > exact || Positive(want) == exact - exact % pc
  {
  }

  lemma PastSixtyFour(exact: nat, asked: int64, pc: int64)
    requires exact < HALF && asked > 0 && pc > 0 && !Fits(asked * pc)
    ensures Best(exact, asked, pc) == exact / pc
  {
    ProductMonotone(0, asked, pc);
    TooManyAsked(exact, asked, pc);
  }

  // While the cap fits 64 bits: the amount asked for fits too, or wraps above the cap,
  // or wraps to the last whole point, or neither answer gives any points.
  lemma RedeemAtCapIff(total: int64, asked: int64, value: int64, share: int64, balance: int64)
    requires total >= 0 && asked > 0 && EffectiveValue(value) > 0 && Fits(total * EffectiveShare(share))
    ensures var pc := EffectiveValue(value);
            var cap := total * EffectiveShare(share) / 100;
            var want := Wrap64(asked * pc);
            && 0 <= cap <= total
            && (Redeem(total, asked, value, share, balance) == Due(Best(cap, asked, pc), pc, balance)
                <==> Fits(asked * pc) || want > cap || Positive(want) == cap - cap % pc
                     || (Refused(Positive(want) / pc, balance) && Refused(cap / pc, balance)))
  {
    var pc := EffectiveValue(value);
    CapBelow(total, EffectiveShare(share));
    var cap := total * EffectiveShare(share) / 100;
    CapExactIff(total, EffectiveShare(share));
    RedeemExactIff(total, asked, value, share, balance);
    FaithfulAtCap(cap, asked, pc);
    if !Fits(asked * pc) {
      PastSixtyFour(cap, asked, pc);
    }
  }

  // What a caller checks: both products fit, and the answer is right. A point is worth
  // 100 cents unless the setting says otherwise, and half the total may be redeemed.
  lemma RedeemExact(total: int64, asked: int64, value: int64, share: int64, balance: int64)
    requires total >= 0 && asked > 0 && value != 0
    requires var pc := if value < 0 then 100 else value; var pct := if 0 <= share <= 100 then share else 50;
             Fits(total * pct) && Fits(asked * pc)
    ensures var pc := if value < 0 then 100 else value; var pct := if 0 <= share <= 100 then share else 50;
            var cap := total * pct / 100;
            && 0 <= cap <= total
            && var points := if asked <= cap / pc then asked else cap / pc;
               Redeem(total, asked, value, share, balance)
               == if 0 < points <= balance then Some(Redemption(points * pc, points)) else None
  {
    CapWithin(total, EffectiveShare(share));
    RedeemAtCapIff(total, asked, value, share, balance);
  }

  // Worthless points are never redeemed.
  lemma NothingRedeemed(total: int64, asked: int64, share: int64, balance: int64)
    ensures Redeem(total, asked, 0, share, balance) == None
  {
  }

  lemma QuotPositive(n: nat, pc: nat)
    requires pc > 0 && Quot(n, pc) != 0
    ensures n > 0 && Quot(n, pc) > 0
  {
    var q := Quot(n, pc);
    QuotientRest(n, pc);
    assert (q + 1) * pc == q * pc + pc > 0;
    PositiveFactor(q + 1, pc);
    ProductMonotone(1, q, pc);
  }

  lemma PositiveFactor(a: int, c: nat)
    requires a * c > 0
    ensures a > 0
  {
  }

  // A redemption is a positive offer under the cap and its whole points.
  lemma RedeemParts(total: int64, asked: int64, value: int64, share: int64, balance: int64)
    requires asked > 0 && Redeem(total, asked, value, share, balance).Some?
    ensures var pc := EffectiveValue(value); var cap := Cap(total, EffectiveShare(share));
            var r := Redeem(total, asked, value, share, balance).value;
            && pc > 0 && r.cents == Offered(cap, Wrap64(asked * pc), pc) && 0 < r.cents <= cap
            && r.points == Quot(r.cents, pc) && 0 < r.points <= balance
  {
    var pc := EffectiveValue(value);
    var r := Redeem(total, asked, value, share, balance).value;
    var cap := Cap(total, EffectiveShare(share));
    QuotPositive(r.cents, pc);
    if Wrap64(asked * pc) > cap {
      CutToCap(cap, Wrap64(asked * pc), pc);
      PointsFitIff(Positive(cap), asked, pc);
    }
  }

  lemma RestIff(n: nat, pc: nat)
    requires pc > 0
    ensures n == n / pc * pc <==> n % pc == 0
  {
  }

  lemma WholeBelow(cap: nat, pc: nat)
    requires pc > 0
    ensures cap / pc * pc == Quot(cap / pc * pc, pc) * pc
  {
    DividesBack(cap / pc, pc);
  }

  // An offer is in whole points exactly when it was cut to the cap or divides evenly.
  lemma WholeOfferIff(cap: int64, want: int64, pc: int64)
    requires pc > 0 && Offered(cap, want, pc) > 0
    ensures var cents := Offered(cap, want, pc); cents == Quot(cents, pc) * pc <==> want > cap || want % pc == 0
  {
    if want > cap {
      CutToCap(cap, want, pc);
      WholeBelow(Positive(cap), pc);
    } else {
      RestIff(want, pc);
    }
  }

  // The cents of a redemption are its whole points exactly when the wrapped amount is
  // above the cap or a multiple of the point value.
  lemma WholePointsIff(total: int64, asked: int64, value: int64, share: int64, balance: int64)
    requires asked > 0 && Redeem(total, asked, value, share, balance).Some?
    ensures var pc := EffectiveValue(value);
            var r := Redeem(total, asked, value, share, balance).value;
            && pc > 0
            && (r.cents == r.points * pc
                <==> Wrap64(asked * pc) > Cap(total, EffectiveShare(share)) || Wrap64(asked * pc) % pc == 0)
  {
    var pc := EffectiveValue(value);
    RedeemParts(total, asked, value, share, balance);
    WholeOfferIff(Cap(total, EffectiveShare(share)), Wrap64(asked * pc), pc);
  }

  // Past 64 bits the asked amount wraps: one point buys 8 cents at 7 cents a point.
  lemma RedeemOverflows()
    ensures !Fits(7905747460161236408 * 7) && !Faithful(5000, 5000, 7905747460161236408, 7)
    ensures Redeem(10000, 7905747460161236408, 7, 50, 1) == Some(Redemption(8, 1))
    ensures Due(Best(5000, 7905747460161236408, 7), 7, 1) == None
  {
  }

  // ---- the amount due ----

  // A bill's total is negative exactly when the exact total does not fit 64 bits.
  lemma TotalFitsIff(sub: int64, discount: int64, percent: real, inclusive: bool)
    requires sub >= 0 && Discounted(sub, discount, percent, inclusive).Some?
    ensures var b := Discounted(sub, discount, percent, inclusive).value;
            var exact := Tax.Totals(sub - discount, percent, inclusive).1;
            && 0 <= sub - discount <= exact
            && (b.total >= 0 <==> exact < HALF)
            && (b.total >= 0 ==> b.total == exact)
  {
    if !inclusive {
      Tax.ExclusiveWithin(sub - discount, percent);
    }
  }

  // Fifty lines at the highest price and quantity, taxed at 100 percent on top.
  function WideCart(): seq<Line> {
    seq(50, i => Line(i, MAX_QTY, MAX_PRICE_CENTS))
  }

  lemma {:induction false} EqualLines(lines: seq<Line>, v: int)
    requires forall i :: 0 <= i < |lines| ==> lines[i].price * lines[i].qty == v
    ensures ExactSum(lines) == |lines| * v
  {
    if lines != [] {
      EqualLines(lines[..|lines| - 1], v);
    }
  }

  // Its bill is accepted with a negative total.
  lemma TotalOverflows()
    ensures forall l :: l in WideCart() ==> Priced(l)
    ensures var b := CheckoutBill(WideCart(), 0, false, 100.0, false); b.Some? && b.value.total < 0
  {
    var lines := WideCart();
    EqualLines(lines, 100_000_000_000_000_000);
    SubtotalExactIff(lines);
    var sub := 5_000_000_000_000_000_000;
    assert Subtotal(lines) == Some(sub);
    HundredPercent(sub);
    TotalFitsIff(sub, 0, 100.0, false);
  }

  lemma HundredPercent(amount: nat)
    ensures Tax.TaxFromExclusive(amount, 100.0) == amount
  {
    assert amount as real * 100.0 / 100.0 == amount as real;
  }

  // What changes hands after a redemption, wrapped or not.
  lemma PayableWithin(total: int64, asked: int64, value: int64, share: int64, balance: int64)
    requires total >= 0 && asked > 0 && Redeem(total, asked, value, share, balance).Some?
    ensures var r := Redeem(total, asked, value, share, balance).value;
            0 < r.cents <= total && 0 <= total - r.cents < total && 0 < r.points <= balance
  {
    RedeemParts(total, asked, value, share, balance);
    CapBelow(total, EffectiveShare(share));
  }

  // ---- carts without repeated products ----

  predicate DistinctProducts(items: seq<Item>) {
    forall i, j :: 0 <= i < j < |items| ==> items[i].product != items[j].product
  }

  function DirectLine(catalog: map<int, Listed>, mayOverride: bool, it: Item): Line {
    match UnitPrice(catalog, mayOverride, it)
    case Some(price) => Line(it.product, if it.qty < 0 then 0 else it.qty, price)
    case None => Line(it.product, 0, 0)
  }

  function DirectLines(catalog: map<int, Listed>, mayOverride: bool, items: seq<Item>): seq<Line> {
    seq(|items|, i requires 0 <= i < |items| => DirectLine(catalog, mayOverride, items[i]))
  }

  lemma {:induction false} DistinctMerge(catalog: map<int, Listed>, mayOverride: bool, items: seq<Item>)
    requires DistinctProducts(items) && Merge(catalog, mayOverride, items).Some?
    ensures var m := Merge(catalog, mayOverride, items).value;
            && (forall p :: p in m.order <==> p in m.acc)
            && LinesOf(m) == DirectLines(catalog, mayOverride, items)
  {
    if items != [] {
      var n := |items| - 1;
      var it := items[n];
      DistinctMerge(catalog, mayOverride, items[..n]);
      var m := Merge(catalog, mayOverride, items[..n]).value;
      forall i | 0 <= i < |m.order|
        ensures m.order[i] != it.product
      {
        assert LinesOf(m)[i] == DirectLine(catalog, mayOverride, items[i]);
        assert items[i].product != it.product;
      }
      assert DirectLines(catalog, mayOverride, items) == DirectLines(catalog, mayOverride, items[..n]) + [DirectLine(catalog, mayOverride, it)];
      var t := Merge(catalog, mayOverride, items).value;
      assert LinesOf(t) == LinesOf(m) + [LineOf(t, it.product)];
    }
  }

  // ---- from the cart to the order ----

  lemma {:induction false} OrderBounded(catalog: map<int, Listed>, mayOverride: bool, items: seq<Item>)
    requires Merge(catalog, mayOverride, items).Some?
    ensures var m := Merge(catalog, mayOverride, items).value; |m.order| <= |items| && (items != [] ==> m.acc != map[])
  {
    if items != [] {
      OrderBounded(catalog, mayOverride, items[..|items| - 1]);
      assert items[|items| - 1].product in Merge(catalog, mayOverride, items).value.acc;
    }
  }

  predicate FairPrices(catalog: map<int, Listed>) {
    forall p :: p in catalog ==> catalog[p].price >= 0
  }

  lemma MergedLineGood(catalog: map<int, Listed>, mayOverride: bool, items: seq<Item>, m: Merged, i: nat)
    requires FairPrices(catalog) && MergedFrom(catalog, mayOverride, items, m) && i < |m.order|
    ensures Priced(LinesOf(m)[i]) && m.order[i] in catalog && LinesOf(m)[i].product == m.order[i]
  {
  }

  // Whatever cart was typed, the lines that reach the order are the merged lines the
  // order transactions rely on, and their amounts stay far inside 64 bits.
  lemma MergedLinesGood(catalog: map<int, Listed>, mayOverride: bool, items: seq<Item>, ps: map<int, Product>)
    requires FairPrices(catalog) && catalog.Keys <= ps.Keys && items != [] && |items| <= MAX_LINES
    requires Merge(catalog, mayOverride, items).Some?
    ensures var lines := LinesOf(Merge(catalog, mayOverride, items).value);
            GoodLines(ps, lines) && 1 <= |lines| <= MAX_LINES && forall l :: l in lines ==> Priced(l)
  {
    var m := Merge(catalog, mayOverride, items).value;
    var lines := LinesOf(m);
    MergeMeans(catalog, mayOverride, items);
    OrderBounded(catalog, mayOverride, items);
    forall l | l in lines
      ensures Priced(l) && l.product in ps
    {
      var i :| 0 <= i < |lines| && lines[i] == l;
      MergedLineGood(catalog, mayOverride, items, m, i);
    }
    forall i, j | 0 <= i < j < |lines|
      ensures lines[i].product != lines[j].product
    {
      assert First(items, m.order[i]) < First(items, m.order[j]);
    }
    var p :| p in m.acc;
    assert p in m.order;
  }

  // A cart of distinct products and a quote of the same lines give the same bill, with
  // the same exception.
  lemma QuoteOfCart(catalog: map<int, Listed>, mayOverride: bool, items: seq<Item>,
                    discount: int64, mayDiscount: bool, percent: real, inclusive: bool)
    requires FairPrices(catalog) && items != [] && |items| <= MAX_LINES && DistinctProducts(items)
    requires Merge(catalog, mayOverride, items).Some?
    ensures CheckoutBill(LinesOf(Merge(catalog, mayOverride, items).value), discount, mayDiscount, percent, inclusive)
            == if discount > 0 && !mayDiscount then None
               else QuoteBill(QuoteOf(DirectLines(catalog, mayOverride, items)), discount, percent, inclusive)
  {
    MergedLinesGood(catalog, mayOverride, items, map p | p in catalog :: Product(0, true, false));
    DistinctMerge(catalog, mayOverride, items);
    QuoteAgrees(LinesOf(Merge(catalog, mayOverride, items).value), discount, mayDiscount, percent, inclusive);
  }

  // The amount due: what the bill says less what the points are worth, in 64 bits.
  function AmountDue(total: int64, redemption: Option<Redemption>): int64 {
    Wrap64(total - if redemption.Some? then redemption.value.cents else 0)
  }

  function PointsSpent(redemption: Option<Redemption>): int {
    if redemption.Some? then redemption.value.points else 0
  }

  lemma WrapSign(total: int64, cents: int64)
    requires cents > 0 && (total >= 0 ==> cents <= total)
    ensures Wrap64(total - cents) >= 0 <==> total >= 0 || total - cents < -HALF
  {
  }

  // A negative total stays negative unless the redemption takes it below 64 bits.
  lemma DueSign(total: int64, asked: int64, value: int64, share: int64, balance: int64, redemption: Option<Redemption>)
    requires redemption.Some? ==> asked > 0 && redemption == Redeem(total, asked, value, share, balance)
    ensures PointsSpent(redemption) >= 0
    ensures AmountDue(total, redemption) >= 0 <==> total >= 0 || (redemption.Some? && total - redemption.value.cents < -HALF)
  {
    if redemption.Some? {
      CentsWithin(total, asked, value, share, balance);
      WrapSign(total, redemption.value.cents);
    }
  }

  lemma CentsWithin(total: int64, asked: int64, value: int64, share: int64, balance: int64)
    requires asked > 0 && Redeem(total, asked, value, share, balance).Some?
    ensures var r := Redeem(total, asked, value, share, balance).value;
            Fits(r.cents) && r.cents > 0 && r.points > 0 && (total >= 0 ==> r.cents <= total)
  {
    RedeemParts(total, asked, value, share, balance);
    if total >= 0 {
      PayableWithin(total, asked, value, share, balance);
    }
  }

  // A merged, billed and redeemed cart is one the checkout transaction takes. It is
  // one the laws over runs are about exactly when the bill's total fits 64 bits, or a
  // redemption takes a negative total past the other end.
  lemma CartReadyIff(catalog: map<int, Listed>, mayOverride: bool, items: seq<Item>, ps: map<int, Product>,
                     discount: int64, mayDiscount: bool, percent: real, inclusive: bool,
                     asked: int64, value: int64, share: int64, balance: int64, redemption: Option<Redemption>, cart: Cart)
    requires FairPrices(catalog) && catalog.Keys <= ps.Keys && items != [] && |items| <= MAX_LINES
    requires Merge(catalog, mayOverride, items).Some?
    requires cart.lines == LinesOf(Merge(catalog, mayOverride, items).value)
    requires CheckoutBill(cart.lines, discount, mayDiscount, percent, inclusive).Some?
    requires var total := CheckoutBill(cart.lines, discount, mayDiscount, percent, inclusive).value.total;
             && cart.payable == AmountDue(total, redemption) && cart.redeem == PointsSpent(redemption)
             && (redemption.Some? ==> asked > 0 && redemption == Redeem(total, asked, value, share, balance))
    ensures cart.redeem >= 0 && GoodLines(ps, cart.lines)
    ensures var total := CheckoutBill(cart.lines, discount, mayDiscount, percent, inclusive).value.total;
            cart.payable >= 0 <==> Tax.Totals(ExactSum(cart.lines) - discount, percent, inclusive).1 < HALF
                                   || (redemption.Some? && total - redemption.value.cents < -HALF)
  {
    MergedLinesGood(catalog, mayOverride, items, ps);
    SubtotalExactIff(cart.lines);
    var bill := CheckoutBill(cart.lines, discount, mayDiscount, percent, inclusive).value;
    TotalFitsIff(bill.subtotal, discount, percent, inclusive);
    DueSign(bill.total, asked, value, share, balance, redemption);
  }
}
