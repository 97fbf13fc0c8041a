// Order numbers: prefix, day, and a counter of at least four digits. The counter row
// may lag behind the numbers in use, so every mint heals past the highest of the day.

module OrderNumbers {
  import opened MoneyText
  import opened Options

  // ---- decimal text ----

  function Pow10(n: nat): (p: nat)
    ensures p > 0
  {
    if n == 0 then 1 else 10 * Pow10(n - 1)
  }

  function Zeros(n: nat): string {
    seq(n, _ => '0')
  }

  // %04d.
  function Pad4(n: nat): (s: string)
    ensures |s| >= 4
  {
    var d := Decimal(n);
    if |d| < 4 then Zeros(4 - |d|) + d else d
  }

  lemma {:induction false} NumberBelow(s: string)
    requires AllDigits(s)
    ensures NumberOf(s) < Pow10(|s|)
  {
    if s != "" {
      assert IsDigit(s[|s| - 1]);
      NumberBelow(s[..|s| - 1]);
    }
  }

  lemma {:induction false} DecimalAtLeast(n: nat)
    requires n > 0
    ensures n >= Pow10(|Decimal(n)| - 1)
  {
    if n >= 10 {
      DecimalAtLeast(n / 10);
    }
  }

  lemma {:induction false} ZerosAddNothing(k: nat, s: string)
    requires AllDigits(s)
    ensures AllDigits(Zeros(k) + s) && NumberOf(Zeros(k) + s) == NumberOf(s)
  {
    if s == "" {
      if k > 0 {
        ZerosAddNothing(k - 1, "");
        assert (Zeros(k) + s)[..k - 1] == Zeros(k - 1) + "";
      }
    } else {
      var n := |s| - 1;
      assert IsDigit(s[n]);
      ZerosAddNothing(k, s[..n]);
      assert (Zeros(k) + s)[..k + n] == Zeros(k) + s[..n];
    }
  }

  lemma Pad4Reads(n: nat)
    ensures AllDigits(Pad4(n)) && NumberOf(Pad4(n)) == n
    ensures |Pad4(n)| > 4 ==> n >= Pow10(|Pad4(n)| - 1)
  {
    var d := Decimal(n);
    DecimalReads(n);
    if |d| < 4 {
      ZerosAddNothing(4 - |d|, d);
    } else if n > 0 {
      DecimalAtLeast(n);
    }
  }

  lemma {:induction false} PowMonotone(a: nat, b: nat)
    requires a <= b
    ensures Pow10(a) <= Pow10(b)
  {
    if a < b {
      PowMonotone(a, b - 1);
    }
  }

  // ---- text order ----

  // x comes strictly before y, character by character; a proper prefix comes first.
  predicate Before(x: string, y: string) {
    exists k :: 0 <= k <= |x| && k < |y| && x[..k] == y[..k] && (k == |x| || x[k] < y[k])
  }

  // ORDER BY LENGTH(number) DESC, number DESC: x is not behind y.
  predicate Leads(x: string, y: string) {
    |x| > |y| || (|x| == |y| && !Before(x, y))
  }

  lemma {:induction false} BeforeCounts(x: string, y: string)
    requires AllDigits(x) && AllDigits(y) && |x| == |y| && Before(x, y)
    ensures NumberOf(x) < NumberOf(y)
  {
    var n := |x| - 1;
    var k :| 0 <= k <= |x| && k < |y| && x[..k] == y[..k] && (k == |x| || x[k] < y[k]);
    assert IsDigit(x[n]) && IsDigit(y[n]);
    if k < n {
      assert x[..n][..k] == y[..n][..k] && x[..n][k] < y[..n][k];
      BeforeCounts(x[..n], y[..n]);
    }
  }

  // Text of one length that is neither before nor behind is the same text.
  lemma {:induction false} BeforeTotal(x: string, y: string)
    requires |x| == |y| && x != y
    ensures Before(x, y) || Before(y, x)
  {
    var n := |x| - 1;
    if x[..n] == y[..n] {
      assert x == x[..n] + [x[n]] && y == y[..n] + [y[n]];
      assert x[n] < y[n] || y[n] < x[n];
    } else {
      BeforeTotal(x[..n], y[..n]);
      if Before(x[..n], y[..n]) {
        BeforeExtends(x, y, n);
      } else {
        BeforeExtends(y, x, n);
      }
    }
  }

  lemma BeforeExtends(x: string, y: string, n: nat)
    requires |x| == |y| && n <= |x| && Before(x[..n], y[..n])
    ensures Before(x, y)
  {
    var k :| 0 <= k <= n && k < n && x[..n][..k] == y[..n][..k] && (k == n || x[..n][k] < y[..n][k]);
    assert x[..k] == x[..n][..k] && y[..k] == y[..n][..k];
    assert x[k] < y[k];
  }

  // ---- numbers of one day ----

  function Number(stem: string, n: nat): string {
    stem + Pad4(n)
  }

  lemma BeforeStem(stem: string, x: string, y: string)
    requires |x| == |y|
    ensures Before(stem + x, stem + y) <==> Before(x, y)
  {
    var s, t := stem + x, stem + y;
    if Before(x, y) {
      var k :| 0 <= k <= |x| && k < |y| && x[..k] == y[..k] && (k == |x| || x[k] < y[k]);
      assert s[..|stem| + k] == stem + x[..k] && t[..|stem| + k] == stem + y[..k];
      assert s[|stem| + k] < t[|stem| + k];
    }
    if Before(s, t) {
      var k :| 0 <= k <= |s| && k < |t| && s[..k] == t[..k] && (k == |s| || s[k] < t[k]);
      assert s[k] < t[k];
      var j := k - |stem|;
      assert x[..j] == s[..k][|stem|..] && y[..j] == t[..k][|stem|..];
    }
  }

  // Longest first and then highest text first is highest number first.
  lemma LeadsIffGreater(stem: string, a: nat, b: nat)
    ensures Leads(Number(stem, a), Number(stem, b)) <==> a >= b
  {
    var x, y := Pad4(a), Pad4(b);
    Pad4Reads(a);
    Pad4Reads(b);
    NumberBelow(x);
    NumberBelow(y);
    if |x| > |y| {
      PowMonotone(|y|, |x| - 1);
    } else if |y| > |x| {
      PowMonotone(|x|, |y| - 1);
    } else {
      BeforeStem(stem, x, y);
      if Before(x, y) {
        BeforeCounts(x, y);
      } else if x != y {
        BeforeTotal(x, y);
        BeforeCounts(y, x);
      }
    }
  }

  // ---- the probe for the day's highest number ----

  // number >= lo AND number < hi, compared as text.
  predicate InRange(number: string, lo: string, hi: string) {
    !Before(number, lo) && Before(number, hi)
  }

  lemma BeforeByPrefix(stem: string, x: string, y: string, tail: string)
    requires |x| == |y| && Before(x, y)
    ensures Before(stem + x + tail, stem + y)
    ensures !Before(stem + y + tail, stem + x)
  {
    var k :| 0 <= k <= |x| && k < |y| && x[..k] == y[..k] && (k == |x| || x[k] < y[k]);
    var s, t := stem + x + tail, stem + y;
    assert s[..|stem| + k] == stem + x[..k] && t[..|stem| + k] == stem + y[..k];
    assert s[|stem| + k] < t[|stem| + k];
    var u, v := stem + y + tail, stem + x;
    var at := |stem| + k;
    assert u[at] == y[k] && v[at] == x[k];
    assert u[..at] == stem + y[..k] && v[..at] == stem + x[..k];
    NotBeforeAt(u, v, at);
  }

  // The first difference decides.
  lemma NotBeforeAt(u: string, v: string, at: nat)
    requires at < |u| && at < |v| && u[..at] == v[..at] && v[at] < u[at]
    ensures !Before(u, v)
  {
    forall j | 0 <= j < at
      ensures u[j] == v[j]
    {
      assert u[..at][j] == v[..at][j];
    }
    forall j | at < j <= |u| && j <= |v|
      ensures u[..j] != v[..j]
    {
      assert u[..j][at] == u[at] && v[..j][at] == v[at];
    }
  }

  lemma NotBeforePrefix(stem: string, tail: string)
    ensures !Before(stem + tail, stem)
  {
    var s := stem + tail;
    forall k | 0 <= k < |stem|
      ensures s[k] == stem[k]
    {
    }
  }

  // The range from one day to the next holds the numbers of that day and of no day
  // before or after it.
  lemma RangeIsTheDay(prefix: string, day: string, next: string, other: string, tail: string)
    requires |day| == |next| == |other| && Before(day, next)
    requires other == day || Before(other, day) || other == next || Before(next, other)
    ensures InRange(prefix + other + tail, prefix + day, prefix + next) <==> other == day
  {
    BeforeSelf(day);
    if other == day {
      NotBeforePrefix(prefix + day, tail);
      BeforeByPrefix(prefix, day, next, tail);
    } else if other == next {
      NotBeforePrefix(prefix + next, tail);
    } else if Before(other, day) {
      BeforeByPrefix(prefix, other, day, tail);
    } else {
      BeforeByPrefix(prefix, next, other, tail);
    }
  }

  lemma BeforeSelf(x: string)
    ensures !Before(x, x)
  {
  }

  // The first row of the probe.
  function TopOf(numbers: seq<string>, lo: string, hi: string): Option<string> {
    if numbers == [] then None
    else
      var top := TopOf(numbers[..|numbers| - 1], lo, hi);
      var last := numbers[|numbers| - 1];
      if InRange(last, lo, hi) && (top.None? || !Leads(top.value, last)) then Some(last) else top
  }

  // strconv.Atoi: an optional sign, then digits only, within 64 bits.
  function Atoi(s: string): Option<int> {
    var signed := s != "" && (s[0] == '-' || s[0] == '+');
    var digits := if signed then s[1..] else s;
    if digits == "" || !AllDigits(digits) then None
    else
      var v: int := if s[0] == '-' then -(NumberOf(digits) as int) else NumberOf(digits);
      if v < -0x8000_0000_0000_0000 || v >= 0x8000_0000_0000_0000 then None else Some(v)
  }

  // The counter after the bump and the heal.
  function Healed(bumped: nat, top: Option<string>, stem: string): nat {
    if top.None? || !(stem <= top.value) then bumped
    else
      var tail := top.value[|stem|..];
      var v := Atoi(tail[..IndexOf(tail, '-')]);
      if v.Some? && v.value > bumped - 1 then v.value + 1 else bumped
  }

  // ---- tables whose numbers are stem and counter ----

  const LIMIT := 0x8000_0000_0000_0000

  // Every number in the probed range is the stem and a 64-bit counter.
  predicate Tidy(numbers: seq<string>, stem: string, hi: string) {
    forall s :: s in numbers && InRange(s, stem, hi) ==>
      stem <= s && AllDigits(s[|stem|..]) && s == Number(stem, NumberOf(s[|stem|..])) && NumberOf(s[|stem|..]) < LIMIT
  }

  predicate Used(numbers: seq<string>, stem: string, hi: string, n: nat) {
    Number(stem, n) in numbers && InRange(Number(stem, n), stem, hi)
  }

  // h is the highest counter in use, -1 for none.
  ghost predicate Highest(numbers: seq<string>, stem: string, hi: string, h: int) {
    && (forall n: nat :: Used(numbers, stem, hi, n) ==> n <= h)
    && (h >= 0 ==> Used(numbers, stem, hi, h) && h < LIMIT)
    && h >= -1
  }

  lemma NumberTail(stem: string, n: nat)
    ensures stem <= Number(stem, n) && Number(stem, n)[|stem|..] == Pad4(n)
    ensures AllDigits(Pad4(n)) && NumberOf(Pad4(n)) == n
  {
    Pad4Reads(n);
  }

  // The top row is the highest counter of the day.
  lemma {:induction false} TopIsHighest(numbers: seq<string>, stem: string, hi: string) returns (h: int)
    requires Tidy(numbers, stem, hi)
    ensures Highest(numbers, stem, hi, h)
    ensures TopOf(numbers, stem, hi) == if h < 0 then None else Some(Number(stem, h))
  {
    if numbers == [] {
      return -1;
    }
    var rest, last := numbers[..|numbers| - 1], numbers[|numbers| - 1];
    var g := TopIsHighest(rest, stem, hi);
    h := g;
    if InRange(last, stem, hi) {
      var m := NumberOf(last[|stem|..]);
      if g >= 0 {
        LeadsIffGreater(stem, g, m);
      }
      h := if g < m then m else g;
      forall n: nat | Used(numbers, stem, hi, n)
        ensures n <= h
      {
        NumberTail(stem, n);
        assert Used(rest, stem, hi, n) || Number(stem, n) == last;
      }
    } else {
      forall n: nat | Used(numbers, stem, hi, n)
        ensures n <= h
      {
        assert Used(rest, stem, hi, n);
      }
    }
  }

  lemma AtoiReads(n: nat)
    requires n < LIMIT
    ensures var t := Pad4(n); Atoi(t[..IndexOf(t, '-')]) == Some(n)
  {
    var t := Pad4(n);
    Pad4Reads(n);
    NoDash(t);
    assert t[..|t|] == t;
    assert IsDigit(t[0]);
  }

  lemma {:induction false} NoDash(s: string)
    requires AllDigits(s)
    ensures IndexOf(s, '-') == |s|
  {
    if s != "" {
      assert IsDigit(s[0]);
      NoDash(s[1..]);
    }
  }

  // The healed counter lies past the stored one and past every number of the day,
  // and is the least that does.
  lemma HealedIsLeast(numbers: seq<string>, stem: string, hi: string, stored: nat) returns (h: int)
    requires Tidy(numbers, stem, hi)
    ensures Highest(numbers, stem, hi, h)
    ensures Healed(stored + 1, TopOf(numbers, stem, hi), stem) == if h > stored then h + 1 else stored + 1
  {
    h := TopIsHighest(numbers, stem, hi);
    if h >= 0 {
      NumberTail(stem, h);
      AtoiReads(h);
    }
  }

  // The counter an attempt mints, after so many attempts lost to rollbacks.
  function Candidate(numbers: seq<string>, stem: string, hi: string, stored: nat, skip: nat): nat {
    Healed(stored + 1, TopOf(numbers, stem, hi), stem) + skip
  }

  // A minted number exceeds every number of the day, so it is not in use.
  lemma MintExceeds(numbers: seq<string>, stem: string, hi: string, stored: nat, skip: nat)
    requires Tidy(numbers, stem, hi)
    ensures var c := Candidate(numbers, stem, hi, stored, skip);
            && c > stored + skip
            && (forall n: nat :: Used(numbers, stem, hi, n) ==> n < c)
  {
    var h := HealedIsLeast(numbers, stem, hi, stored);
  }

  // What an attempt sees: the counter row and the numbers in use.
  datatype View = View(stored: nat, numbers: seq<string>)

  predicate Grows(a: View, b: View) {
    a.stored <= b.stored && forall s :: s in a.numbers ==> s in b.numbers
  }

  // Attempts of one checkout: their own bumps roll back, but what others commit in
  // between only grows. Each later attempt mints a higher number.
  lemma RetriesIncrease(a: View, b: View, stem: string, hi: string, i: nat, j: nat)
    requires Tidy(a.numbers, stem, hi) && Tidy(b.numbers, stem, hi) && Grows(a, b) && i < j
    ensures Candidate(a.numbers, stem, hi, a.stored, i) < Candidate(b.numbers, stem, hi, b.stored, j)
  {
    var g := HealedIsLeast(a.numbers, stem, hi, a.stored);
    var h := HealedIsLeast(b.numbers, stem, hi, b.stored);
    if g >= 0 {
      assert Used(b.numbers, stem, hi, g);
    }
  }

  // Minting keeps the table tidy while counters fit 64 bits.
  lemma MintKeepsTidy(numbers: seq<string>, stem: string, hi: string, c: nat)
    requires Tidy(numbers, stem, hi) && c < LIMIT
    ensures Tidy(numbers + [Number(stem, c)], stem, hi)
  {
    NumberTail(stem, c);
  }
}
