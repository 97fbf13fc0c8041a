// Money as text: the receipt formatter with its thousands separators, and the import
// parser that has to read it back. Amounts are 64-bit cents.

module MoneyText {
  import opened Int64
  import opened Options

  datatype Parsed = Cents(value: int) | BadNumber | Negative

  // ---- writing ----

  function Digit(d: nat): char
    requires d < 10
  {
    '0' + d as char
  }

  // %d of a number that is not negative.
  function Decimal(n: nat): (s: string)
    ensures s != ""
  {
    if n < 10 then [Digit(n)] else Decimal(n / 10) + [Digit(n % 10)]
  }

  function Signed(v: int): string {
    if v < 0 then "-" + Decimal(-v) else Decimal(v)
  }

  // %02d, the sign counting towards the width.
  function TwoWide(v: int): string {
    if 0 <= v < 10 then "0" + Decimal(v) else Signed(v)
  }

  function Thousands(s: string): string {
    if |s| <= 3 then s else Thousands(s[..|s| - 3]) + "," + s[|s| - 3..]
  }

  function Join(groups: seq<string>): string {
    if groups == [] then ""
    else if |groups| == 1 then groups[0]
    else groups[0] + "," + Join(groups[1..])
  }

  method InsertCommas(text: string) returns (s: string)
    ensures s == Thousands(text)
  {
    if |text| <= 3 {
      return text;
    }
    var rest := text;
    var groups: seq<string> := [];
    while |rest| > 3
      invariant |rest| > 0
      invariant Thousands(text) == Thousands(rest) + if groups == [] then "" else "," + Join(groups)
    {
      ghost var was := groups;
      groups := [rest[|rest| - 3..]] + groups;
      assert groups[1..] == was;
      rest := rest[..|rest| - 3];
    }
    assert ([rest] + groups)[1..] == groups;
    s := Join([rest] + groups);
  }

  function Format(cents: int64, symbol: string): string
  {
    var c := if cents < 0 then Wrap64(-(cents as int)) else cents;
    var s := Thousands(Signed(Quot(c, 100))) + "." + TwoWide(Rem(c, 100));
    var t := if symbol != "" then symbol + " " + s else s;
    if cents < 0 then "-" + t else t
  }

  // ---- reading ----

  predicate IsDigit(ch: char) {
    '0' <= ch <= '9'
  }

  predicate IsSpace(ch: char) {
    ch == ' ' || '\t' <= ch <= '\r'
  }

  function Without(s: string, ch: char): string {
    if s == "" then "" else (if s[0] == ch then "" else [s[0]]) + Without(s[1..], ch)
  }

  function TrimLeft(s: string): string {
    if s != "" && IsSpace(s[0]) then TrimLeft(s[1..]) else s
  }

  function TrimRight(s: string): string {
    if s != "" && IsSpace(s[|s| - 1]) then TrimRight(s[..|s| - 1]) else s
  }

  function Trim(s: string): string {
    TrimRight(TrimLeft(s))
  }

  function IndexOf(s: string, ch: char): (i: nat)
    ensures i <= |s|
    ensures i < |s| ==> s[i] == ch
  {
    if s == "" || s[0] == ch then 0 else 1 + IndexOf(s[1..], ch)
  }

  function DigitPrefix(s: string): (p: string)
    ensures forall ch :: ch in p ==> IsDigit(ch)
  {
    if s != "" && IsDigit(s[0]) then [s[0]] + DigitPrefix(s[1..]) else ""
  }

  function NumberOf(s: string): nat
    requires forall ch :: ch in s ==> IsDigit(ch)
  {
    if s == "" then 0
    else
      assert IsDigit(s[|s| - 1]);
      10 * NumberOf(s[..|s| - 1]) + (s[|s| - 1] as int - '0' as int)
  }

  // Sscanf with %d: blanks are skipped, a newline is an error, a sign is allowed,
  // trailing text is ignored, and the number has to fit 64 bits.
  function ScanInt(s: string): Option<int>
    decreases |s|
  {
    if s == "" then None
    else if s[0] == '\n' || (s[0] == '\r' && |s| > 1 && s[1] == '\n') then None
    else if IsSpace(s[0]) then ScanInt(s[1..])
    else
      var signed := s[0] == '-' || s[0] == '+';
      var p := DigitPrefix(if signed then s[1..] else s);
      var v: int := if s[0] == '-' then -(NumberOf(p) as int) else NumberOf(p);
      if p == "" || v < -HALF || v >= HALF then None else Some(v)
  }

  function Pad(frac: string): string
    decreases 2 - |frac|
  {
    if |frac| < 2 then Pad(frac + "0") else frac
  }

  function Fraction(text: string): string {
    Pad(if |text| > 2 then text[..2] else text)
  }

  function Unsigned(t: string): Parsed {
    var dot := IndexOf(t, '.');
    var whole := t[..dot];
    var frac := if dot < |t| then Fraction(t[dot + 1..]) else "00";
    var f := match ScanInt(frac) case Some(v) => v case None => 0;
    if whole == "" then Cents(Wrap64(f))
    else match ScanInt(whole)
         case None => BadNumber
         case Some(w) => Cents(Wrap64(Wrap64(w * 100) + f))
  }

  function Parse(text: string): Parsed {
    var s := Trim(Without(text, ','));
    if s == "" then Cents(0)
    else if s[0] != '-' then Unsigned(s)
    else if Unsigned(s[1..]).BadNumber? then BadNumber
    else Negative
  }

  method ParseMoneyToCents(text: string) returns (r: Parsed)
    ensures r == Parse(text)
  {
    var s := Trim(Without(text, ','));
    if s == "" {
      return Cents(0);
    }
    var negative := s[0] == '-';
    if negative {
      s := s[1..];
    }
    var whole, frac := s, "00";
    var dot := IndexOf(s, '.');
    assert s[..|s|] == s;
    if dot < |s| {
      whole, frac := s[..dot], s[dot + 1..];
      if |frac| > 2 {
        frac := frac[..2];
      }
      while |frac| < 2
        invariant Pad(frac) == Fraction(s[dot + 1..])
      {
        frac := frac + "0";
      }
    }
    var w, f := 0, 0;
    if whole != "" {
      var scanned := ScanInt(whole);
      if scanned.None? {
        return BadNumber;
      }
      w := scanned.value;
    }
    var scanned := ScanInt(frac);
    if scanned.Some? {
      f := scanned.value;
    }
    var cents := Wrap64(Wrap64(w * 100) + f);
    r := if negative then Negative else Cents(cents);
  }

  // ---- the parser reads what the formatter writes ----

  predicate AllDigits(s: string) {
    forall ch :: ch in s ==> IsDigit(ch)
  }

  lemma {:induction false} DecimalReads(n: nat)
    ensures AllDigits(Decimal(n)) && NumberOf(Decimal(n)) == n
  {
    if n >= 10 {
      DecimalReads(n / 10);
      assert Decimal(n)[..|Decimal(n)| - 1] == Decimal(n / 10);
    }
  }

  lemma {:induction false} WithoutConcat(a: string, b: string, ch: char)
    ensures Without(a + b, ch) == Without(a, ch) + Without(b, ch)
  {
    if a == "" {
      assert a + b == b;
    } else {
      assert (a + b)[1..] == a[1..] + b;
      WithoutConcat(a[1..], b, ch);
    }
  }

  lemma {:induction false} WithoutAbsent(s: string, ch: char)
    requires ch !in s
    ensures Without(s, ch) == s
  {
    if s != "" {
      WithoutAbsent(s[1..], ch);
    }
  }

  lemma WithoutComma(a: string, b: string)
    ensures Without(a + "," + b, ',') == Without(a, ',') + Without(b, ',')
  {
    WithoutConcat(a + ",", b, ',');
    WithoutConcat(a, ",", ',');
    assert ","[1..] == "";
    assert Without(a, ',') + Without(",", ',') == Without(a, ',');
  }

  // Separators are all the formatter adds to the digits.
  lemma {:induction false} CommasVanish(s: string)
    requires ',' !in s
    ensures Without(Thousands(s), ',') == s
    decreases |s|
  {
    if |s| <= 3 {
      WithoutAbsent(s, ',');
    } else {
      var head, tail := s[..|s| - 3], s[|s| - 3..];
      CommasVanish(head);
      WithoutAbsent(tail, ',');
      WithoutComma(Thousands(head), tail);
      assert head + tail == s;
    }
  }

  lemma {:induction false} PrefixWhole(s: string)
    requires AllDigits(s)
    ensures DigitPrefix(s) == s
  {
    if s != "" {
      PrefixWhole(s[1..]);
    }
  }

  lemma ScanDigits(s: string)
    requires s != "" && AllDigits(s)
    ensures ScanInt(s) == if NumberOf(s) < HALF then Some(NumberOf(s)) else None
  {
    assert IsDigit(s[0]);
    PrefixWhole(s);
  }

  lemma {:induction false} IndexAfter(a: string, b: string)
    requires '.' !in a && b != "" && b[0] == '.'
    ensures IndexOf(a + b, '.') == |a|
  {
    if a == "" {
      assert a + b == b;
    } else {
      assert (a + b)[1..] == a[1..] + b;
      IndexAfter(a[1..], b);
    }
  }

  lemma TwoWideReads(f: nat)
    requires f < 100
    ensures |TwoWide(f)| == 2 && AllDigits(TwoWide(f)) && NumberOf(TwoWide(f)) == f
  {
    DecimalReads(f);
    if f < 10 {
      assert TwoWide(f)[..1] == "0" && "0"[..0] == "";
    } else {
      assert Decimal(f / 10) == [Digit(f / 10)];
    }
  }

  lemma SplitAtPoint(a: string, b: string)
    requires '.' !in a
    ensures var t := a + "." + b; var dot := IndexOf(t, '.'); dot == |a| < |t| && t[..dot] == a && t[dot + 1..] == b
  {
    var t := a + "." + b;
    assert t == a + ("." + b);
    IndexAfter(a, "." + b);
  }

  lemma ReadParts(a: string, b: string)
    requires a != "" && AllDigits(a) && NumberOf(a) < HALF
    requires |b| == 2 && AllDigits(b) && NumberOf(b) < HALF
    ensures Unsigned(a + "." + b) == Cents(Wrap64(Wrap64(NumberOf(a) * 100) + NumberOf(b)))
  {
    SplitAtPoint(a, b);
    ScanDigits(a);
    ScanDigits(b);
    assert Fraction(b) == b;
  }

  lemma TrimSolid(s: string)
    requires s != "" && !IsSpace(s[0]) && !IsSpace(s[|s| - 1])
    ensures Trim(s) == s
  {
  }

  lemma FormatWithoutCommas(w: nat, f: nat)
    requires f < 100
    ensures Without(Thousands(Decimal(w)) + "." + TwoWide(f), ',') == Decimal(w) + "." + TwoWide(f)
  {
    DecimalReads(w);
    TwoWideReads(f);
    CommasVanish(Decimal(w));
    WithoutConcat(Thousands(Decimal(w)) + ".", TwoWide(f), ',');
    WithoutConcat(Thousands(Decimal(w)), ".", ',');
    WithoutAbsent(".", ',');
    WithoutAbsent(TwoWide(f), ',');
  }

  lemma {:induction false} WithoutSign(s: string, ch: char)
    requires s != "" && s[0] != ch
    ensures Without(s, ch) != "" && Without(s, ch)[0] == s[0]
  {
  }

  lemma {:induction false} TrimRightStarts(s: string)
    requires s != "" && !IsSpace(s[0])
    ensures TrimRight(s) != "" && TrimRight(s)[0] == s[0]
  {
    if IsSpace(s[|s| - 1]) {
      TrimRightStarts(s[..|s| - 1]);
    }
  }

  // No text that starts with a minus sign is accepted.
  lemma MinusRefused(text: string)
    requires text != "" && text[0] == '-'
    ensures !Parse(text).Cents?
  {
    WithoutSign(text, ',');
    TrimRightStarts(Without(text, ','));
  }

  // Digits, a point and two digits, with separators anywhere before the point.
  lemma PartsParse(a: string, b: string, text: string)
    requires a != "" && AllDigits(a) && NumberOf(a) < HALF
    requires |b| == 2 && AllDigits(b) && NumberOf(b) < HALF
    requires Without(text, ',') == a + "." + b
    ensures Parse(text) == Cents(Wrap64(Wrap64(NumberOf(a) * 100) + NumberOf(b)))
  {
    var s := a + "." + b;
    assert s[0] == a[0] && s[|s| - 1] == b[1];
    assert IsDigit(s[0]) && IsDigit(s[|s| - 1]);
    TrimSolid(s);
    ReadParts(a, b);
  }

  // Two digits of a fraction, filled up or cut off.
  lemma TwoPlaces(b: string)
    ensures Fraction(b) == (b + "00")[..2]
  {
    if b == "" {
      assert b + "0" == "0" && "0" + "0" == "00";
      assert Pad(b) == Pad("0") && Pad("0") == Pad("00");
    } else if |b| == 1 {
      assert Pad(b) == Pad(b + "0");
    } else {
      assert (b + "00")[..2] == b[..2];
    }
  }

  lemma TwoDigits(f: string)
    requires |f| == 2 && AllDigits(f)
    ensures NumberOf(f) < 100
  {
    assert IsDigit(f[0]) && IsDigit(f[1]);
    assert f[..1] == [f[0]] && f[..1][..0] == "";
    assert NumberOf(f[..1]) < 10;
  }

  lemma TwoPlacesDigits(b: string)
    requires AllDigits(b)
    ensures AllDigits((b + "00")[..2]) && NumberOf((b + "00")[..2]) < 100
  {
    forall ch | ch in (b + "00")[..2]
      ensures IsDigit(ch)
    {
      assert ch in b + "00";
    }
    TwoDigits((b + "00")[..2]);
  }

  lemma UnsignedAt(t: string, a: string, b: string, f: string, w: nat, v: nat)
    requires var dot := IndexOf(t, '.'); dot == |a| < |t| && t[..dot] == a && t[dot + 1..] == b
    requires Fraction(b) == f && ScanInt(f) == Some(v) && (if a == "" then w == 0 else ScanInt(a) == Some(w))
    ensures Unsigned(t) == Cents(Wrap64(Wrap64(w * 100) + v))
  {
  }

  lemma UnsignedMeans(a: string, b: string, f: string)
    requires AllDigits(a) && NumberOf(a) < HALF && f == (b + "00")[..2] && AllDigits(f)
    ensures Unsigned(a + "." + b) == Cents(Wrap64(Wrap64(NumberOf(a) * 100) + NumberOf(f)))
  {
    assert '.' !in a;
    SplitAtPoint(a, b);
    TwoPlaces(b);
    TwoDigits(f);
    ScanDigits(f);
    if a != "" {
      ScanDigits(a);
    }
    UnsignedAt(a + "." + b, a, b, f, NumberOf(a), NumberOf(f));
  }

  lemma ParseSolid(text: string, s: string)
    requires Without(text, ',') == s && s != "" && s[0] != '-' && !IsSpace(s[0]) && !IsSpace(s[|s| - 1])
    ensures Parse(text) == Unsigned(s)
  {
    TrimSolid(s);
  }

  lemma AmountEnds(a: string, b: string)
    requires AllDigits(a) && AllDigits(b)
    ensures var s := a + "." + b; s[0] != '-' && !IsSpace(s[0]) && !IsSpace(s[|s| - 1])
  {
    var s := a + "." + b;
    assert a != "" ==> s[0] == a[0] && IsDigit(a[0]);
    assert b != "" ==> s[|s| - 1] == b[|b| - 1] && IsDigit(b[|b| - 1]);
  }

  // Digits, a point and digits, either side possibly missing: the cents are the first
  // two places, and further ones are cut off.
  lemma AmountMeans(a: string, b: string, f: string, text: string)
    requires AllDigits(a) && AllDigits(b) && NumberOf(a) < HALF && Without(text, ',') == a + "." + b
    requires f == (b + "00")[..2]
    ensures AllDigits(f) && Parse(text) == Cents(Wrap64(Wrap64(NumberOf(a) * 100) + NumberOf(f)))
  {
    var s := Without(text, ',');
    TwoPlacesDigits(b);
    AmountEnds(a, b);
    assert Parse(text) == Unsigned(s) by { ParseSolid(text, s); }
    assert Unsigned(s) == Cents(Wrap64(Wrap64(NumberOf(a) * 100) + NumberOf(f))) by { UnsignedMeans(a, b, f); }
  }

  lemma PlainParses(w: nat, f: nat)
    requires w < HALF && f < 100
    ensures Parse(Thousands(Decimal(w)) + "." + TwoWide(f)) == Cents(Wrap64(Wrap64(w * 100) + f))
  {
    FormatWithoutCommas(w, f);
    DecimalReads(w);
    TwoWideReads(f);
    PartsParse(Decimal(w), TwoWide(f), Thousands(Decimal(w)) + "." + TwoWide(f));
  }

  lemma FormatPlain(cents: nat)
    requires cents < HALF
    ensures Format(cents, "") == Thousands(Decimal(cents / 100)) + "." + TwoWide(cents % 100)
  {
  }

  // Every 64-bit amount: formatting without a symbol and parsing gives the amount
  // back exactly when it is not negative, and negative amounts are refused.
  lemma ParseInvertsFormatIff(cents: int64)
    ensures Parse(Format(cents, "")) == Cents(cents) <==> cents >= 0
    ensures cents < 0 ==> !Parse(Format(cents, "")).Cents?
  {
    if cents < 0 {
      MinusRefused(Format(cents, ""));
    } else {
      FormatPlain(cents);
      PlainParses(cents / 100, cents % 100);
    }
  }

  // Whole amounts typed without a point are scaled by 100 in 64 bits: the result is
  // the amount meant exactly while that fits.
  lemma WholeAmountIff(w: nat)
    requires w < HALF
    ensures Parse(Decimal(w)) == Cents(w * 100) <==> w * 100 < HALF
  {
    var s := Decimal(w);
    DecimalReads(w);
    WithoutAbsent(s, ',');
    assert IsDigit(s[0]) && IsDigit(s[|s| - 1]);
    TrimSolid(s);
    NoPoint(s);
    assert s[..|s|] == s;
    ScanDigits(s);
    assert AllDigits("00") && NumberOf("00") == 0 by {
      assert "00"[..1] == "0" && "0"[..0] == "";
    }
    ScanDigits("00");
  }

  lemma {:induction false} NoPoint(s: string)
    requires AllDigits(s)
    ensures IndexOf(s, '.') == |s|
  {
    if s != "" {
      assert IsDigit(s[0]);
      NoPoint(s[1..]);
    }
  }
}
