// Fixed-width positional notation, most significant digit first: the bits of a
// byte and the bytes of a 64-bit word.

module Radix {
  type Byte = b: int | 0 <= b < 256

  datatype Base = Bits | Bytes {
    function Size(): nat {
      if Bits? then 2 else 256
    }

    function Push(v: nat, d: nat): nat {
      if Bits? then 2 * v + d else 256 * v + d
    }

    // v with its last digit dropped, and that digit.
    function Drop(v: nat): nat {
      if Bits? then v / 2 else v / 256
    }

    function Last(v: nat): (d: nat)
      ensures d < Size()
    {
      if Bits? then v % 2 else v % 256
    }

    // How many numbers have n digits.
    function Range(n: nat): (p: nat)
      ensures p > 0
    {
      if n == 0 then 1 else Push(Range(n - 1), 0)
    }

    // v >> k, k digits at a time.
    function Shift(v: nat, k: nat): nat
      decreases k
    {
      if k == 0 then v else Shift(Drop(v), k - 1)
    }

    predicate AllDigits(ds: seq<nat>) {
      forall i :: 0 <= i < |ds| ==> ds[i] < Size()
    }

    function Digits(v: nat, n: nat): (ds: seq<nat>)
      ensures |ds| == n
      ensures AllDigits(ds)
    {
      if n == 0 then [] else Digits(Drop(v), n - 1) + [Last(v)]
    }

    function Value(ds: seq<nat>): nat {
      if ds == [] then 0 else Push(Value(ds[..|ds| - 1]), ds[|ds| - 1])
    }
  }

  lemma {:induction false} ValueInRange(base: Base, ds: seq<nat>)
    requires base.AllDigits(ds)
    ensures base.Value(ds) < base.Range(|ds|)
  {
    if ds != [] {
      ValueInRange(base, ds[..|ds| - 1]);
    }
  }

  // Writing a number that fits and reading it back.
  lemma {:induction false} ValueOfDigits(base: Base, v: nat, n: nat)
    requires v < base.Range(n)
    ensures base.Value(base.Digits(v, n)) == v
  {
    if n > 0 {
      ValueOfDigits(base, base.Drop(v), n - 1);
      assert base.Digits(v, n)[..n - 1] == base.Digits(base.Drop(v), n - 1);
    }
  }

  // Reading digits and writing them back.
  lemma {:induction false} DigitsOfValue(base: Base, ds: seq<nat>)
    requires base.AllDigits(ds)
    ensures base.Digits(base.Value(ds), |ds|) == ds
  {
    if ds != [] {
      var n := |ds| - 1;
      DigitsOfValue(base, ds[..n]);
      assert base.Drop(base.Value(ds)) == base.Value(ds[..n]);
    }
  }

  // The digit at weight k is what a shift by k and a mask leave.
  lemma {:induction false} DigitAt(base: Base, v: nat, n: nat, k: nat)
    requires k < n
    ensures base.Digits(v, n)[n - 1 - k] == base.Last(base.Shift(v, k))
  {
    if k > 0 {
      DigitAt(base, base.Drop(v), n - 1, k - 1);
    }
  }
}
