// The bit stream of a payload: every bit three times on the way out, eight bits to
// a byte on the way in.

module WatermarkBits {
  import opened Radix
  import opened Watermarks

  // Bit i of the stream, the most significant bit of each byte first.
  function Bit(p: Octets, i: nat): bool
    requires i < 8 * |p|
  {
    Bits.Digits(p[i / 8], 8)[i % 8] == 1
  }

  // The first m bits, three times each.
  function Stream(p: Octets, m: nat): (bits: seq<bool>)
    requires m <= 8 * |p|
    ensures |bits| == 3 * m
  {
    seq(3 * m, j requires 0 <= j < 3 * m => Bit(p, j / 3))
  }

  function Tripled(p: Octets): seq<bool> {
    Stream(p, 8 * |p|)
  }

  lemma StreamStep(p: Octets, m: nat)
    requires m < 8 * |p|
    ensures Stream(p, m + 1) == Stream(p, m) + [Bit(p, m), Bit(p, m), Bit(p, m)]
  {
  }

  method PayloadBitsTripled(p: Octets) returns (bits: seq<bool>)
    ensures bits == Tripled(p)
  {
    bits := [];
    for n := 0 to |p|
      invariant bits == Stream(p, 8 * n)
    {
      var k := 8;
      while k > 0
        invariant 0 <= k <= 8 && bits == Stream(p, 8 * n + 8 - k)
      {
        k := k - 1;
        var on := Bits.Last(Bits.Shift(p[n], k)) == 1;
        DigitAt(Bits, p[n], 8, k);
        StreamStep(p, 8 * n + 7 - k);
        bits := bits + [on, on, on];
      }
    }
  }

  // ---- eight bits to a byte ----

  function Ones(bits: seq<bool>): (ds: seq<nat>)
    ensures |ds| == |bits| && Bits.AllDigits(ds)
  {
    seq(|bits|, i requires 0 <= i < |bits| => if bits[i] then 1 else 0)
  }

  function PackedByte(bits: seq<bool>): (b: nat)
    requires |bits| == 8
    ensures b < 256
  {
    ValueInRange(Bits, Ones(bits));
    ByteRange();
    Bits.Value(Ones(bits))
  }

  lemma ByteRange()
    ensures Bits.Range(8) == 256
  {
  }

  // Whole bytes only; a last partial byte is dropped.
  function Pack(bits: seq<bool>): (p: Octets)
    ensures |p| == |bits| / 8
  {
    seq(|bits| / 8, i requires 0 <= i < |bits| / 8 => PackedByte(bits[8 * i..8 * i + 8]))
  }

  lemma ByteIsPacked(bits: seq<bool>, b: Byte)
    requires |bits| == 8
    ensures PackedByte(bits) == b <==> forall k :: 0 <= k < 8 ==> bits[k] == (Bits.Digits(b, 8)[k] == 1)
  {
    var ones := Ones(bits);
    var ds := Bits.Digits(b, 8);
    ByteRange();
    ValueOfDigits(Bits, b, 8);
    DigitsOfValue(Bits, ones);
    if forall k :: 0 <= k < 8 ==> bits[k] == (ds[k] == 1) {
      assert ones == ds;
    }
    if PackedByte(bits) == b {
      assert ds == ones;
    }
  }

  function Octet(bits: seq<bool>, n: nat): seq<bool>
    requires 8 * n + 8 <= |bits|
  {
    bits[8 * n..8 * n + 8]
  }

  lemma PackedAlike(bits: seq<bool>, p: Octets, n: nat)
    requires |bits| == 8 * |p| && n < |p| && forall i :: 0 <= i < 8 * |p| ==> bits[i] == Bit(p, i)
    ensures PackedByte(Octet(bits, n)) == p[n]
  {
    forall k | 0 <= k < 8
      ensures Octet(bits, n)[k] == (Bits.Digits(p[n], 8)[k] == 1)
    {
      assert bits[8 * n + k] == Bit(p, 8 * n + k);
    }
    ByteIsPacked(Octet(bits, n), p[n]);
  }

  lemma UnpackedAlike(bits: seq<bool>, p: Octets, i: nat)
    requires |bits| == 8 * |p| && i < 8 * |p| && PackedByte(Octet(bits, i / 8)) == p[i / 8]
    ensures bits[i] == Bit(p, i)
  {
    ByteIsPacked(Octet(bits, i / 8), p[i / 8]);
    assert Octet(bits, i / 8)[i % 8] == bits[i];
  }

  // Packing gives back the payload exactly when every bit is the payload's.
  lemma PackIsPayload(bits: seq<bool>, p: Octets)
    requires |bits| == 8 * |p|
    ensures Pack(bits) == p <==> forall i :: 0 <= i < 8 * |p| ==> bits[i] == Bit(p, i)
  {
    if forall i :: 0 <= i < 8 * |p| ==> bits[i] == Bit(p, i) {
      forall n | 0 <= n < |p|
        ensures Pack(bits)[n] == p[n]
      {
        PackedAlike(bits, p, n);
      }
    }
    if Pack(bits) == p {
      forall i | 0 <= i < 8 * |p|
        ensures bits[i] == Bit(p, i)
      {
        assert Pack(bits)[i / 8] == p[i / 8];
        UnpackedAlike(bits, p, i);
      }
    }
  }

  // The accumulator of an extractor after these bits.
  ghost predicate Packing(bits: seq<bool>, raw: Octets, acc: nat, nbits: nat) {
    && nbits < 8 && |bits| == 8 * |raw| + nbits
    && raw == Pack(bits)
    && acc == Bits.Value(Ones(bits[8 * |raw|..])) < Bits.Range(nbits)
  }

  lemma OnesAppended(bits: seq<bool>, bit: bool)
    ensures Ones(bits + [bit]) == Ones(bits) + [if bit then 1 else 0]
    ensures Bits.Value(Ones(bits + [bit])) == 2 * Bits.Value(Ones(bits)) + if bit then 1 else 0
  {
  }

  lemma PackAppended(bits: seq<bool>, bit: bool)
    ensures var more := bits + [bit];
            Pack(more) == if |more| % 8 == 0 then Pack(bits) + [PackedByte(more[|more| - 8..])] else Pack(bits)
  {
    var more := bits + [bit];
    forall i | 0 <= i < |bits| / 8
      ensures Pack(more)[i] == Pack(bits)[i]
    {
      assert more[8 * i..8 * i + 8] == bits[8 * i..8 * i + 8];
    }
    if |more| % 8 == 0 {
      var n := |bits| / 8;
      assert more[8 * n..8 * n + 8] == more[|more| - 8..];
    }
  }

  lemma {:induction false} RangeUpTo(n: nat)
    requires n <= 8
    ensures Bits.Range(n) <= 256
    decreases 8 - n
  {
    if n < 8 {
      RangeUpTo(n + 1);
    } else {
      ByteRange();
    }
  }

  lemma PackingStep(bits: seq<bool>, raw: Octets, acc: nat, nbits: nat, bit: bool)
    requires Packing(bits, raw, acc, nbits)
    ensures var v := 2 * acc + if bit then 1 else 0;
            && v < 256
            && (if nbits == 7 then Packing(bits + [bit], raw + [v], 0, 0) else Packing(bits + [bit], raw, v, nbits + 1))
  {
    var more := bits + [bit];
    var tail := bits[8 * |raw|..];
    RangeUpTo(nbits + 1);
    assert more[8 * |raw|..] == tail + [bit];
    OnesAppended(tail, bit);
    PackAppended(bits, bit);
    if nbits == 7 {
      assert more[|more| - 8..] == tail + [bit];
      assert more[8 * (|raw| + 1)..] == [];
    }
  }

  // byteAcc = byteAcc<<1 | bit; a full byte moves to raw.
  method PushBit(raw: Octets, acc: nat, nbits: nat, bit: bool, ghost bits: seq<bool>) returns (raw1: Octets, acc1: nat, nbits1: nat)
    requires Packing(bits, raw, acc, nbits)
    ensures Packing(bits + [bit], raw1, acc1, nbits1)
  {
    PackingStep(bits, raw, acc, nbits, bit);
    acc1, nbits1, raw1 := (2 * acc + if bit then 1 else 0) % 256, nbits + 1, raw;
    if nbits1 == 8 {
      raw1, acc1, nbits1 := raw + [acc1], 0, 0;
    }
  }
}
