// 64-bit signed arithmetic: wrap-around, and division that truncates towards zero.

module Int64 {
  const HALF := 0x8000_0000_0000_0000
  const WHOLE := 0x1_0000_0000_0000_0000

  type int64 = v: int | -HALF <= v < HALF

  predicate Fits(v: int) {
    -HALF <= v < HALF
  }

  function Wrap64(v: int): (r: int64)
    ensures Fits(v) <==> r == v
  {
    (v + HALF) % WHOLE - HALF
  }

  function Quot(a: int, b: int): int
    requires b > 0
  {
    if a >= 0 then a / b else -(-a / b)
  }

  function Rem(a: int, b: int): int
    requires b > 0
  {
    a - Quot(a, b) * b
  }

  lemma SmallMultiple(k: int, c: int)
    requires -c < k * c < c
    ensures k == 0
  {
  }

  lemma ProductMonotone(a: int, b: int, c: nat)
    requires a <= b
    ensures a * c <= b * c
  {
  }
}
