// Fixed-width unsigned arithmetic as Go and C define it: every operation is
// taken modulo 2^32 or 2^64.
module Arith {
  const TWO_32: int := 0x1_0000_0000
  const TWO_64: int := 0x1_0000_0000_0000_0000

  type U8 = n: int | 0 <= n < 0x100
  type U32 = n: int | 0 <= n < 0x1_0000_0000
  type U64 = n: int | 0 <= n < 0x1_0000_0000_0000_0000

  function Wrap32(n: int): U32 {
    n % 0x1_0000_0000
  }

  function Wrap64(n: int): U64 {
    n % 0x1_0000_0000_0000_0000
  }

  function Mul32(a: U32, b: U32): U32 {
    Wrap32(a * b)
  }

  function Add64(a: U64, b: U64): U64 {
    Wrap64(a + b)
  }

  function Sub64(a: U64, b: U64): U64 {
    Wrap64(a - b)
  }

  function Mul64(a: U64, b: U64): U64 {
    Wrap64(a * b)
  }

  // Sums and differences of 64-bit numbers wrap once at most.
  lemma WrapsOnce(a: U64, b: U64)
    ensures Add64(a, b) == if a + b < 18446744073709551616 then a + b else a + b - 18446744073709551616
    ensures Sub64(a, b) == if b <= a then a - b else a - b + 18446744073709551616
  {
  }

  lemma Wrap32Shift(x: int, k: int)
    ensures Wrap32(x + k * 0x1_0000_0000) == Wrap32(x)
  {
  }

  lemma Wrap64Shift(x: int, k: int)
    ensures Wrap64(x + k * 0x1_0000_0000_0000_0000) == Wrap64(x)
  {
  }

  // Wrapping an operand early does not change a wrapped sum or difference.
  lemma Wrap64Add(a: int, b: int)
    ensures Wrap64(Wrap64(a) + b) == Wrap64(a + b)
  {
    Wrap64Shift(Wrap64(a) + b, a / 0x1_0000_0000_0000_0000);
  }

  lemma Wrap64Sub(a: int, b: int)
    ensures Wrap64(Wrap64(a) - Wrap64(b)) == Wrap64(a - b)
  {
    Wrap64Shift(Wrap64(a) - Wrap64(b), a / 0x1_0000_0000_0000_0000 - b / 0x1_0000_0000_0000_0000);
  }

  lemma Add64Wrap(a: int, b: U64)
    ensures Add64(Wrap64(a), b) == Wrap64(a + b)
  {
    Wrap64Add(a, b);
  }

  lemma Wrap32Mul(a: int, b: int)
    ensures Wrap32(Wrap32(a) * b) == Wrap32(a * b)
    ensures Wrap32(a * Wrap32(b)) == Wrap32(a * b)
  {
    var p, q := a / 0x1_0000_0000, b / 0x1_0000_0000;
    assert a * b == Wrap32(a) * b + (p * b) * 0x1_0000_0000;
    assert a * b == a * Wrap32(b) + (a * q) * 0x1_0000_0000;
    Wrap32Shift(Wrap32(a) * b, p * b);
    Wrap32Shift(a * Wrap32(b), a * q);
  }

  lemma Wrap64Mul(a: int, b: int)
    ensures Wrap64(Wrap64(a) * b) == Wrap64(a * b)
    ensures Wrap64(a * Wrap64(b)) == Wrap64(a * b)
  {
    var p, q := a / 0x1_0000_0000_0000_0000, b / 0x1_0000_0000_0000_0000;
    assert a * b == Wrap64(a) * b + (p * b) * 0x1_0000_0000_0000_0000;
    assert a * b == a * Wrap64(b) + (a * q) * 0x1_0000_0000_0000_0000;
    Wrap64Shift(Wrap64(a) * b, p * b);
    Wrap64Shift(a * Wrap64(b), a * q);
  }

  lemma Wrap32OfWrap64(a: int)
    ensures Wrap32(Wrap64(a)) == Wrap32(a)
  {
    Wrap32Shift(Wrap64(a), (a / 0x1_0000_0000_0000_0000) * 0x1_0000_0000);
  }
}
