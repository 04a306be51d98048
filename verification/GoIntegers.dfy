/** The fixed-width integers of the original program and how they wrap. */
module GoIntegers {

  const TWO_63: int := 0x8000_0000_0000_0000
  const TWO_64: int := 0x1_0000_0000_0000_0000

  type byte = b: int | 0 <= b < 256
  type uint64 = u: int | 0 <= u < TWO_64
  type int64 = i: int | -TWO_63 <= i < TWO_63

  function Min(a: int, b: int): int { if a <= b then a else b }

  function Max(a: int, b: int): int { if a >= b then a else b }

  function Power(x: int, n: nat): int {
    if n == 0 then 1 else x * Power(x, n - 1)
  }

  /** The signed 64-bit result the processor keeps of a mathematical integer. */
  function Wrap(x: int): (w: int64)
    ensures -TWO_63 <= x < TWO_63 ==> w == x
  {
    (x + TWO_63) % TWO_64 - TWO_63
  }

  lemma WrapIsCongruent(x: int) returns (k: int)
    ensures Wrap(x) == x + k * TWO_64
  {
    k := -((x + TWO_63) / TWO_64);
  }

  lemma WrapShift(x: int, k: int)
    ensures Wrap(x + k * TWO_64) == Wrap(x)
  {
    var q, r := (x + TWO_63) / TWO_64, (x + TWO_63) % TWO_64;
    assert x + k * TWO_64 + TWO_63 == (q + k) * TWO_64 + r;
  }

  /** Wrapping the factors first does not change a wrapped product. */
  lemma WrapProduct(x: int, y: int)
    ensures Wrap(Wrap(x) * Wrap(y)) == Wrap(x * y)
  {
    var k := WrapIsCongruent(x);
    var l := WrapIsCongruent(y);
    var t := x * l + y * k + k * l * TWO_64;
    assert Wrap(x) * Wrap(y) == x * y + t * TWO_64 by {
      calc {
        (x + k * TWO_64) * (y + l * TWO_64);
        x * y + (x * l + k * y) * TWO_64 + (k * TWO_64) * (l * TWO_64);
      }
    }
    WrapShift(x * y, t);
  }
}
