/** Java's 32-bit two's-complement int arithmetic, written out over unbounded integers. */
module JavaInt {

  const Modulus: int := 0x1_0000_0000

  type Int32 = x: int | -0x8000_0000 <= x < 0x8000_0000

  /** The int that a Java computation wraps the exact value x to. */
  function Wrap(x: int): (r: Int32)
    ensures (r - x) % Modulus == 0
  {
    (x + 0x8000_0000) % Modulus - 0x8000_0000
  }

  /** Java's `a + b` on int. */
  function Add(a: Int32, b: Int32): Int32
  {
    Wrap(a + b)
  }

  /** Java's `a * b` on int. */
  function Mul(a: Int32, b: Int32): Int32
  {
    Wrap(a * b)
  }

  /** Two values congruent modulo 2^32 wrap to the same int. */
  lemma WrapCongruent(x: int, y: int)
    requires (x - y) % Modulus == 0
    ensures Wrap(x) == Wrap(y)
  {
    var k := (x - y) / Modulus;
    assert x == y + k * Modulus;
    assert (x + 0x8000_0000) % Modulus == (y + 0x8000_0000 + k * Modulus) % Modulus;
    ModuloShift(y + 0x8000_0000, k);
  }

  lemma {:induction false} ModuloShift(a: int, k: int)
    ensures (a + k * Modulus) % Modulus == a % Modulus
    decreases if k < 0 then -k else k
  {
    if k > 0 {
      ModuloShift(a, k - 1);
      assert a + k * Modulus == (a + (k - 1) * Modulus) + Modulus;
    } else if k < 0 {
      ModuloShift(a, k + 1);
      assert a + k * Modulus == (a + (k + 1) * Modulus) - Modulus;
    }
  }

  /** Wrapping an intermediate result does not change the final int: `a * b + c` wraps once. */
  lemma MulAddWrapsOnce(a: Int32, b: Int32, c: Int32)
    ensures Add(Mul(a, b), c) == Wrap(a * b + c)
  {
    var m := Mul(a, b);
    assert (m - a * b) % Modulus == 0;
    assert ((m + c) - (a * b + c)) == m - a * b;
    WrapCongruent(m + c, a * b + c);
  }
}
