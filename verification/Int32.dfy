/** The target's 32-bit two's-complement words: `long`, `int` and `uint32_t` are all
    32 bits wide on the armv7 boards. */
module Int32 {

  /** Equal modulo 2^32. */
  predicate Same(x: int, y: int) {
    (x - y) % 0x1_0000_0000 == 0
  }

  /** The value a signed 32-bit word holds after `x` is stored in it. */
  function Wrap32(x: int): (r: int)
    ensures -0x8000_0000 <= r < 0x8000_0000
    ensures Same(r, x)
  {
    var u := x % 0x1_0000_0000;
    if u < 0x8000_0000 then u else u - 0x1_0000_0000
  }

  predicate Fits32(x: int) {
    -0x8000_0000 <= x < 0x8000_0000
  }

  type Long = x: int | -0x8000_0000 <= x < 0x8000_0000

  function Add32(a: int, b: int): Long {
    Wrap32(a + b)
  }

  function Sub32(a: int, b: int): Long {
    Wrap32(a - b)
  }

  function Neg32(a: int): Long {
    Wrap32(-a)
  }

  lemma WrapExact(x: int)
    ensures Wrap32(x) == x <==> Fits32(x)
  {
  }

  /** Only the residue modulo 2^32 matters. */
  lemma WrapCongruent(x: int, y: int)
    requires Same(x, y)
    ensures Wrap32(x) == Wrap32(y)
  {
  }

  lemma SameSum(a: int, b: int, c: int, d: int)
    requires Same(a, b) && Same(c, d)
    ensures Same(a + c, b + d) && Same(a - c, b - d)
  {
  }

  /** Words added or subtracted after a wrap end up as if nothing had wrapped before. */
  lemma WrapCancels(a: int, b: int)
    ensures Add32(Wrap32(a), Wrap32(b)) == Wrap32(a + b)
    ensures Sub32(Wrap32(a), Wrap32(b)) == Wrap32(a - b)
  {
    SameSum(Wrap32(a), a, Wrap32(b), b);
    WrapCongruent(Wrap32(a) + Wrap32(b), a + b);
    WrapCongruent(Wrap32(a) - Wrap32(b), a - b);
  }
}
