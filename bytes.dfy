/** Fixed-width unsigned integers of the C code, and the byte fields of a
    32-bit word. Values are unbounded `int`s restricted to the width's range;
    every place where the C code would truncate writes the truncation out. */
module Bytes {

  /** `uint8_t` */
  type u8 = x: int | 0 <= x < 0x100

  /** `uint16_t` */
  type u16 = x: int | 0 <= x < 0x1_0000

  /** `int8_t` */
  type i8 = x: int | -0x80 <= x < 0x80

  /** `uint32_t` */
  type u32 = x: int | 0 <= x < 0x1_0000_0000

  /** Byte k of x, counting from the least significant: `(uint8_t)(x >> 8*k)`. */
  function ByteOf(x: u32, k: nat): u8
    requires k < 4
  {
    if k == 0 then x % 0x100
    else if k == 1 then (x / 0x100) % 0x100
    else if k == 2 then (x / 0x1_0000) % 0x100
    else x / 0x100_0000
  }

  /** Quotient and remainder of q * d + r, for a remainder below d. */
  lemma DivModOf(q: int, d: int, r: int)
    requires 0 <= r < d
    ensures (q * d + r) / d == q && (q * d + r) % d == r
  {
    var x := q * d + r;
    var q', r' := x / d, x % d;
    assert (q - q') * d == r' - r;
    if q' < q { MulLe(1, q - q', d); }
    if q' > q { MulLe(1, q' - q, d); }
  }

  /** The word whose bytes, most significant first, are b3, b2, b1, b0. */
  function Word(b3: u8, b2: u8, b1: u8, b0: u8): (x: u32)
    ensures ByteOf(x, 3) == b3 && ByteOf(x, 2) == b2 && ByteOf(x, 1) == b1 && ByteOf(x, 0) == b0
  {
    var x := b3 * 0x100_0000 + b2 * 0x1_0000 + b1 * 0x100 + b0;
    DivModOf(b3 * 0x1_0000 + b2 * 0x100 + b1, 0x100, b0);
    DivModOf(b3 * 0x100 + b2, 0x100, b1);
    DivModOf(b3 * 0x100 + b2, 0x1_0000, b1 * 0x100 + b0);
    DivModOf(b3, 0x100, b2);
    DivModOf(b3, 0x100_0000, b2 * 0x1_0000 + b1 * 0x100 + b0);
    x
  }

  /** Multiplying by a non-negative factor keeps an inequality. */
  lemma MulLe(a: int, b: int, c: int)
    requires a <= b && 0 <= c
    ensures a * c <= b * c
  {
    assert (b - a) * c >= 0;
  }

  /** A factor between 0 and m keeps a product between 0 and the product
      with m. */
  lemma MulBetween(i: int, m: int, r: int)
    requires 0 <= i <= m
    ensures r >= 0 ==> 0 <= i * r <= m * r
    ensures r < 0 ==> m * r <= i * r <= 0
  {
    if r >= 0 {
      MulLe(i, m, r);
      MulLe(0, i, r);
    } else {
      MulLe(i, m, -r);
      MulLe(0, i, -r);
    }
  }

  /** x * y as repeated addition. Unfolding it never produces a product of
      two unknowns, so proofs that only carry such products along stay in
      linear arithmetic; `ProductIsMul` ties it to `*`. */
  function Product(x: nat, y: nat): nat
    decreases y
  {
    if y == 0 then 0 else Product(x, y - 1) + x
  }

  lemma {:induction false} ProductIsMul(x: nat, y: nat)
    ensures Product(x, y) == x * y
    decreases y
  {
    if y > 0 {
      ProductIsMul(x, y - 1);
    }
  }

  /** a / d as repeated subtraction. Like `Product`, unfolding it stays in
      linear arithmetic; `QuotientIsDiv` ties it to `/`. */
  function Quotient(a: nat, d: nat): (q: nat)
    requires d > 0
    ensures q <= a
    decreases a
  {
    if a < d then 0 else Quotient(a - d, d) + 1
  }

  lemma {:induction false} QuotientIsDiv(a: nat, d: nat)
    requires d > 0
    ensures Quotient(a, d) == a / d
    decreases a
  {
    if a < d {
      DivModOf(0, d, a);
    } else {
      QuotientIsDiv(a - d, d);
      var q, r := (a - d) / d, (a - d) % d;
      assert a == (q + 1) * d + r;
      DivModOf(q + 1, d, r);
    }
  }

  /** Reducing modulo 2^16 commutes with addition. */
  lemma ModSum16(x: int, y: int)
    ensures (x % 0x1_0000 + y % 0x1_0000) % 0x1_0000 == (x + y) % 0x1_0000
  {
  }

  /** Every word is the word of its own four bytes. */
  lemma WordOfBytes(x: u32)
    ensures Word(ByteOf(x, 3), ByteOf(x, 2), ByteOf(x, 1), ByteOf(x, 0)) == x
  {
    var y, z := x / 0x100, x / 0x1_0000;
    assert x == y * 0x100 + x % 0x100;
    assert x == z * 0x1_0000 + x % 0x1_0000;
    DivModOf(z, 0x100, (x % 0x1_0000) / 0x100);
    assert y == z * 0x100 + y % 0x100;
    assert z == (x / 0x100_0000) * 0x100 + z % 0x100;
  }
}
