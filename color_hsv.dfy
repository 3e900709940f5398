/** The colour arithmetic of the strip class: the integer HSV hexcone behind
    `ColorHSV`, `gamma32`, and the hue schedule of `rainbow`. All of it is
    pure; `gamma32`'s byte loop is the method `ApplyGamma32`. */
module ColorHsv {
  import opened Bytes
  import opened ColorTables

  /** `(hue * 1530L + 32768) / 65536`: the 16-bit hue rounded to the nearest of
      1530 hexcone steps. The half-step offset centres pure red on the
      rollover, so the top few hues give step 1530, which means red again. */
  function HueStep(hue: u16): (h: nat)
    ensures h <= 1530
    ensures -0x8000 < h * 0x1_0000 - hue * 1530 <= 0x8000
  {
    (hue * 1530 + 0x8000) / 0x1_0000
  }

  /** The unsaturated colour at hexcone step h, as the source's nested tests
      compute it. Each 255-step segment holds one channel at 255, one at 0
      and ramps the third; step 1530 is red, like step 0. */
  function Hexcone(h: nat): (c: Rgb)
    requires h <= 1530
    ensures c.r == 255 || c.g == 255 || c.b == 255
    ensures c.r == 0 || c.g == 0 || c.b == 0
  {
    if h < 510 then
      if h < 255 then Rgb(255, h, 0) else Rgb(510 - h, 255, 0)
    else if h < 1020 then
      if h < 765 then Rgb(0, 255, h - 510) else Rgb(0, 1020 - h, 255)
    else if h < 1530 then
      if h < 1275 then Rgb(h - 1020, 0, 255) else Rgb(255, 0, 1530 - h)
    else
      Rgb(255, 0, 0)
  }

  /** Reference definition of the hexcone by division: segment h / 255 names
      the channel that rises or falls, h % 255 how far it has gone. */
  function HexconeBySegment(h: nat): Rgb
    requires h <= 1530
  {
    var t := h % 255;
    match h / 255
    case 0 => Rgb(255, t, 0)
    case 1 => Rgb(255 - t, 255, 0)
    case 2 => Rgb(0, 255, t)
    case 3 => Rgb(0, 255 - t, 255)
    case 4 => Rgb(t, 0, 255)
    case 5 => Rgb(255, 0, 255 - t)
    case _ => Rgb(255, 0, 0)
  }

  /** The nested tests compute the divide-and-switch hexcone. */
  lemma HexconeMatchesSegments(h: nat)
    requires h <= 1530
    ensures Hexcone(h) == HexconeBySegment(h)
  {
    var s, t := h / 255, h % 255;
    assert h == 255 * s + t && 0 <= t < 255;
    assert s <= 6;
  }

  /** Neighbouring colours differ by at most one in every channel. */
  predicate Adjacent(a: Rgb, b: Rgb) {
    -1 <= a.r - b.r <= 1 && -1 <= a.g - b.g <= 1 && -1 <= a.b - b.b <= 1
  }

  /** The wheel has no jumps: consecutive steps, and the wrap from 1530 back
      to 0, change each channel by at most one. */
  lemma HexconeIsContinuous(h: nat)
    requires h < 1530
    ensures Adjacent(Hexcone(h), Hexcone(h + 1))
    ensures Hexcone(1530) == Hexcone(0)
  {
  }

  /** Steps 0 to 1529 are 1530 distinct colours. */
  lemma HexconeIsInjective(h1: nat, h2: nat)
    requires h1 < 1530 && h2 < 1530 && h1 != h2
    ensures Hexcone(h1) != Hexcone(h2)
  {
  }

  /** x * (v + 1) >> 8 never exceeds v when x is a byte. */
  lemma ScaledByteBound(x: u8, v: u8)
    ensures 0 <= x * (v + 1) < 0x1_0000
    ensures x * (v + 1) / 0x100 <= v
  {
    MulLe(x, 255, v + 1);
    MulLe(0, x, v + 1);
  }

  /** The 16-bit intermediate of one channel, as the source computes it:
      `(((c * s1) >> 8) + s2) * v1` with `s1 = 1 + sat`, `s2 = 255 - sat`,
      `v1 = 1 + val`. Its high byte is the channel's result. The products are
      written with `Product`, so that unfolding a colour stays linear. */
  function SatValProduct(c: u8, sat: u8, val: u8): (t: nat)
    ensures t < 0x1_0000 && t / 0x100 <= val
  {
    ScaledByteBound(c, sat);
    ProductIsMul(c, 1 + sat);
    var y: u8 := Product(c, 1 + sat) / 0x100 + (255 - sat);
    ScaledByteBound(y, val);
    ProductIsMul(y, 1 + val);
    Product(y, 1 + val)
  }

  /** The two ends of the saturation scale: none gives 255 * (val + 1), whose
      high byte is val; full saturation and value give c * 256. */
  lemma SatValEnds(c: u8, sat: u8, val: u8)
    ensures sat == 0 ==> SatValProduct(c, sat, val) / 0x100 == val
    ensures sat == 255 && val == 255 ==> SatValProduct(c, sat, val) / 0x100 == c
  {
    ProductIsMul(c, 1 + sat);
    var y := Product(c, 1 + sat) / 0x100 + (255 - sat);
    ProductIsMul(y, 1 + val);
    if sat == 0 {
      assert y == 255;
      DivModOf(val, 0x100, 255 - val);
    } else if sat == 255 && val == 255 {
      DivModOf(c, 0x100, 0);
      assert y == c;
      DivModOf(c, 0x100, 0);
    }
  }

  /** Saturation and value applied to one channel. Full saturation and value
      keep the channel; zero saturation replaces it by the value, so the hue
      washes out to grey. */
  function ApplySatVal(c: u8, sat: u8, val: u8): (x: u8)
    ensures x <= val
    ensures sat == 0 ==> x == val
    ensures sat == 255 && val == 255 ==> x == c
  {
    SatValEnds(c, sat, val);
    SatValProduct(c, sat, val) / 0x100
  }

  /** `ColorHSV(hue, sat, val)`, with the source's masks and shifts written
      as arithmetic: the hexcone colour with saturation and value applied to
      each channel, packed as 0x00RRGGBB. */
  function ColorHsv(hue: u16, sat: u8, val: u8): (c: u32)
    ensures c == Color(ApplySatVal(Hexcone(HueStep(hue)).r, sat, val),
                       ApplySatVal(Hexcone(HueStep(hue)).g, sat, val),
                       ApplySatVal(Hexcone(HueStep(hue)).b, sat, val))
  {
    var rgb := Hexcone(HueStep(hue));
    var tr := SatValProduct(rgb.r, sat, val);
    var tg := SatValProduct(rgb.g, sat, val);
    var tb := SatValProduct(rgb.b, sat, val);
    PackHighBytes(tr, tg, tb);
    ((tr / 0x100) % 0x100) * 0x1_0000 + ((tg / 0x100) % 0x100) * 0x100 + tb / 0x100
  }

  /** Masking each product's high byte into place packs the three high bytes. */
  lemma PackHighBytes(tr: nat, tg: nat, tb: nat)
    requires tr < 0x1_0000 && tg < 0x1_0000 && tb < 0x1_0000
    ensures ((tr / 0x100) % 0x100) * 0x1_0000 + ((tg / 0x100) % 0x100) * 0x100 + tb / 0x100
            == Color(tr / 0x100, tg / 0x100, tb / 0x100)
  {
  }

  /** No channel of the result exceeds the requested value. */
  lemma ColorHsvBoundedByValue(hue: u16, sat: u8, val: u8)
    ensures ColorHsv(hue, sat, val) < 0x100_0000
    ensures Red(ColorHsv(hue, sat, val)) <= val
    ensures Green(ColorHsv(hue, sat, val)) <= val
    ensures Blue(ColorHsv(hue, sat, val)) <= val
  {
  }

  /** Zero saturation gives the grey of the requested value, whatever the hue. */
  lemma ColorHsvGrey(hue: u16, val: u8)
    ensures ColorHsv(hue, 0, val) == Color(val, val, val)
  {
    var rgb := Hexcone(HueStep(hue));
    assert ApplySatVal(rgb.r, 0, val) == val;
    assert ApplySatVal(rgb.g, 0, val) == val;
    assert ApplySatVal(rgb.b, 0, val) == val;
  }

  /** Zero value gives black, whatever the hue and saturation. */
  lemma ColorHsvBlack(hue: u16, sat: u8)
    ensures ColorHsv(hue, sat, 0) == 0
  {
    var rgb := Hexcone(HueStep(hue));
    assert ApplySatVal(rgb.r, sat, 0) == 0;
    assert ApplySatVal(rgb.g, sat, 0) == 0;
    assert ApplySatVal(rgb.b, sat, 0) == 0;
    assert Color(0, 0, 0) == 0;
  }

  /** At full saturation and value the result is the hexcone colour itself. */
  lemma ColorHsvPureHue(hue: u16)
    ensures var rgb := Hexcone(HueStep(hue)); ColorHsv(hue, 255, 255) == Color(rgb.r, rgb.g, rgb.b)
  {
  }

  /** Red sits on the rollover, green a third and blue two thirds of the way
      round the wheel. */
  lemma ColorHsvPrimaries()
    ensures ColorHsv(0, 255, 255) == 0xFF0000
    ensures ColorHsv(0xFFFF, 255, 255) == 0xFF0000
    ensures ColorHsv(21845, 255, 255) == 0x00FF00
    ensures ColorHsv(43690, 255, 255) == 0x0000FF
  {
    assert HueStep(0) == 0 && HueStep(0xFFFF) == 1530;
    assert HueStep(21845) == 510 && HueStep(43690) == 1020;
    ColorHsvPureHue(0);
    ColorHsvPureHue(0xFFFF);
    ColorHsvPureHue(21845);
    ColorHsvPureHue(43690);
  }

  /** Either side of the rollover gives the same colour. */
  lemma ColorHsvRollover(sat: u8, val: u8)
    ensures ColorHsv(0xFFFF, sat, val) == ColorHsv(0, sat, val)
  {
    assert HueStep(0) == 0 && HueStep(0xFFFF) == 1530;
  }

  // ---------------------------------------------------------------------------
  // gamma32

  /** `gamma32(x)`: `gamma8` applied to each of the four bytes of x. */
  function Gamma32(x: u32): (y: u32)
    ensures forall k :: 0 <= k < 4 ==> ByteOf(y, k) == Gamma8(ByteOf(x, k))
  {
    Word(Gamma8(ByteOf(x, 3)), Gamma8(ByteOf(x, 2)), Gamma8(ByteOf(x, 1)), Gamma8(ByteOf(x, 0)))
  }

  /** The source's loop over the four bytes of a local copy of x. The bytes are
      taken least significant first, as in memory on a little-endian target;
      since every byte is mapped, the order does not change the result. */
  method ApplyGamma32(x: u32) returns (r: u32)
    ensures r == Gamma32(x)
  {
    var y := [ByteOf(x, 0), ByteOf(x, 1), ByteOf(x, 2), ByteOf(x, 3)];
    for i := 0 to 4
      invariant |y| == 4
      invariant forall k :: 0 <= k < i ==> y[k] == Gamma8(ByteOf(x, k))
      invariant forall k :: i <= k < 4 ==> y[k] == ByteOf(x, k)
    {
      y := y[i := Gamma8(y[i])];
    }
    r := Word(y[3], y[2], y[1], y[0]);
  }

  /** On a packed colour, `gamma32` corrects each channel and keeps the unused
      top byte at zero. */
  lemma Gamma32OfColor(r: u8, g: u8, b: u8)
    ensures Gamma32(Color(r, g, b)) == Color(Gamma8(r), Gamma8(g), Gamma8(b))
  {
    Gamma8Monotone(0, 0);
    var c := Color(r, g, b);
    assert ByteOf(c, 3) == 0;
  }

  // ---------------------------------------------------------------------------
  // rainbow

  /** C's `/` on `int`, which truncates toward zero: the quotient of the
      magnitudes, with the sign of a. */
  function TruncDiv(a: int, d: nat): (q: int)
    requires d > 0
    ensures a >= 0 ==> 0 <= q <= a
    ensures a <= 0 ==> a <= q <= 0
  {
    if a >= 0 then Quotient(a, d) else -(Quotient(-a, d) as int)
  }

  /** For a non-negative dividend, truncating and Euclidean division agree;
      for a negative one, truncation rounds up where `/` rounds down. */
  lemma TruncDivMatchesDiv(a: int, d: nat)
    requires d > 0
    ensures a >= 0 ==> TruncDiv(a, d) == a / d
    ensures a < 0 ==> TruncDiv(a, d) == -((-a) / d)
  {
    if a >= 0 {
      QuotientIsDiv(a, d);
    } else {
      QuotientIsDiv(-a, d);
    }
  }

  /** Truncating division is odd in its dividend (Euclidean division is not). */
  lemma TruncDivIsOdd(a: int, d: nat)
    requires d > 0
    ensures TruncDiv(-a, d) == -TruncDiv(a, d)
  {
  }

  /** `i * reps` for a signed factor, as a sum (see `Product`). */
  function SignedProduct(i: nat, reps: int): int {
    if reps >= 0 then Product(i, reps) as int else -(Product(i, -reps) as int)
  }

  lemma SignedProductIsMul(i: nat, reps: int)
    ensures SignedProduct(i, reps) == i * reps
  {
    if reps >= 0 {
      ProductIsMul(i, reps);
    } else {
      ProductIsMul(i, -reps);
    }
  }

  /** The hue `rainbow` gives pixel i of n: `first_hue + (i * reps * 65536) / n`,
      stored into a `uint16_t`. */
  function RainbowHue(firstHue: u16, reps: int, i: nat, n: nat): u16
    requires i < n
  {
    (firstHue + TruncDiv(SignedProduct(i, reps) * 0x1_0000, n)) % 0x1_0000
  }

  /** The colour `rainbow` gives a hue: `ColorHSV(hue, sat, val)`, passed
      through `gamma32` when gammify is set. */
  function HueColor(sat: u8, val: u8, gammify: bool): u16 -> u32 {
    (hue: u16) => if gammify then Gamma32(ColorHsv(hue, sat, val)) else ColorHsv(hue, sat, val)
  }

  /** With gammify, each channel of the wheel colour is gamma-corrected on its
      own; either way the colour is a packed 0x00RRGGBB value. */
  lemma HueColorChannels(sat: u8, val: u8, gammify: bool, hue: u16)
    ensures var c := ColorHsv(hue, sat, val);
      HueColor(sat, val, gammify)(hue)
        == if gammify then Color(Gamma8(Red(c)), Gamma8(Green(c)), Gamma8(Blue(c))) else c
    ensures HueColor(sat, val, gammify)(hue) < 0x100_0000
  {
    var c := ColorHsv(hue, sat, val);
    ColorOfChannels(c);
    Gamma32OfColor(Red(c), Green(c), Blue(c));
  }


  /** The first pixel gets the first hue, and negating `reps` mirrors every
      hue about it, which reverses the direction of the rainbow. */
  lemma RainbowHueSymmetry(firstHue: u16, reps: int, i: nat, n: nat)
    requires i < n
    ensures RainbowHue(firstHue, reps, 0, n) == firstHue
    ensures (RainbowHue(firstHue, reps, i, n) + RainbowHue(firstHue, -reps, i, n)) % 0x1_0000
            == (2 * firstHue) % 0x1_0000
  {
    var a := SignedProduct(i, reps) * 0x1_0000;
    assert SignedProduct(i, -reps) * 0x1_0000 == -a by {
      if reps == 0 {
        assert Product(i, 0) == 0;
      }
    }
    TruncDivIsOdd(a, n);
    var d := TruncDiv(a, n);
    ModSum16(firstHue + d, firstHue - d);
    SignedProductIsMul(0, reps);
    assert TruncDiv(0, n) == 0;
  }
}
