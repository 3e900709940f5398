/** The strip object: the pixel buffer it owns, its colour order, its
    brightness setting, and the operations that change them in place, with
    `show` writing the APA102 frame to the SPI device. */
module DotStarStrip {
  import opened Bytes
  import opened ColorTables
  import opened ColorHsv
  import opened PixelFrame

  /** The SPI device, reduced to the bytes it has been handed in order. */
  class Transport {
    var sent: seq<u8>

    constructor()
      ensures sent == []
    {
      sent := [];
    }

    /** `transfer`: one byte out on the wire. */
    method Transfer(b: u8)
      modifies this
      ensures sent == old(sent) + [b]
    {
      sent := sent + [b];
    }
  }

  /** One pixel of the scaled loop of `show`: 0xFF, then each of the three
      bytes at a[ptr..] multiplied by b16 and shifted right by 8. */
  method SendScaledPixel(out: Transport, a: array<u8>, ptr: nat, b16: u16)
    requires ptr + 3 <= a.Length && 1 <= b16 < 0x100
    modifies out
    ensures out.sent == old(out.sent) + [0xFF] + OutBytes(a[ptr..ptr + 3], b16 as u8)
  {
    ghost var pixelBase := out.sent;
    out.Transfer(0xFF);
    var i := 0;
    while i < 3
      invariant i <= 3
      invariant out.sent == pixelBase + [0xFF] + OutBytes(a[ptr..ptr + i], b16 as u8)
    {
      OutBytesSnoc(a[..], b16 as u8, ptr, ptr + i);
      assert a[ptr..ptr + i + 1] == a[..][ptr..ptr + i + 1] && a[ptr..ptr + i] == a[..][ptr..ptr + i];
      out.Transfer(ScaleByte(a[ptr + i], b16));
      i := i + 1;
    }
  }

  /** One pixel of the full-brightness loop of `show`: 0xFF, then the three
      bytes at a[ptr..] unchanged. */
  method SendRawPixel(out: Transport, a: array<u8>, ptr: nat)
    requires ptr + 3 <= a.Length
    modifies out
    ensures out.sent == old(out.sent) + [0xFF] + OutBytes(a[ptr..ptr + 3], 0)
  {
    ghost var pixelBase := out.sent;
    out.Transfer(0xFF);
    var i := 0;
    while i < 3
      invariant i <= 3
      invariant out.sent == pixelBase + [0xFF] + OutBytes(a[ptr..ptr + i], 0)
    {
      OutBytesSnoc(a[..], 0, ptr, ptr + i);
      assert a[ptr..ptr + i + 1] == a[..][ptr..ptr + i + 1] && a[ptr..ptr + i] == a[..][ptr..ptr + i];
      out.Transfer(a[ptr + i]);
      i := i + 1;
    }
  }

  /** The values f(k), f(k + 1), ..., f(n - 1). Built by recursion, so that a
      proof about one entry unfolds that entry only (`TabulateAt`). */
  function Tabulate(f: nat -> u32, k: nat, n: nat): (s: seq<u32>)
    requires k <= n
    ensures |s| == n - k
    decreases n - k
  {
    if k == n then [] else [f(k)] + Tabulate(f, k + 1, n)
  }

  /** Entry i - k of the list is f(i). */
  lemma {:induction false} TabulateAt(f: nat -> u32, k: nat, n: nat, i: nat)
    requires k <= i < n
    ensures Tabulate(f, k, n)[i - k] == f(i)
    decreases n - k
  {
    if k < i {
      TabulateAt(f, k + 1, n, i);
    }
  }

  /** Pixel i's colour on the wheel, for the pixels of a strip of n: the
      colour of its hue. */
  function RainbowWheel(firstHue: u16, reps: i8, n: nat, color: u16 -> u32): nat -> u32 {
    (i: nat) => (if i < n then color(RainbowHue(firstHue, reps, i, n)) else 0) as u32
  }

  /** The colours `rainbow` gives pixels 0 .. n - 1, for a given colour of
      each hue. */
  function RainbowColors(firstHue: u16, reps: i8, n: nat, color: u16 -> u32): (cs: seq<u32>)
    ensures |cs| == n
  {
    Tabulate(RainbowWheel(firstHue, reps, n, color), 0, n)
  }

  /** Entry i of `RainbowColors` is the colour of pixel i's hue. */
  lemma RainbowColorsAt(firstHue: u16, reps: i8, n: nat, color: u16 -> u32, i: nat)
    requires i < n
    ensures RainbowColors(firstHue, reps, n, color)[i] == color(RainbowHue(firstHue, reps, i, n))
  {
    TabulateAt(RainbowWheel(firstHue, reps, n, color), 0, n, i);
  }

  /** The first line of `rainbow`'s loop: `first_hue + (i * reps * 65536) / n`
      in C's `int`, stored into a `uint16_t`. */
  method WheelHue(firstHue: u16, reps: i8, i: u16, n: u16) returns (hue: u16)
    requires i < n && -0x8000 <= (n - 1) * reps < 0x8000
    ensures -0x8000_0000 <= i * reps * 0x1_0000 < 0x8000_0000
    ensures hue == RainbowHue(firstHue, reps, i, n)
  {
    MulBetween(i, n - 1, reps);
    assert -0x8000 <= i * reps < 0x8000;
    hue := (firstHue + TruncDiv(i * reps * 0x1_0000, n)) % 0x1_0000;
    SignedProductIsMul(i, reps);
    assert i * reps * 0x1_0000 == SignedProduct(i, reps) * 0x1_0000;
  }

  /** The body of `rainbow`'s loop up to `setPixelColor`: the hue of pixel i
      of n, its colour on the wheel, and that colour gamma-corrected when
      asked. */
  method WheelColor(firstHue: u16, reps: i8, sat: u8, val: u8, gammify: bool, i: u16, n: u16) returns (color: u32)
    requires i < n && -0x8000 <= (n - 1) * reps < 0x8000
    ensures color == RainbowColors(firstHue, reps, n, HueColor(sat, val, gammify))[i]
  {
    var hue := WheelHue(firstHue, reps, i, n);
    RainbowColorsAt(firstHue, reps, n, HueColor(sat, val, gammify), i);
    color := ColorHsv.ColorHsv(hue, sat, val);
    if gammify {
      color := ApplyGamma32(color);
    }
  }

  class DotStar {
    /** Number of pixels. */
    var numLEDs: u16
    /** Stored brightness: the set value plus one, modulo 256. */
    var brightness: u8
    /** Three bytes per pixel; null after a failed allocation. */
    var pixels: array?<u8>
    /** Slot of red, green and blue within a pixel's three bytes. */
    const rOffset: u8
    const gOffset: u8
    const bOffset: u8
    const spiDev: Transport

    function Order(): Offsets {
      Offsets(rOffset, gOffset, bOffset)
    }

    /** The buffer's bytes; empty when there is no buffer. */
    ghost function Pixels(): seq<u8>
      reads this, pixels
    {
      if pixels == null then [] else pixels[..]
    }

    /** The offsets are a permutation of the three slots, the buffer holds
      three bytes per pixel (its size fits the `uint16_t` byte count), and
      a missing buffer means an empty strip. */
    ghost predicate Valid()
      reads this, pixels
    {
      IsPermutation(Order()) &&
      numLEDs <= 21845 &&
      (pixels == null ==> numLEDs == 0) &&
      (pixels != null ==> pixels.Length == 3 * numLEDs)
    }

    /** Both constructors: the colour order decoded into offsets, brightness
      stored as 0 (full), then `updateLength(n)`. Whether `malloc` succeeds
      is the parameter allocOk. */
    constructor(n: u16, o: u8, allocOk: bool)
      requires IsColorOrder(o) && n <= 21845
      ensures Valid() && Order() == DecodeOrder(o) && brightness == 0
      ensures allocOk ==> numLEDs == n && fresh(pixels) && Pixels() == seq(3 * n, _ => 0)
      ensures !allocOk ==> pixels == null && numLEDs == 0
      ensures fresh(spiDev) && spiDev.sent == []
    {
      numLEDs := n;
      brightness := 0;
      pixels := null;
      rOffset := o % 4;
      gOffset := (o / 4) % 4;
      bOffset := (o / 16) % 4;
      spiDev := new Transport();
      new;
      ColorOrdersArePermutations(o);
      UpdateLength(n, allocOk);
    }

    /** `updateLength`: a new buffer of 3n bytes, all zero, or no buffer and
      no pixels when the allocation fails. The byte count is the colour
      branch of the source's expression; the mono branch is unreachable
      for the six colour orders. */
    method UpdateLength(n: u16, allocOk: bool)
      requires IsPermutation(Order()) && n <= 21845
      modifies this
      ensures Valid() && brightness == old(brightness)
      ensures allocOk ==> numLEDs == n && fresh(pixels) && Pixels() == seq(3 * n, _ => 0)
      ensures !allocOk ==> pixels == null && numLEDs == 0
    {
      var bytes: u16 := n * 3;
      if allocOk {
        pixels := new u8[bytes];
        numLEDs := n;
        Clear();
      } else {
        pixels := null;
        numLEDs := 0;
      }
    }

    /** `clear`: every byte of the buffer set to 0, so every pixel reads
      black. */
    method Clear()
      requires Valid()
      modifies pixels
      ensures Valid() && Pixels() == seq(3 * numLEDs, _ => 0)
      ensures forall n: u16 :: n < numLEDs ==> GetPixelColor(n) == 0
    {
      var i := 0;
      while i < 3 * numLEDs
        invariant i <= 3 * numLEDs
        invariant pixels != null ==> forall k :: 0 <= k < i ==> pixels[k] == 0
      {
        pixels[i] := 0;
        i := i + 1;
      }
    }

    /** `setPixelColor(n, r, g, b)`: inside the strip, the three bytes of
      pixel n take r, g and b in the strip's colour order and nothing else
      changes; outside the strip, nothing changes. */
    method SetPixelRgb(n: u16, r: u8, g: u8, b: u8)
      requires Valid()
      modifies pixels
      ensures Valid()
      ensures n < numLEDs ==> Pixels() == PaintPixel(old(Pixels()), Order(), n, Rgb(r, g, b))
      ensures n >= numLEDs ==> Pixels() == old(Pixels())
      ensures n < numLEDs ==> GetPixelColor(n) == Color(r, g, b)
    {
      if n < numLEDs {
        var p := n * 3;
        pixels[p + rOffset] := r;
        pixels[p + gOffset] := g;
        pixels[p + bOffset] := b;
        PaintPixelInside(old(Pixels()), Order(), n, Rgb(r, g, b));
      }
    }

    /** `setPixelColor(n, c)`: as above with the channels taken from the
      packed colour; reading the pixel back gives c without its top byte. */
    method SetPixelColor(n: u16, c: u32)
      requires Valid()
      modifies pixels
      ensures Valid()
      ensures n < numLEDs ==> Pixels() == PaintPixel(old(Pixels()), Order(), n, Channels(c))
      ensures n >= numLEDs ==> Pixels() == old(Pixels())
      ensures n < numLEDs ==> GetPixelColor(n) == c % 0x100_0000
    {
      if n < numLEDs {
        var p := n * 3;
        pixels[p + rOffset] := Red(c);
        pixels[p + gOffset] := Green(c);
        pixels[p + bOffset] := Blue(c);
        PaintThenRead(old(Pixels()), Order(), n, c);
      }
    }

    /** `getPixelColor`: the packed colour of pixel n, 0 past the end. */
    function GetPixelColor(n: u16): (c: u32)
      reads this, pixels
      requires Valid()
      ensures n >= numLEDs ==> c == 0
      ensures n < numLEDs ==> c == PixelColor(Pixels(), Order(), n)
    {
      if n >= numLEDs then 0 else PixelColor(pixels[..], Order(), n)
    }

    /** `numPixels`: the pixel count, which is the buffer's length over 3. */
    function NumPixels(): (n: u16)
      reads this, pixels
      requires Valid()
      ensures 3 * n == |Pixels()|
    {
      numLEDs
    }

    /** `fill`: with first inside the strip, the pixels from first up to
      `FillEnd` painted with c in index order; nothing otherwise. */
    method Fill(c: u32, first: u16, count: u16)
      requires Valid()
      modifies pixels
      ensures Valid()
      ensures first >= numLEDs ==> Pixels() == old(Pixels())
      ensures first < numLEDs ==>
        var cs := FillColors(c, first, count, numLEDs);
        Pixels() == PaintPrefix(old(Pixels()), Order(), first, cs, |cs|)
    {
      if first >= numLEDs {
        return;
      }
      var end: u16 := if count == 0 then numLEDs else (first + count) % 0x1_0000;
      if count != 0 && end > numLEDs {
        end := numLEDs;
      }
      assert end == FillEnd(first, count, numLEDs);
      ghost var cs := FillColors(c, first, count, numLEDs);
      var i := first;
      ghost var k := 0;
      while i < end
        invariant Valid()
        invariant i == first + k && k <= |cs| && (first < end ==> i <= end)
        invariant Pixels() == PaintPrefix(old(Pixels()), Order(), first, cs, k)
      {
        PaintPrefixNext(old(Pixels()), Order(), first, cs, k, i, c);
        SetPixelColor(i, c);
        i := i + 1;
        k := k + 1;
      }
      assert k == |cs|;
    }

    /** `rainbow`: pixel i of n set to the colour wheel at
      firstHue + i * reps * 65536 / n (C division, modulo 2^16), at the
      given saturation and value, gamma-corrected when asked. The source
      computes i * reps * 65536 in `int`, so |i * reps| stays below 2^15. */
    method Rainbow(firstHue: u16, reps: i8, sat: u8, val: u8, gammify: bool)
      requires Valid()
      requires numLEDs > 0 ==> -0x8000 <= (numLEDs - 1) * reps < 0x8000
      modifies pixels
      ensures Valid()
      ensures Pixels() == PaintPrefix(old(Pixels()), Order(), 0, RainbowColors(firstHue, reps, numLEDs, HueColor(sat, val, gammify)), numLEDs)
    {
      var n := numLEDs;
      ghost var cs := RainbowColors(firstHue, reps, n, HueColor(sat, val, gammify));
      var i: u16 := 0;
      while i < n
        invariant Valid() && numLEDs == n && i <= n
        invariant Pixels() == PaintPrefix(old(Pixels()), Order(), 0, cs, i)
      {
        RainbowPixel(firstHue, reps, sat, val, gammify, i, old(Pixels()), cs);
        i := i + 1;
      }
    }

    /** One pass of `rainbow`'s loop: pixel i of the strip takes its wheel
      colour, extending the painted prefix by one pixel. */
    method RainbowPixel(firstHue: u16, reps: i8, sat: u8, val: u8, gammify: bool, i: u16,
                        ghost base: seq<u8>, ghost cs: seq<u32>)
      requires Valid() && i < numLEDs && -0x8000 <= (numLEDs - 1) * reps < 0x8000
      requires |base| == 3 * numLEDs && cs == RainbowColors(firstHue, reps, numLEDs, HueColor(sat, val, gammify))
      requires Pixels() == PaintPrefix(base, Order(), 0, cs, i)
      modifies pixels
      ensures Valid() && numLEDs == old(numLEDs)
      ensures Pixels() == PaintPrefix(base, Order(), 0, cs, i + 1)
    {
      var color := WheelColor(firstHue, reps, sat, val, gammify, i, numLEDs);
      PaintPrefixNext(base, Order(), 0, cs, i, i, color);
      SetPixelColor(i, color);
    }

    /** `setBrightness`: the stored value is b + 1 on `uint8_t`; the pixels
      are not touched. */
    method SetBrightness(b: u8)
      modifies this
      ensures brightness == EncodeBrightness(b) && GetBrightness() == b
      ensures numLEDs == old(numLEDs) && pixels == old(pixels)
    {
      brightness := (b + 1) % 0x100;
    }

    /** `getBrightness`: the last value set, recovered from the stored one. */
    function GetBrightness(): (b: u8)
      reads this
      ensures EncodeBrightness(b) == brightness
    {
      (brightness + 0xFF) % 0x100
    }

    /** `show`: with a buffer, the whole APA102 frame for the current pixels
      and brightness is appended to what the SPI device has sent; without
      one, nothing is sent. The pixels and brightness are left as they
      were. The do-while over the pixels needs at least one pixel, and the
      `uint8_t` end-frame counter at most 4080. */
    method Show()
      requires Valid()
      requires pixels != null ==> 1 <= numLEDs <= 4080
      modifies spiDev
      ensures spiDev.sent == old(spiDev.sent) + (if pixels == null then [] else Frame(Pixels(), numLEDs, brightness))
      ensures Pixels() == old(Pixels()) && brightness == old(brightness)
    {
      if pixels == null {
        return;
      }
      // Start frame.
      ghost var before := spiDev.sent;
      var i: u8 := 0;
      while i < 4
        invariant i <= 4 && spiDev.sent == before + StartFrame[..i]
      {
        spiDev.Transfer(0x00);
        i := i + 1;
      }
      ghost var afterStart := spiDev.sent;
      if brightness != 0 {
        SendScaledPixels();
      } else {
        SendRawPixels();
      }
      ghost var afterPixels := spiDev.sent;
      SendEndFrame();
      FrameParts(before, afterStart, afterPixels, spiDev.sent, pixels[..], numLEDs, brightness);
    }

    /** The pixel loop of `show` with a brightness set: 0xFF, then each of the
      pixel's three bytes multiplied by the stored brightness and shifted
      right by 8. */
    method SendScaledPixels()
      requires Valid() && pixels != null && brightness != 0
      modifies spiDev
      ensures spiDev.sent == old(spiDev.sent) + PixelData(pixels[..], brightness)
    {
      var a, total, stored := pixels, numLEDs, brightness;
      var out := spiDev;
      ghost var sent0 := out.sent;
      var ptr := 0;
      var n: u16 := total;
      var b16: u16 := brightness;
      while n > 0
        invariant n <= total && ptr == 3 * (total - n)
        invariant out.sent == sent0 + PixelData(a[..ptr], stored)
      {
        SendScaledPixel(out, a, ptr, b16);
        ptr := ptr + 3;
        PixelDataSnoc(a[..], stored, ptr);
        n := n - 1;
      }
      assert a[..ptr] == a[..];
    }

    /** The pixel loop of `show` at full brightness: 0xFF, then the pixel's
      three bytes unchanged. */
    method SendRawPixels()
      requires Valid() && pixels != null && brightness == 0
      modifies spiDev
      ensures spiDev.sent == old(spiDev.sent) + PixelData(pixels[..], brightness)
    {
      var a, total, stored := pixels, numLEDs, brightness;
      var out := spiDev;
      ghost var sent0 := out.sent;
      var ptr := 0;
      var n: u16 := total;
      while n > 0
        invariant n <= total && ptr == 3 * (total - n)
        invariant out.sent == sent0 + PixelData(a[..ptr], stored)
      {
        SendRawPixel(out, a, ptr);
        ptr := ptr + 3;
        PixelDataSnoc(a[..], stored, ptr);
        n := n - 1;
      }
      assert a[..ptr] == a[..];
    }

    /** The end frame of `show`: (numLEDs + 15) / 16 bytes of 0xFF, counted
      by a `uint8_t`. */
    method SendEndFrame()
      requires numLEDs <= 4080
      modifies spiDev
      ensures spiDev.sent == old(spiDev.sent) + EndFrame(numLEDs)
    {
      var i: u8 := 0;
      while i < ((numLEDs + 15) / 16) as u8
        invariant i as int <= (numLEDs + 15) / 16
        invariant spiDev.sent == old(spiDev.sent) + EndFrame(numLEDs)[..i]
      {
        spiDev.Transfer(0xFF);
        i := i + 1;
      }
      assert EndFrame(numLEDs)[..i] == EndFrame(numLEDs);
    }
  }

  /** After `rainbow`, every pixel reads back as the colour of its hue on the
      wheel. Not inductive: automatic induction is switched off only because
      the solver runs out of resource trying it. */
  lemma {:induction false} RainbowPixels(buf: seq<u8>, off: Offsets, firstHue: u16, reps: i8, sat: u8, val: u8, gammify: bool, n: nat, p: nat)
    requires IsPermutation(off) && |buf| == 3 * n && p < n
    ensures PixelColor(PaintPrefix(buf, off, 0, RainbowColors(firstHue, reps, n, HueColor(sat, val, gammify)), n), off, p)
      == HueColor(sat, val, gammify)(RainbowHue(firstHue, reps, p, n))
  {
    var cs := RainbowColors(firstHue, reps, n, HueColor(sat, val, gammify));
    PaintPrefixColor(buf, off, 0, cs, n, p);
    RainbowColorsAt(firstHue, reps, n, HueColor(sat, val, gammify), p);
    HueColorChannels(sat, val, gammify, RainbowHue(firstHue, reps, p, n));
  }
}
