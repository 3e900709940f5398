/** The strip's pixel buffer as a value (three bytes per pixel, each pixel's
    bytes in the strip's colour order) and the APA102 byte stream that `show`
    sends for it: a zero start frame, a 0xFF header and three channel bytes
    per pixel, and an end frame of 0xFF bytes. */
module PixelFrame {
  import opened Bytes
  import opened ColorTables

  function Min(a: int, b: int): int {
    if a <= b then a else b
  }

  // ---------------------------------------------------------------- pixels

  /** The three bytes in pixel n's red, green and blue slots. */
  function PixelAt(buf: seq<u8>, off: Offsets, n: nat): Rgb
    requires IsPermutation(off) && 3 * n + 3 <= |buf|
  {
    Rgb(buf[3 * n + off.r], buf[3 * n + off.g], buf[3 * n + off.b])
  }

  /** `setPixelColor` on a buffer: pixel n's slots rOffset, gOffset and
      bOffset receive the channels of px; every other byte keeps its value. */
  function PaintPixel(buf: seq<u8>, off: Offsets, n: nat, px: Rgb): (out: seq<u8>)
    requires IsPermutation(off) && 3 * n + 3 <= |buf|
    ensures |out| == |buf|
  {
    buf[3 * n + off.r := px.r][3 * n + off.g := px.g][3 * n + off.b := px.b]
  }

  /** Pixel n then holds px. */
  lemma PaintPixelInside(buf: seq<u8>, off: Offsets, n: nat, px: Rgb)
    requires IsPermutation(off) && 3 * n + 3 <= |buf|
    ensures PixelAt(PaintPixel(buf, off, n, px), off, n) == px
  {
  }

  /** Writing pixel n changes no byte outside its three slots. */
  lemma PaintPixelOutside(buf: seq<u8>, off: Offsets, n: nat, px: Rgb, q: nat)
    requires IsPermutation(off) && 3 * n + 3 <= |buf| && q < |buf| && !(3 * n <= q < 3 * n + 3)
    ensures PaintPixel(buf, off, n, px)[q] == buf[q]
  {
  }

  /** `getPixelColor` on a buffer, for an index inside the strip: the packed
      colour whose channels are the bytes in pixel n's three slots. */
  function PixelColor(buf: seq<u8>, off: Offsets, n: nat): (c: u32)
    requires IsPermutation(off) && 3 * n + 3 <= |buf|
    ensures c < 0x100_0000 && Channels(c) == PixelAt(buf, off, n)
  {
    var px := PixelAt(buf, off, n);
    Color(px.r, px.g, px.b)
  }

  /** Reading a pixel back gives the colour written to it, less its unused
      top byte; the colour order does not show through. */
  lemma PaintThenRead(buf: seq<u8>, off: Offsets, n: nat, c: u32)
    requires IsPermutation(off) && 3 * n + 3 <= |buf|
    ensures PixelColor(PaintPixel(buf, off, n, Channels(c)), off, n) == c % 0x100_0000
  {
    PaintPixelInside(buf, off, n, Channels(c));
    ColorOfChannels(c);
  }

  /** Writing one pixel leaves every other pixel as it was. */
  lemma PaintLeavesOthers(buf: seq<u8>, off: Offsets, n: nat, px: Rgb, m: nat)
    requires IsPermutation(off) && 3 * n + 3 <= |buf| && 3 * m + 3 <= |buf| && m != n
    ensures PixelAt(PaintPixel(buf, off, n, px), off, m) == PixelAt(buf, off, m)
  {
    PaintPixelOutside(buf, off, n, px, 3 * m + off.r);
    PaintPixelOutside(buf, off, n, px, 3 * m + off.g);
    PaintPixelOutside(buf, off, n, px, 3 * m + off.b);
  }

  /** Pixels lo, lo + 1, ..., lo + k - 1 painted one after another with
      the colours cs[0], ..., cs[k - 1], as the loops of `fill` and
      `rainbow` do. */
  function PaintPrefix(buf: seq<u8>, off: Offsets, lo: nat, cs: seq<u32>, k: nat): (out: seq<u8>)
    requires IsPermutation(off) && k <= |cs| && 3 * (lo + k) <= |buf|
    ensures |out| == |buf|
    decreases k
  {
    if k == 0 then buf
    else PaintPixel(PaintPrefix(buf, off, lo, cs, k - 1), off, lo + k - 1, Channels(cs[k - 1]))
  }

  /** One more step of a painting: pixel p = lo + k takes colour cs[k]. */
  lemma {:induction false} PaintPrefixNext(buf: seq<u8>, off: Offsets, lo: nat, cs: seq<u32>, k: nat, p: nat, c: u32)
    requires IsPermutation(off) && k < |cs| && 3 * (lo + k + 1) <= |buf|
    requires p == lo + k && c == cs[k]
    ensures PaintPrefix(buf, off, lo, cs, k + 1) == PaintPixel(PaintPrefix(buf, off, lo, cs, k), off, p, Channels(c))
  {
  }

  /** Painting touches no byte outside the painted pixels. */
  lemma {:induction false} PaintPrefixOutside(buf: seq<u8>, off: Offsets, lo: nat, cs: seq<u32>, k: nat, q: nat)
    requires IsPermutation(off) && k <= |cs| && 3 * (lo + k) <= |buf|
    requires q < |buf| && !(3 * lo <= q < 3 * (lo + k))
    ensures PaintPrefix(buf, off, lo, cs, k)[q] == buf[q]
    decreases k
  {
    if k > 0 {
      PaintPrefixOutside(buf, off, lo, cs, k - 1, q);
      PaintPixelOutside(PaintPrefix(buf, off, lo, cs, k - 1), off, lo + k - 1, Channels(cs[k - 1]), q);
    }
  }

  /** ... so every pixel outside the painted ones keeps its channels. */
  lemma {:induction false} PaintPrefixKeeps(buf: seq<u8>, off: Offsets, lo: nat, cs: seq<u32>, k: nat, p: nat)
    requires IsPermutation(off) && k <= |cs| && 3 * (lo + k) <= |buf| && 3 * p + 3 <= |buf|
    requires p < lo || lo + k <= p
    ensures PixelAt(PaintPrefix(buf, off, lo, cs, k), off, p) == PixelAt(buf, off, p)
  {
    PaintPrefixOutside(buf, off, lo, cs, k, 3 * p + off.r);
    PaintPrefixOutside(buf, off, lo, cs, k, 3 * p + off.g);
    PaintPrefixOutside(buf, off, lo, cs, k, 3 * p + off.b);
  }

  /** The last step of a painting: the newly painted pixel holds its
      colour's channels and every other pixel keeps what it had. */
  lemma {:induction false} PaintPrefixStep(buf: seq<u8>, off: Offsets, lo: nat, cs: seq<u32>, k: nat, p: nat)
    requires IsPermutation(off) && 0 < k <= |cs| && 3 * (lo + k) <= |buf| && 3 * p + 3 <= |buf|
    ensures PixelAt(PaintPrefix(buf, off, lo, cs, k), off, p)
      == if p == lo + k - 1 then Channels(cs[k - 1]) else PixelAt(PaintPrefix(buf, off, lo, cs, k - 1), off, p)
  {
    if p != lo + k - 1 {
      PaintLeavesOthers(PaintPrefix(buf, off, lo, cs, k - 1), off, lo + k - 1, Channels(cs[k - 1]), p);
    } else {
      PaintPixelInside(PaintPrefix(buf, off, lo, cs, k - 1), off, lo + k - 1, Channels(cs[k - 1]));
    }
  }

  /** Every painted pixel holds the channels of its colour. */
  lemma {:induction false} PaintPrefixInside(buf: seq<u8>, off: Offsets, lo: nat, cs: seq<u32>, k: nat, p: nat)
    requires IsPermutation(off) && k <= |cs| && 3 * (lo + k) <= |buf|
    requires lo <= p < lo + k
    ensures PixelAt(PaintPrefix(buf, off, lo, cs, k), off, p) == Channels(cs[p - lo])
    decreases k
  {
    if p < lo + k - 1 {
      PaintPrefixInside(buf, off, lo, cs, k - 1, p);
    }
    PaintPrefixStep(buf, off, lo, cs, k, p);
  }

  /** Every painted pixel reads back as its colour without the top byte. */
  lemma {:induction false} PaintPrefixColor(buf: seq<u8>, off: Offsets, lo: nat, cs: seq<u32>, k: nat, p: nat)
    requires IsPermutation(off) && k <= |cs| && 3 * (lo + k) <= |buf|
    requires lo <= p < lo + k
    ensures PixelColor(PaintPrefix(buf, off, lo, cs, k), off, p) == cs[p - lo] % 0x100_0000
  {
    PaintPrefixInside(buf, off, lo, cs, k, p);
    ColorOfChannels(cs[p - lo]);
  }

  /** Two buffers whose pixel p holds the same channels read the same colour
      there. */
  lemma SameChannelsSameColor(buf: seq<u8>, buf': seq<u8>, off: Offsets, p: nat)
    requires IsPermutation(off) && 3 * p + 3 <= |buf| && 3 * p + 3 <= |buf'|
    requires PixelAt(buf, off, p) == PixelAt(buf', off, p)
    ensures PixelColor(buf, off, p) == PixelColor(buf', off, p)
  {
  }

  /** One colour repeated k times. */
  function Repeat(c: u32, k: nat): (cs: seq<u32>)
    ensures |cs| == k && forall i :: 0 <= i < k ==> cs[i] == c
  {
    seq(k, _ => c)
  }

  /** One past the last pixel `fill` paints, worked out on `uint16_t` as the
      source does: the whole rest of the strip when count is 0, otherwise
      first + count clipped to the strip, where first + count wraps modulo
      2^16 before the clipping, so a wrapped end lies before first and
      nothing is painted. */
  function FillEnd(first: u16, count: u16, numLEDs: u16): (end: u16)
    ensures end <= numLEDs
    ensures count == 0 ==> end == numLEDs
    ensures count != 0 && first + count < 0x1_0000 ==> end == Min(first + count, numLEDs)
    ensures count != 0 && first + count >= 0x1_0000 ==> end < first
  {
    if count == 0 then numLEDs
    else
      var end := (first + count) % 0x1_0000;
      if end > numLEDs then numLEDs else end
  }

  /** The colours `fill` writes, one per pixel from first up to its end. */
  function FillColors(c: u32, first: u16, count: u16, numLEDs: u16): (cs: seq<u32>)
    ensures first + |cs| <= numLEDs || cs == []
    ensures forall i :: 0 <= i < |cs| ==> cs[i] == c
  {
    var end := FillEnd(first, count, numLEDs);
    if first < end then Repeat(c, end - first) else []
  }

  /** A `fill` whose first pixel lies inside the strip gives colour c to
      exactly the pixels from first up to `FillEnd` ... */
  lemma {:induction false} FillPaints(buf: seq<u8>, off: Offsets, c: u32, first: u16, count: u16, numLEDs: u16, p: nat)
    requires IsPermutation(off) && |buf| == 3 * numLEDs && first < numLEDs
    requires first <= p < FillEnd(first, count, numLEDs)
    ensures var cs := FillColors(c, first, count, numLEDs);
      PixelColor(PaintPrefix(buf, off, first, cs, |cs|), off, p) == c % 0x100_0000
  {
    var cs := FillColors(c, first, count, numLEDs);
    assert |cs| == FillEnd(first, count, numLEDs) - first;
    PaintPrefixInside(buf, off, first, cs, |cs|, p);
    ColorOfChannels(c);
  }

  /** ... and leaves every other pixel's colour as it was. */
  lemma {:induction false} FillKeeps(buf: seq<u8>, off: Offsets, c: u32, first: u16, count: u16, numLEDs: u16, p: nat)
    requires IsPermutation(off) && |buf| == 3 * numLEDs && p < numLEDs && first < numLEDs
    requires !(first <= p < FillEnd(first, count, numLEDs))
    ensures var cs := FillColors(c, first, count, numLEDs);
      PixelColor(PaintPrefix(buf, off, first, cs, |cs|), off, p) == PixelColor(buf, off, p)
  {
    var cs := FillColors(c, first, count, numLEDs);
    var end := FillEnd(first, count, numLEDs);
    assert |cs| == if first < end then end - first else 0;
    assert p < first || first + |cs| <= p;
    PaintPrefixKeeps(buf, off, first, cs, |cs|, p);
    SameChannelsSameColor(PaintPrefix(buf, off, first, cs, |cs|), buf, off, p);
  }

  // ------------------------------------------------------------ brightness

  /** `setBrightness` stores b + 1 on `uint8_t`: 0 means full brightness (no
      scaling), 1 means off. The stored value decodes back to b. */
  function EncodeBrightness(b: u8): (stored: u8)
    ensures DecodeBrightness(stored) == b
    ensures b == 255 <==> stored == 0
  {
    (b + 1) % 0x100
  }

  /** `getBrightness` subtracts 1 on `uint8_t`; it inverts the encoding for
      every stored value, so a fresh strip (stored 0) reports 255. */
  function DecodeBrightness(stored: u8): (b: u8)
    ensures (b + 1) % 0x100 == stored
  {
    (stored + 0xFF) % 0x100
  }

  /** `(x * b16) >> 8`: one channel scaled by a nonzero stored brightness.
      It never exceeds the channel, and the stored value 1 (brightness 0)
      turns every channel off. */
  function ScaleByte(x: u8, stored: u8): (y: u8)
    ensures y <= x
    ensures stored == 1 ==> y == 0
  {
    ProductIsMul(x, stored);
    MulLe(stored, 0x100, x);
    Product(x, stored) / 0x100
  }

  /** The byte `show` sends for a channel byte x: raw when the stored
      brightness is 0, scaled otherwise. */
  function OutByte(x: u8, stored: u8): (y: u8)
    ensures y <= x
    ensures stored == 0 ==> y == x
    ensures stored == 1 ==> y == 0
  {
    if stored == 0 then x else ScaleByte(x, stored)
  }

  /** Scaling never brightens: a higher brightness setting never sends a
      smaller byte. */
  lemma ScaleByteMonotone(x: u8, s1: u8, s2: u8)
    requires 1 <= s1 <= s2
    ensures ScaleByte(x, s1) <= ScaleByte(x, s2)
  {
    ProductIsMul(x, s1);
    ProductIsMul(x, s2);
    MulLe(s1, s2, x);
  }

  // ----------------------------------------------------------------- frame

  /** The APA102 start frame: four zero bytes. */
  const StartFrame: seq<u8> := [0, 0, 0, 0]

  /** The end frame for a strip of n pixels: (n + 15) / 16 bytes of 0xFF. */
  function EndFrame(n: nat): (s: seq<u8>)
    ensures |s| == (n + 15) / 16 && forall k :: 0 <= k < |s| ==> s[k] == 0xFF
  {
    seq((n + 15) / 16, _ => 0xFF)
  }

  /** The end frame supplies at least (n + 1) / 2 one-bits, the number the
      APA102 needs to clock data through n pixels, and for a strip of at
      most 4080 pixels it is at most 255 bytes, the range of the
      `uint8_t` loop counter that sends it. */
  lemma EndFrameSufficient(n: nat)
    ensures 8 * |EndFrame(n)| >= (n + 1) / 2
    ensures n <= 4080 ==> |EndFrame(n)| <= 255
  {
  }

  /** The bytes `show` sends for one channel triple. */
  function OutBytes(xs: seq<u8>, stored: u8): (ys: seq<u8>)
    ensures |ys| == |xs| && forall k :: 0 <= k < |xs| ==> ys[k] == OutByte(xs[k], stored)
  {
    seq(|xs|, k requires 0 <= k < |xs| => OutByte(xs[k], stored))
  }

  /** The pixel part of the frame: for each pixel in index order, 0xFF and
      then its three buffer bytes in storage order, scaled or raw. */
  function PixelData(buf: seq<u8>, stored: u8): seq<u8>
    decreases |buf|
  {
    if |buf| < 3 then []
    else PixelData(buf[..|buf| - 3], stored) + [0xFF] + OutBytes(buf[|buf| - 3..], stored)
  }

  /** Sending one more channel byte extends the bytes sent for the pixel. */
  lemma OutBytesSnoc(buf: seq<u8>, stored: u8, lo: nat, k: nat)
    requires lo <= k < |buf|
    ensures OutBytes(buf[lo..k + 1], stored) == OutBytes(buf[lo..k], stored) + [OutByte(buf[k], stored)]
  {
  }

  /** Sending one more pixel extends the pixel data of the prefix sent so far. */
  lemma PixelDataSnoc(buf: seq<u8>, stored: u8, k: nat)
    requires 3 <= k <= |buf|
    ensures PixelData(buf[..k], stored) == PixelData(buf[..k - 3], stored) + [0xFF] + OutBytes(buf[k - 3..k], stored)
  {
    assert buf[..k][..k - 3] == buf[..k - 3];
    assert buf[..k][k - 3..] == buf[k - 3..k];
  }

  /** Everything `show` sends for a buffer of n pixels. */
  function Frame(buf: seq<u8>, n: nat, stored: u8): seq<u8>
    requires |buf| == 3 * n
  {
    StartFrame + PixelData(buf, stored) + EndFrame(n)
  }

  /** Sending the start frame, the pixel data and the end frame one after the
      other sends the frame. */
  lemma FrameParts(s0: seq<u8>, s1: seq<u8>, s2: seq<u8>, s3: seq<u8>, buf: seq<u8>, n: nat, stored: u8)
    requires |buf| == 3 * n
    requires s1 == s0 + StartFrame && s2 == s1 + PixelData(buf, stored) && s3 == s2 + EndFrame(n)
    ensures s3 == s0 + Frame(buf, n, stored)
  {
  }

  /** Four bytes per pixel. */
  lemma {:induction false} PixelDataLength(buf: seq<u8>, n: nat, stored: u8)
    requires |buf| == 3 * n
    ensures |PixelData(buf, stored)| == 4 * n
    decreases n
  {
    if n > 0 {
      PixelDataLength(buf[..|buf| - 3], n - 1, stored);
    }
  }

  /** The last pixel's header and channel bytes close the pixel data. */
  lemma {:induction false} PixelDataLast(buf: seq<u8>, n: nat, stored: u8, j: nat)
    requires |buf| == 3 * n && 0 < n && j < 3
    ensures |PixelData(buf, stored)| == 4 * n
    ensures PixelData(buf, stored)[4 * (n - 1)] == 0xFF
    ensures PixelData(buf, stored)[4 * (n - 1) + 1 + j] == OutByte(buf[3 * (n - 1) + j], stored)
  {
    PixelDataLength(buf[..|buf| - 3], n - 1, stored);
    assert buf[|buf| - 3..][j] == buf[3 * (n - 1) + j];
  }

  /** Appending a pixel leaves the earlier pixels' bytes in place. */
  lemma {:induction false} PixelDataFront(buf: seq<u8>, n: nat, stored: u8, q: nat)
    requires |buf| == 3 * n && 0 < n && q < 4 * (n - 1)
    ensures |PixelData(buf[..|buf| - 3], stored)| == 4 * (n - 1)
    ensures PixelData(buf, stored)[q] == PixelData(buf[..|buf| - 3], stored)[q]
  {
    PixelDataLength(buf[..|buf| - 3], n - 1, stored);
  }

  /** Pixel i's header at 4i and its channel byte j at 4i + 1 + j. */
  lemma {:induction false} PixelDataAt(buf: seq<u8>, n: nat, stored: u8, i: nat, j: nat)
    requires |buf| == 3 * n && i < n && j < 3
    ensures |PixelData(buf, stored)| == 4 * n
    ensures PixelData(buf, stored)[4 * i] == 0xFF
    ensures PixelData(buf, stored)[4 * i + 1 + j] == OutByte(buf[3 * i + j], stored)
    decreases n
  {
    if i < n - 1 {
      var front := buf[..|buf| - 3];
      PixelDataAt(front, n - 1, stored, i, j);
      PixelDataFront(buf, n, stored, 4 * i);
      PixelDataFront(buf, n, stored, 4 * i + 1 + j);
      assert front[3 * i + j] == buf[3 * i + j];
    } else {
      PixelDataLast(buf, n, stored, j);
    }
  }

  /** The frame for N pixels is 4 + 4N + (N + 15) / 16 bytes: four zero
      bytes, the pixel data, and an end frame of 0xFF bytes. */
  lemma {:induction false} FrameLength(buf: seq<u8>, n: nat, stored: u8)
    requires |buf| == 3 * n
    ensures var f := Frame(buf, n, stored);
      |f| == 4 + 4 * n + (n + 15) / 16 &&
      (forall k :: 0 <= k < 4 ==> f[k] == 0) &&
      (forall k :: 4 + 4 * n <= k < |f| ==> f[k] == 0xFF)
  {
    PixelDataLength(buf, n, stored);
    var f := Frame(buf, n, stored);
    forall k | 4 + 4 * n <= k < |f|
      ensures f[k] == 0xFF
    {
      assert f[k] == EndFrame(n)[k - 4 - 4 * n];
    }
  }

  /** In the frame, pixel i (in index order) is 0xFF at 4 + 4i followed by
      its three channel bytes in storage order, each scaled or raw. */
  lemma {:induction false} FramePixel(buf: seq<u8>, n: nat, stored: u8, i: nat, j: nat)
    requires |buf| == 3 * n && i < n && j < 3
    ensures |Frame(buf, n, stored)| == 4 + 4 * n + (n + 15) / 16
    ensures Frame(buf, n, stored)[4 + 4 * i] == 0xFF
    ensures Frame(buf, n, stored)[4 + 4 * i + 1 + j] == OutByte(buf[3 * i + j], stored)
  {
    PixelDataAt(buf, n, stored, i, j);
  }
}
