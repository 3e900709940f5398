/** The five-bit "HD" gamma quantizer. An 8-bit colour is expanded to 16 bits
    per channel through a replaceable gamma curve, then re-encoded as three
    mantissa bytes sharing one 5-bit power level from {31, 15, 7, 3, 1}:
    the dimmer the colour, the lower the shared level and the more of the
    mantissa byte the channels use. The strip's `show` never calls it. */
module FiveBitHdGamma {
  import opened Bytes
  import ColorTables

  /** A colour after gamma expansion, 16 bits per channel. */
  datatype Rgb16 = Rgb16(r: u16, g: u16, b: u16)

  /** Quantizer output: three mantissa bytes and the shared power level. */
  datatype HdPixel = HdPixel(r: u8, g: u8, b: u8, power: u8)

  /** Row r, entries 16r .. 16r + 15, of `_DotStarGammaTable16`: 8-bit input
      to 16-bit output with gamma 2.6. */
  function Gamma16Row(r: nat): ColorTables.Row<u16>
    requires r < 16
  {
    if r == 0 then ColorTables.Row(0, 0, 0, 1, 1, 2, 4, 6, 8, 11, 14, 18, 23, 29, 35, 41)
    else if r == 1 then ColorTables.Row(49, 57, 67, 77, 88, 99, 112, 126, 141, 156, 173, 191, 210, 230, 251, 274)
    else if r == 2 then ColorTables.Row(297, 322, 348, 375, 404, 433, 464, 497, 531, 566, 602, 640, 680, 721, 763, 807)
    else if r == 3 then ColorTables.Row(853, 899, 948, 998, 1050, 1103, 1158, 1215, 1273, 1333, 1394, 1458, 1523, 1590, 1658, 1729)
    else if r == 4 then ColorTables.Row(1801, 1875, 1951, 2029, 2109, 2190, 2274, 2359, 2446, 2536, 2627, 2720, 2816, 2913, 3012, 3114)
    else if r == 5 then ColorTables.Row(3217, 3323, 3431, 3541, 3653, 3767, 3883, 4001, 4122, 4245, 4370, 4498, 4627, 4759, 4893, 5030)
    else if r == 6 then ColorTables.Row(5169, 5310, 5453, 5599, 5747, 5898, 6051, 6206, 6364, 6525, 6688, 6853, 7021, 7191, 7364, 7539)
    else if r == 7 then ColorTables.Row(7717, 7897, 8080, 8266, 8454, 8645, 8838, 9034, 9233, 9434, 9638, 9845, 10055, 10267, 10482, 10699)
    else if r == 8 then ColorTables.Row(10920, 11143, 11369, 11598, 11829, 12064, 12301, 12541, 12784, 13030, 13279, 13530, 13785, 14042, 14303, 14566)
    else if r == 9 then ColorTables.Row(14832, 15102, 15374, 15649, 15928, 16209, 16493, 16781, 17071, 17365, 17661, 17961, 18264, 18570, 18879, 19191)
    else if r == 10 then ColorTables.Row(19507, 19825, 20147, 20472, 20800, 21131, 21466, 21804, 22145, 22489, 22837, 23188, 23542, 23899, 24260, 24625)
    else if r == 11 then ColorTables.Row(24992, 25363, 25737, 26115, 26496, 26880, 27268, 27659, 28054, 28452, 28854, 29259, 29667, 30079, 30495, 30914)
    else if r == 12 then ColorTables.Row(31337, 31763, 32192, 32626, 33062, 33503, 33947, 34394, 34846, 35300, 35759, 36221, 36687, 37156, 37629, 38106)
    else if r == 13 then ColorTables.Row(38586, 39071, 39558, 40050, 40545, 41045, 41547, 42054, 42565, 43079, 43597, 44119, 44644, 45174, 45707, 46245)
    else if r == 14 then ColorTables.Row(46786, 47331, 47880, 48432, 48989, 49550, 50114, 50683, 51255, 51832, 52412, 52996, 53585, 54177, 54773, 55374)
    else ColorTables.Row(55978, 56587, 57199, 57816, 58436, 59061, 59690, 60323, 60960, 61601, 62246, 62896, 63549, 64207, 64869, 65535)
  }

  /** Entry x of the 16-bit table. */
  function Gamma16(x: u8): u16 {
    ColorTables.Entry(Gamma16Row(x / 16), x % 16)
  }

  // Adjacent entries of the 16-bit table, sixteen at a time (split for the
  // solver; Gamma16Sorted joins the blocks).
  lemma Gamma16SortedBlock0()
    ensures forall k :: 0 <= k < 16 ==> Gamma16(k) <= Gamma16(k + 1)
  {
    forall k | 0 <= k < 16 ensures Gamma16(k) <= Gamma16(k + 1) {
      assert k / 16 == 0 && k % 16 == k - 0;
      assert k == 0 || k == 1 || k == 2 || k == 3 || k == 4 || k == 5 || k == 6 || k == 7 || k == 8 || k == 9 || k == 10 || k == 11 || k == 12 || k == 13 || k == 14 || k == 15;
    }
  }

  lemma Gamma16SortedBlock1()
    ensures forall k :: 16 <= k < 32 ==> Gamma16(k) <= Gamma16(k + 1)
  {
    forall k | 16 <= k < 32 ensures Gamma16(k) <= Gamma16(k + 1) {
      assert k / 16 == 1 && k % 16 == k - 16;
      assert k == 16 || k == 17 || k == 18 || k == 19 || k == 20 || k == 21 || k == 22 || k == 23 || k == 24 || k == 25 || k == 26 || k == 27 || k == 28 || k == 29 || k == 30 || k == 31;
    }
  }

  lemma Gamma16SortedBlock2()
    ensures forall k :: 32 <= k < 48 ==> Gamma16(k) <= Gamma16(k + 1)
  {
    forall k | 32 <= k < 48 ensures Gamma16(k) <= Gamma16(k + 1) {
      assert k / 16 == 2 && k % 16 == k - 32;
      assert k == 32 || k == 33 || k == 34 || k == 35 || k == 36 || k == 37 || k == 38 || k == 39 || k == 40 || k == 41 || k == 42 || k == 43 || k == 44 || k == 45 || k == 46 || k == 47;
    }
  }

  lemma Gamma16SortedBlock3()
    ensures forall k :: 48 <= k < 64 ==> Gamma16(k) <= Gamma16(k + 1)
  {
    forall k | 48 <= k < 64 ensures Gamma16(k) <= Gamma16(k + 1) {
      assert k / 16 == 3 && k % 16 == k - 48;
      assert k == 48 || k == 49 || k == 50 || k == 51 || k == 52 || k == 53 || k == 54 || k == 55 || k == 56 || k == 57 || k == 58 || k == 59 || k == 60 || k == 61 || k == 62 || k == 63;
    }
  }

  lemma Gamma16SortedBlock4()
    ensures forall k :: 64 <= k < 80 ==> Gamma16(k) <= Gamma16(k + 1)
  {
    forall k | 64 <= k < 80 ensures Gamma16(k) <= Gamma16(k + 1) {
      assert k / 16 == 4 && k % 16 == k - 64;
      assert k == 64 || k == 65 || k == 66 || k == 67 || k == 68 || k == 69 || k == 70 || k == 71 || k == 72 || k == 73 || k == 74 || k == 75 || k == 76 || k == 77 || k == 78 || k == 79;
    }
  }

  lemma Gamma16SortedBlock5()
    ensures forall k :: 80 <= k < 96 ==> Gamma16(k) <= Gamma16(k + 1)
  {
    forall k | 80 <= k < 96 ensures Gamma16(k) <= Gamma16(k + 1) {
      assert k / 16 == 5 && k % 16 == k - 80;
      assert k == 80 || k == 81 || k == 82 || k == 83 || k == 84 || k == 85 || k == 86 || k == 87 || k == 88 || k == 89 || k == 90 || k == 91 || k == 92 || k == 93 || k == 94 || k == 95;
    }
  }

  lemma Gamma16SortedBlock6()
    ensures forall k :: 96 <= k < 112 ==> Gamma16(k) <= Gamma16(k + 1)
  {
    forall k | 96 <= k < 112 ensures Gamma16(k) <= Gamma16(k + 1) {
      assert k / 16 == 6 && k % 16 == k - 96;
      assert k == 96 || k == 97 || k == 98 || k == 99 || k == 100 || k == 101 || k == 102 || k == 103 || k == 104 || k == 105 || k == 106 || k == 107 || k == 108 || k == 109 || k == 110 || k == 111;
    }
  }

  lemma Gamma16SortedBlock7()
    ensures forall k :: 112 <= k < 128 ==> Gamma16(k) <= Gamma16(k + 1)
  {
    forall k | 112 <= k < 128 ensures Gamma16(k) <= Gamma16(k + 1) {
      assert k / 16 == 7 && k % 16 == k - 112;
      assert k == 112 || k == 113 || k == 114 || k == 115 || k == 116 || k == 117 || k == 118 || k == 119 || k == 120 || k == 121 || k == 122 || k == 123 || k == 124 || k == 125 || k == 126 || k == 127;
    }
  }

  lemma Gamma16SortedBlock8()
    ensures forall k :: 128 <= k < 144 ==> Gamma16(k) <= Gamma16(k + 1)
  {
    forall k | 128 <= k < 144 ensures Gamma16(k) <= Gamma16(k + 1) {
      assert k / 16 == 8 && k % 16 == k - 128;
      assert k == 128 || k == 129 || k == 130 || k == 131 || k == 132 || k == 133 || k == 134 || k == 135 || k == 136 || k == 137 || k == 138 || k == 139 || k == 140 || k == 141 || k == 142 || k == 143;
    }
  }

  lemma Gamma16SortedBlock9()
    ensures forall k :: 144 <= k < 160 ==> Gamma16(k) <= Gamma16(k + 1)
  {
    forall k | 144 <= k < 160 ensures Gamma16(k) <= Gamma16(k + 1) {
      assert k / 16 == 9 && k % 16 == k - 144;
      assert k == 144 || k == 145 || k == 146 || k == 147 || k == 148 || k == 149 || k == 150 || k == 151 || k == 152 || k == 153 || k == 154 || k == 155 || k == 156 || k == 157 || k == 158 || k == 159;
    }
  }

  lemma Gamma16SortedBlockA()
    ensures forall k :: 160 <= k < 176 ==> Gamma16(k) <= Gamma16(k + 1)
  {
    forall k | 160 <= k < 176 ensures Gamma16(k) <= Gamma16(k + 1) {
      assert k / 16 == 10 && k % 16 == k - 160;
      assert k == 160 || k == 161 || k == 162 || k == 163 || k == 164 || k == 165 || k == 166 || k == 167 || k == 168 || k == 169 || k == 170 || k == 171 || k == 172 || k == 173 || k == 174 || k == 175;
    }
  }

  lemma Gamma16SortedBlockB()
    ensures forall k :: 176 <= k < 192 ==> Gamma16(k) <= Gamma16(k + 1)
  {
    forall k | 176 <= k < 192 ensures Gamma16(k) <= Gamma16(k + 1) {
      assert k / 16 == 11 && k % 16 == k - 176;
      assert k == 176 || k == 177 || k == 178 || k == 179 || k == 180 || k == 181 || k == 182 || k == 183 || k == 184 || k == 185 || k == 186 || k == 187 || k == 188 || k == 189 || k == 190 || k == 191;
    }
  }

  lemma Gamma16SortedBlockC()
    ensures forall k :: 192 <= k < 208 ==> Gamma16(k) <= Gamma16(k + 1)
  {
    forall k | 192 <= k < 208 ensures Gamma16(k) <= Gamma16(k + 1) {
      assert k / 16 == 12 && k % 16 == k - 192;
      assert k == 192 || k == 193 || k == 194 || k == 195 || k == 196 || k == 197 || k == 198 || k == 199 || k == 200 || k == 201 || k == 202 || k == 203 || k == 204 || k == 205 || k == 206 || k == 207;
    }
  }

  lemma Gamma16SortedBlockD()
    ensures forall k :: 208 <= k < 224 ==> Gamma16(k) <= Gamma16(k + 1)
  {
    forall k | 208 <= k < 224 ensures Gamma16(k) <= Gamma16(k + 1) {
      assert k / 16 == 13 && k % 16 == k - 208;
      assert k == 208 || k == 209 || k == 210 || k == 211 || k == 212 || k == 213 || k == 214 || k == 215 || k == 216 || k == 217 || k == 218 || k == 219 || k == 220 || k == 221 || k == 222 || k == 223;
    }
  }

  lemma Gamma16SortedBlockE()
    ensures forall k :: 224 <= k < 240 ==> Gamma16(k) <= Gamma16(k + 1)
  {
    forall k | 224 <= k < 240 ensures Gamma16(k) <= Gamma16(k + 1) {
      assert k / 16 == 14 && k % 16 == k - 224;
      assert k == 224 || k == 225 || k == 226 || k == 227 || k == 228 || k == 229 || k == 230 || k == 231 || k == 232 || k == 233 || k == 234 || k == 235 || k == 236 || k == 237 || k == 238 || k == 239;
    }
  }

  lemma Gamma16SortedBlockF()
    ensures forall k :: 240 <= k < 255 ==> Gamma16(k) <= Gamma16(k + 1)
  {
    forall k | 240 <= k < 255 ensures Gamma16(k) <= Gamma16(k + 1) {
      assert k / 16 == 15 && k % 16 == k - 240 && (k + 1) / 16 == 15 && (k + 1) % 16 == k + 1 - 240;
      assert k == 240 || k == 241 || k == 242 || k == 243 || k == 244 || k == 245 || k == 246 || k == 247 || k == 248 || k == 249 || k == 250 || k == 251 || k == 252 || k == 253 || k == 254;
    }
  }


  /** The 16-bit table holds 256 entries, never decreases and spans the whole
      16-bit range. */
  lemma Gamma16Sorted(x: u8, y: u8)
    requires x <= y
    ensures Gamma16(x) <= Gamma16(y)
    ensures Gamma16(0) == 0 && Gamma16(255) == 0xFFFF
  {
    Gamma16SortedBlock0();
    Gamma16SortedBlock1();
    Gamma16SortedBlock2();
    Gamma16SortedBlock3();
    Gamma16SortedBlock4();
    Gamma16SortedBlock5();
    Gamma16SortedBlock6();
    Gamma16SortedBlock7();
    Gamma16SortedBlock8();
    Gamma16SortedBlock9();
    Gamma16SortedBlockA();
    Gamma16SortedBlockB();
    Gamma16SortedBlockC();
    Gamma16SortedBlockD();
    Gamma16SortedBlockE();
    Gamma16SortedBlockF();
    var s := seq(256, i requires 0 <= i < 256 => Gamma16(i));
    ColorTables.AdjacentSorted(s);
    assert s[x] <= s[y];
  }

  /** `five_bit_hd_gamma_function`: the default expansion, one table lookup per
      channel. The quantizer takes the expansion as a parameter; this is the
      value the library supplies. */
  function DefaultGammaExpand(r8: u8, g8: u8, b8: u8): Rgb16 {
    Rgb16(Gamma16(r8), Gamma16(g8), Gamma16(b8))
  }

  /** The levels the shared power register can be left at. */
  predicate IsPowerLevel(p: int) {
    p == 31 || p == 15 || p == 7 || p == 3 || p == 1
  }

  /** The largest of three channels. */
  function Max3(a: u16, b: u16, c: u16): (m: u16)
    ensures a <= m && b <= m && c <= m
    ensures m == a || m == b || m == c
  {
    if a >= b && a >= c then a else if b >= c then b else c
  }

  /** Where the ladder stops for a colour whose brightest channel is m: the
      smallest level p with `m * 31 <= 0xFFFF * p`, that is, the lowest level
      at which scaling every channel by 31/p still fits in 16 bits. */
  function PowerFor(m: u16): (p: u8)
    ensures IsPowerLevel(p)
    ensures m * 31 <= 0xFFFF * p
    ensures forall l :: IsPowerLevel(l) && l < p ==> 0xFFFF * l < m * 31
  {
    if m * 31 <= 0xFFFF * 1 then 1
    else if m * 31 <= 0xFFFF * 3 then 3
    else if m * 31 <= 0xFFFF * 7 then 7
    else if m * 31 <= 0xFFFF * 15 then 15
    else 31
  }

  /** A brighter colour never gets a lower level. */
  lemma PowerForMonotone(m1: u16, m2: u16)
    requires m1 <= m2
    ensures PowerFor(m1) <= PowerFor(m2)
  {
  }

  /** One channel scaled by 31/p, which is what `c16 * numerator / denominator`
      comes to at level p. It never shrinks the channel and, for a channel no
      brighter than the one that chose p, fits in 16 bits. */
  function Rescale(c: u16, p: u8): (s: u16)
    requires IsPowerLevel(p) && c * 31 <= 0xFFFF * p
    ensures c <= s
    ensures s * p <= c * 31 < (s + 1) * p
  {
    assert p == 31 || p == 15 || p == 7 || p == 3 || p == 1;
    c * 31 / p
  }

  /** The mantissa byte of a rescaled channel: its high byte (`uint8_t(s >> 8)`),
      except that a full input channel whose high byte reaches 254 is pinned
      to 255. */
  function Mantissa(c8: u8, s: u16): (m: u8)
    ensures s / 0x100 <= m <= s / 0x100 + 1
    ensures c8 == 255 && s >= 0xFE00 ==> m == 255
    ensures !(c8 == 255 && s >= 0xFE00) ==> m == s / 0x100
  {
    var hi := (s / 0x100) % 0x100;
    if c8 == 255 && hi >= 254 then 255 else hi
  }

  /** What `five_bit_hd_gamma_bitshift` computes, in closed form: one power
      level for all three channels, chosen from the brightest, and each
      channel's mantissa taken from the channel scaled by 31/power. No
      mantissa is smaller than the high byte of its unscaled channel. */
  function HdGamma(expand: (u8, u8, u8) -> Rgb16, r8: u8, g8: u8, b8: u8): (out: HdPixel)
    ensures IsPowerLevel(out.power)
    ensures out.r >= expand(r8, g8, b8).r / 0x100
    ensures out.g >= expand(r8, g8, b8).g / 0x100
    ensures out.b >= expand(r8, g8, b8).b / 0x100
  {
    var e := expand(r8, g8, b8);
    var p := PowerFor(Max3(e.r, e.g, e.b));
    HdPixel(Mantissa(r8, Rescale(e.r, p)), Mantissa(g8, Rescale(e.g, p)), Mantissa(b8, Rescale(e.b, p)), p)
  }

  /** One overflow test of the ladder, `c * k > limit` on `uint32_t`; the
      precondition is that the product does not wrap. */
  function Exceeds(c: u32, k: u32, limit: u32): bool
    requires c * k < 0x1_0000_0000
  {
    c * k > limit
  }

  /** `uint16_t(c * numerator / denominator)` with the product on `uint32_t`;
      the precondition is that the product does not wrap. */
  function ScaleTo16(c: u32, numerator: u16, denominator: u16): u16
    requires denominator > 0 && c * numerator < 0x1_0000_0000
  {
    (c * numerator / denominator) % 0x1_0000
  }

  /** The running numerator at each level of the ladder. */
  function Numerator(p: u8): u16 {
    if p == 31 then 1 else if p == 15 then 31 else if p == 7 then 31 * 15
    else if p == 3 then 31 * 15 * 7 else 31 * 15 * 7 * 3
  }

  /** The running denominator at each level; the last step leaves it as it was. */
  function Denominator(p: u8): u16 {
    if p == 31 then 1 else if p == 15 then 15 else if p == 7 then 15 * 7
    else 15 * 7 * 3
  }

  /** At every level the running fraction reduces to 31/p, so the 32-bit
      scaling step computes exactly `Rescale`, and nothing wraps. */
  lemma ScaleMatchesRescale(c: u16, p: u8)
    requires IsPowerLevel(p) && c * 31 <= 0xFFFF * p
    ensures c * Numerator(p) < 0x1_0000_0000
    ensures c * Numerator(p) / Denominator(p) < 0x1_0000
    ensures ScaleTo16(c, Numerator(p), Denominator(p)) == Rescale(c, p)
  {
    if p == 31 {
    } else if p == 15 {
    } else if p == 7 {
      assert c * 465 / 105 == c * 31 / 7;
    } else if p == 3 {
      assert c * 3255 / 315 == c * 31 / 3;
    } else {
      assert c * 9765 / 315 == c * 31;
    }
  }

  /** Step 3 of `five_bit_hd_gamma_bitshift`: the do-once block whose breaks
      end the ladder, with the running numerator, denominator and level.
      Every product fits in 32 bits (the precondition of `Exceeds`), and the
      ladder stops at the level `PowerFor` gives for the brightest channel. */
  method PowerLadder(r16c: u16, g16c: u16, b16c: u16) returns (v8: u8, numerator: u16, denominator: u16)
    ensures v8 == PowerFor(Max3(r16c, g16c, b16c))
    ensures numerator == Numerator(v8) && denominator == Denominator(v8)
  {
    v8, numerator, denominator := 31, 1, 1;
    ghost var m: int := Max3(r16c, g16c, b16c);
    label ladder: {
      var maxValue: u32 := 0xFFFF * 15;
      if Exceeds(r16c, 31, maxValue) { assert m * 31 > 0xFFFF * 15; break ladder; }
      if Exceeds(g16c, 31, maxValue) { assert m * 31 > 0xFFFF * 15; break ladder; }
      if Exceeds(b16c, 31, maxValue) { assert m * 31 > 0xFFFF * 15; break ladder; }
      assert m * 31 <= 0xFFFF * 15;
      numerator, denominator, v8 := 31, 15, 15;

      maxValue := 0xFFFF * 15 * 7;
      if Exceeds(r16c, 31 * 15, maxValue) { assert m * 31 > 0xFFFF * 7; break ladder; }
      if Exceeds(g16c, 31 * 15, maxValue) { assert m * 31 > 0xFFFF * 7; break ladder; }
      if Exceeds(b16c, 31 * 15, maxValue) { assert m * 31 > 0xFFFF * 7; break ladder; }
      assert m * 31 <= 0xFFFF * 7;
      numerator, denominator, v8 := 31 * 15, 15 * 7, 7;

      maxValue := 0xFFFF * 15 * 7 * 3;
      if Exceeds(r16c, 31 * 15 * 7, maxValue) { assert m * 31 > 0xFFFF * 3; break ladder; }
      if Exceeds(g16c, 31 * 15 * 7, maxValue) { assert m * 31 > 0xFFFF * 3; break ladder; }
      if Exceeds(b16c, 31 * 15 * 7, maxValue) { assert m * 31 > 0xFFFF * 3; break ladder; }
      assert m * 31 <= 0xFFFF * 3;
      numerator, denominator, v8 := 31 * 15 * 7, 15 * 7 * 3, 3;

      // The last test keeps the previous limit; the denominator stays.
      maxValue := 0xFFFF * 15 * 7 * 3;
      if Exceeds(r16c, 31 * 15 * 7 * 3, maxValue) { assert m * 31 > 0xFFFF * 1; break ladder; }
      if Exceeds(g16c, 31 * 15 * 7 * 3, maxValue) { assert m * 31 > 0xFFFF * 1; break ladder; }
      if Exceeds(b16c, 31 * 15 * 7 * 3, maxValue) { assert m * 31 > 0xFFFF * 1; break ladder; }
      assert m * 31 <= 0xFFFF * 1;
      numerator, v8 := 31 * 15 * 7 * 3, 1;
    }
  }

  /** `five_bit_hd_gamma_bitshift`, step by step, with the outputs written
      through the result parameters. Every product fits in 32 bits (the
      precondition of `ScaleTo16`) and the result is the closed form. */
  method FiveBitHdGammaBitshift(expand: (u8, u8, u8) -> Rgb16, r8: u8, g8: u8, b8: u8)
    returns (outR8: u8, outG8: u8, outB8: u8, outPower5bit: u8)
    ensures HdPixel(outR8, outG8, outB8, outPower5bit) == HdGamma(expand, r8, g8, b8)
  {
    // Step 1: gamma expansion.
    var e := expand(r8, g8, b8);
    // Steps 2 and 3: start at the highest level, no scaling, and walk the
    // ladder down.
    var v8, numerator, denominator := PowerLadder(e.r, e.g, e.b);
    ScaleMatchesRescale(e.r, v8);
    ScaleMatchesRescale(e.g, v8);
    ScaleMatchesRescale(e.b, v8);
    // Step 3b: rescale, stored back into 16 bits.
    var r16 := ScaleTo16(e.r, numerator, denominator);
    var g16 := ScaleTo16(e.g, numerator, denominator);
    var b16 := ScaleTo16(e.b, numerator, denominator);
    // Step 4: back to 8 bits.
    outR8 := Mantissa(r8, r16);
    outG8 := Mantissa(g8, g16);
    outB8 := Mantissa(b8, b16);
    // Step 5: the shared level.
    outPower5bit := v8;
  }

  /** With the library's table, full white stays full white at the highest
      level, and black passes every test and ends at the lowest. */
  lemma HdGammaFixedPoints()
    ensures HdGamma(DefaultGammaExpand, 255, 255, 255) == HdPixel(255, 255, 255, 31)
    ensures HdGamma(DefaultGammaExpand, 0, 0, 0) == HdPixel(0, 0, 0, 1)
  {
    Gamma16Sorted(0, 255);
  }

  /** With the library's table, a full red input forces the highest level and
      comes out as a full mantissa. */
  lemma FullRedStaysFull(g8: u8, b8: u8)
    ensures HdGamma(DefaultGammaExpand, 255, g8, b8).r == 255
    ensures HdGamma(DefaultGammaExpand, 255, g8, b8).power == 31
  {
    Gamma16Sorted(0, 255);
    var e := DefaultGammaExpand(255, g8, b8);
    assert e.r == 0xFFFF;
    assert Max3(e.r, e.g, e.b) == 0xFFFF;
  }

  /** With the library's table, brightening any channel never lowers the
      shared level. */
  lemma HdPowerMonotone(r8: u8, g8: u8, b8: u8, r8': u8, g8': u8, b8': u8)
    requires r8 <= r8' && g8 <= g8' && b8 <= b8'
    ensures HdGamma(DefaultGammaExpand, r8, g8, b8).power <= HdGamma(DefaultGammaExpand, r8', g8', b8').power
  {
    Gamma16Sorted(r8, r8');
    Gamma16Sorted(g8, g8');
    Gamma16Sorted(b8, b8');
    var e, e' := DefaultGammaExpand(r8, g8, b8), DefaultGammaExpand(r8', g8', b8');
    PowerForMonotone(Max3(e.r, e.g, e.b), Max3(e'.r, e'.g, e'.b));
  }
}
