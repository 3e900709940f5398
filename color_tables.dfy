/** What the DotStar header defines as data and static helpers: the colour-order
    flags, the packed 0x00RRGGBB colour, and the constant gamma and sine
    lookup tables behind `gamma8` and `sine8`. */
module ColorTables {
  import opened Bytes

  // ---------------------------------------------------------------------------
  // Colour-order flags. Bits 0-1 give the slot of red within a pixel's three
  // bytes, bits 2-3 the slot of green, bits 4-5 the slot of blue.

  const DotStarRgb: u8 := 0 + 1 * 4 + 2 * 16
  const DotStarRbg: u8 := 0 + 2 * 4 + 1 * 16
  const DotStarGrb: u8 := 1 + 0 * 4 + 2 * 16
  const DotStarGbr: u8 := 2 + 0 * 4 + 1 * 16
  const DotStarBrg: u8 := 1 + 2 * 4 + 0 * 16
  const DotStarBgr: u8 := 2 + 1 * 4 + 0 * 16
  /** Single-colour strips; unfinished in the library and not part of this model. */
  const DotStarMono: u8 := 0

  /** Slots of red, green and blue within a pixel's three stored bytes. */
  datatype Offsets = Offsets(r: nat, g: nat, b: nat)

  /** The constructors' decoding: `(o & 3, (o >> 2) & 3, (o >> 4) & 3)`. */
  function DecodeOrder(o: u8): (off: Offsets)
    ensures off.r < 4 && off.g < 4 && off.b < 4
  {
    Offsets(o % 4, (o / 4) % 4, (o / 16) % 4)
  }

  /** The three slots are 0, 1 and 2 in some order. */
  predicate IsPermutation(off: Offsets) {
    off.r < 3 && off.g < 3 && off.b < 3 && off.r != off.g && off.g != off.b && off.r != off.b
  }

  /** One of the six documented colour orders. */
  predicate IsColorOrder(o: u8) {
    o == DotStarRgb || o == DotStarRbg || o == DotStarGrb ||
    o == DotStarGbr || o == DotStarBrg || o == DotStarBgr
  }

  /** Of all flags that use only the six order bits, exactly the six documented
      orders decode to a permutation of the slots. */
  lemma ColorOrdersArePermutations(o: u8)
    requires o < 64
    ensures IsPermutation(DecodeOrder(o)) <==> IsColorOrder(o)
  {
    assert o / 16 < 4 && o == o % 4 + 4 * ((o / 4) % 4) + 16 * (o / 16);
  }

  /** The mono flag decodes to red and green sharing a slot, the condition the
      library tests to select the mono layout. */
  lemma MonoIsNotAPermutation()
    ensures DecodeOrder(DotStarMono).r == DecodeOrder(DotStarMono).g
    ensures !IsPermutation(DecodeOrder(DotStarMono))
  {
  }

  /** The channel letters in transmission (slot) order. */
  function SlotNames(off: Offsets): (s: seq<char>)
    requires IsPermutation(off)
    ensures |s| == 3 && s[off.r] == 'R' && s[off.g] == 'G' && s[off.b] == 'B'
  {
    seq(3, i => if i == off.r then 'R' else if i == off.g then 'G' else 'B')
  }

  /** Each flag transmits the channels in the order its name spells. */
  lemma ColorOrderNames()
    ensures SlotNames(DecodeOrder(DotStarRgb)) == "RGB"
    ensures SlotNames(DecodeOrder(DotStarRbg)) == "RBG"
    ensures SlotNames(DecodeOrder(DotStarGrb)) == "GRB"
    ensures SlotNames(DecodeOrder(DotStarGbr)) == "GBR"
    ensures SlotNames(DecodeOrder(DotStarBrg)) == "BRG"
    ensures SlotNames(DecodeOrder(DotStarBgr)) == "BGR"
  {
    assert DecodeOrder(DotStarRgb) == Offsets(0, 1, 2);
    assert SlotNames(Offsets(0, 1, 2)) == "RGB";
    assert DecodeOrder(DotStarRbg) == Offsets(0, 2, 1);
    assert SlotNames(Offsets(0, 2, 1)) == "RBG";
    assert DecodeOrder(DotStarGrb) == Offsets(1, 0, 2);
    assert SlotNames(Offsets(1, 0, 2)) == "GRB";
    assert DecodeOrder(DotStarGbr) == Offsets(2, 0, 1);
    assert SlotNames(Offsets(2, 0, 1)) == "GBR";
    assert DecodeOrder(DotStarBrg) == Offsets(1, 2, 0);
    assert SlotNames(Offsets(1, 2, 0)) == "BRG";
    assert DecodeOrder(DotStarBgr) == Offsets(2, 1, 0);
    assert SlotNames(Offsets(2, 1, 0)) == "BGR";
  }

  // ---------------------------------------------------------------------------
  // Packed colours 0x00RRGGBB.

  /** `(uint8_t)(c >> 16)` */
  function Red(c: u32): u8 { ByteOf(c, 2) }

  /** `(uint8_t)(c >> 8)` */
  function Green(c: u32): u8 { ByteOf(c, 1) }

  /** `(uint8_t)c` */
  function Blue(c: u32): u8 { ByteOf(c, 0) }

  /** `Color(r, g, b)`: the channels packed as 0x00RRGGBB. The three fields do
      not overlap, so the source's bitwise or is a sum. */
  function Color(r: u8, g: u8, b: u8): (c: u32)
    ensures c < 0x100_0000
    ensures Red(c) == r && Green(c) == g && Blue(c) == b
  {
    Word(0, r, g, b)
  }

  /** Unpacking and repacking keeps the low 24 bits of any word. */
  lemma ColorOfChannels(c: u32)
    ensures Color(Red(c), Green(c), Blue(c)) == c % 0x100_0000
  {
    WordOfBytes(c);
  }

  /** A colour as three separate channel bytes. */
  datatype Rgb = Rgb(r: u8, g: u8, b: u8)

  /** The channels of a packed colour, as `setPixelColor(n, c)` extracts them. */
  function Channels(c: u32): Rgb {
    Rgb(Red(c), Green(c), Blue(c))
  }

  // ---------------------------------------------------------------------------
  // Lookup tables. Each table is kept as sixteen rows of sixteen entries, so
  // that a lookup only brings the row it reads into a proof.

  /** Sixteen consecutive entries of a lookup table. */
  datatype Row<T> = Row(e0: T, e1: T, e2: T, e3: T, e4: T, e5: T, e6: T, e7: T, e8: T, e9: T, eA: T, eB: T, eC: T, eD: T, eE: T, eF: T)

  /** Entry c of a row, found by halving the range of c. */
  function Entry<T>(row: Row<T>, c: nat): T
    requires c < 16
  {
    if c < 8 then
      if c < 4 then
        if c < 2 then if c < 1 then row.e0 else row.e1 else if c < 3 then row.e2 else row.e3
      else
        if c < 6 then if c < 5 then row.e4 else row.e5 else if c < 7 then row.e6 else row.e7
    else
      if c < 12 then
        if c < 10 then if c < 9 then row.e8 else row.e9 else if c < 11 then row.eA else row.eB
      else
        if c < 14 then if c < 13 then row.eC else row.eD else if c < 15 then row.eE else row.eF
  }

  /** Row r, entries 16r .. 16r + 15, of `_DotStarGammaTable`: 8-bit gamma
      correction with exponent 2.6. */
  function GammaRow(r: nat): Row<u8>
    requires r < 16
  {
    if r == 0 then Row(0, 0, 0, 0, 0, 0, 0, 0, 0, 0, 0, 0, 0, 0, 0, 0)
    else if r == 1 then Row(0, 0, 0, 0, 0, 0, 0, 0, 1, 1, 1, 1, 1, 1, 1, 1)
    else if r == 2 then Row(1, 1, 1, 1, 2, 2, 2, 2, 2, 2, 2, 2, 3, 3, 3, 3)
    else if r == 3 then Row(3, 3, 4, 4, 4, 4, 5, 5, 5, 5, 5, 6, 6, 6, 6, 7)
    else if r == 4 then Row(7, 7, 8, 8, 8, 9, 9, 9, 10, 10, 10, 11, 11, 11, 12, 12)
    else if r == 5 then Row(13, 13, 13, 14, 14, 15, 15, 16, 16, 17, 17, 18, 18, 19, 19, 20)
    else if r == 6 then Row(20, 21, 21, 22, 22, 23, 24, 24, 25, 25, 26, 27, 27, 28, 29, 29)
    else if r == 7 then Row(30, 31, 31, 32, 33, 34, 34, 35, 36, 37, 38, 38, 39, 40, 41, 42)
    else if r == 8 then Row(42, 43, 44, 45, 46, 47, 48, 49, 50, 51, 52, 53, 54, 55, 56, 57)
    else if r == 9 then Row(58, 59, 60, 61, 62, 63, 64, 65, 66, 68, 69, 70, 71, 72, 73, 75)
    else if r == 10 then Row(76, 77, 78, 80, 81, 82, 84, 85, 86, 88, 89, 90, 92, 93, 94, 96)
    else if r == 11 then Row(97, 99, 100, 102, 103, 105, 106, 108, 109, 111, 112, 114, 115, 117, 119, 120)
    else if r == 12 then Row(122, 124, 125, 127, 129, 130, 132, 134, 136, 137, 139, 141, 143, 145, 146, 148)
    else if r == 13 then Row(150, 152, 154, 156, 158, 160, 162, 164, 166, 168, 170, 172, 174, 176, 178, 180)
    else if r == 14 then Row(182, 184, 186, 188, 191, 193, 195, 197, 199, 202, 204, 206, 209, 211, 213, 215)
    else Row(218, 220, 223, 225, 227, 230, 232, 235, 237, 240, 242, 245, 247, 250, 252, 255)
  }

  /** Row r, entries 16r .. 16r + 15, of `_DotStarSineTable`: one period of
      an 8-bit sine wave. */
  function SineRow(r: nat): Row<u8>
    requires r < 16
  {
    if r == 0 then Row(128, 131, 134, 137, 140, 143, 146, 149, 152, 155, 158, 162, 165, 167, 170, 173)
    else if r == 1 then Row(176, 179, 182, 185, 188, 190, 193, 196, 198, 201, 203, 206, 208, 211, 213, 215)
    else if r == 2 then Row(218, 220, 222, 224, 226, 228, 230, 232, 234, 235, 237, 238, 240, 241, 243, 244)
    else if r == 3 then Row(245, 246, 248, 249, 250, 250, 251, 252, 253, 253, 254, 254, 254, 255, 255, 255)
    else if r == 4 then Row(255, 255, 255, 255, 254, 254, 254, 253, 253, 252, 251, 250, 250, 249, 248, 246)
    else if r == 5 then Row(245, 244, 243, 241, 240, 238, 237, 235, 234, 232, 230, 228, 226, 224, 222, 220)
    else if r == 6 then Row(218, 215, 213, 211, 208, 206, 203, 201, 198, 196, 193, 190, 188, 185, 182, 179)
    else if r == 7 then Row(176, 173, 170, 167, 165, 162, 158, 155, 152, 149, 146, 143, 140, 137, 134, 131)
    else if r == 8 then Row(128, 124, 121, 118, 115, 112, 109, 106, 103, 100, 97, 93, 90, 88, 85, 82)
    else if r == 9 then Row(79, 76, 73, 70, 67, 65, 62, 59, 57, 54, 52, 49, 47, 44, 42, 40)
    else if r == 10 then Row(37, 35, 33, 31, 29, 27, 25, 23, 21, 20, 18, 17, 15, 14, 12, 11)
    else if r == 11 then Row(10, 9, 7, 6, 5, 5, 4, 3, 2, 2, 1, 1, 1, 0, 0, 0)
    else if r == 12 then Row(0, 0, 0, 0, 1, 1, 1, 2, 2, 3, 4, 5, 5, 6, 7, 9)
    else if r == 13 then Row(10, 11, 12, 14, 15, 17, 18, 20, 21, 23, 25, 27, 29, 31, 33, 35)
    else if r == 14 then Row(37, 40, 42, 44, 47, 49, 52, 54, 57, 59, 62, 65, 67, 70, 73, 76)
    else Row(79, 82, 85, 88, 90, 93, 97, 100, 103, 106, 109, 112, 115, 118, 121, 124)
  }

  /** `gamma8(x)`: entry x of the gamma table. */
  function Gamma8(x: u8): u8 {
    Entry(GammaRow(x / 16), x % 16)
  }

  /** `sine8(x)`: entry x of the sine table. */
  function Sine8(x: u8): u8 {
    Entry(SineRow(x / 16), x % 16)
  }

  /** A sequence whose adjacent elements never decrease is sorted. */
  lemma {:induction false} AdjacentSorted(s: seq<int>)
    requires forall k :: 0 <= k < |s| - 1 ==> s[k] <= s[k + 1]
    ensures forall i, j :: 0 <= i <= j < |s| ==> s[i] <= s[j]
  {
    if |s| > 1 {
      var t := s[1..];
      assert forall k :: 0 <= k < |t| - 1 ==> t[k] <= t[k + 1] by {
        forall k | 0 <= k < |t| - 1 ensures t[k] <= t[k + 1] {
          assert t[k] == s[k + 1] && t[k + 1] == s[k + 2];
        }
      }
      AdjacentSorted(t);
      forall i, j | 0 <= i <= j < |s| ensures s[i] <= s[j] {
        if 0 < i {
          assert s[i] == t[i - 1] && s[j] == t[j - 1];
        } else if 0 < j {
          assert s[1] == t[0] && s[j] == t[j - 1];
        }
      }
    }
  }

  // Adjacent entries of the gamma table, sixteen at a time. The table is
  // split into blocks only so that each proof stays small for the solver;
  // Gamma8Monotone joins them.
  lemma Gamma8SortedBlock0()
    ensures forall k :: 0 <= k < 16 ==> Gamma8(k) <= Gamma8(k + 1)
  {
    forall k | 0 <= k < 16 ensures Gamma8(k) <= Gamma8(k + 1) {
      assert k / 16 == 0 && k % 16 == k - 0;
      assert k == 0 || k == 1 || k == 2 || k == 3 || k == 4 || k == 5 || k == 6 || k == 7 || k == 8 || k == 9 || k == 10 || k == 11 || k == 12 || k == 13 || k == 14 || k == 15;
    }
  }

  lemma Gamma8SortedBlock1()
    ensures forall k :: 16 <= k < 32 ==> Gamma8(k) <= Gamma8(k + 1)
  {
    forall k | 16 <= k < 32 ensures Gamma8(k) <= Gamma8(k + 1) {
      assert k / 16 == 1 && k % 16 == k - 16;
      assert k == 16 || k == 17 || k == 18 || k == 19 || k == 20 || k == 21 || k == 22 || k == 23 || k == 24 || k == 25 || k == 26 || k == 27 || k == 28 || k == 29 || k == 30 || k == 31;
    }
  }

  lemma Gamma8SortedBlock2()
    ensures forall k :: 32 <= k < 48 ==> Gamma8(k) <= Gamma8(k + 1)
  {
    forall k | 32 <= k < 48 ensures Gamma8(k) <= Gamma8(k + 1) {
      assert k / 16 == 2 && k % 16 == k - 32;
      assert k == 32 || k == 33 || k == 34 || k == 35 || k == 36 || k == 37 || k == 38 || k == 39 || k == 40 || k == 41 || k == 42 || k == 43 || k == 44 || k == 45 || k == 46 || k == 47;
    }
  }

  lemma Gamma8SortedBlock3()
    ensures forall k :: 48 <= k < 64 ==> Gamma8(k) <= Gamma8(k + 1)
  {
    forall k | 48 <= k < 64 ensures Gamma8(k) <= Gamma8(k + 1) {
      assert k / 16 == 3 && k % 16 == k - 48;
      assert k == 48 || k == 49 || k == 50 || k == 51 || k == 52 || k == 53 || k == 54 || k == 55 || k == 56 || k == 57 || k == 58 || k == 59 || k == 60 || k == 61 || k == 62 || k == 63;
    }
  }

  lemma Gamma8SortedBlock4()
    ensures forall k :: 64 <= k < 80 ==> Gamma8(k) <= Gamma8(k + 1)
  {
    forall k | 64 <= k < 80 ensures Gamma8(k) <= Gamma8(k + 1) {
      assert k / 16 == 4 && k % 16 == k - 64;
      assert k == 64 || k == 65 || k == 66 || k == 67 || k == 68 || k == 69 || k == 70 || k == 71 || k == 72 || k == 73 || k == 74 || k == 75 || k == 76 || k == 77 || k == 78 || k == 79;
    }
  }

  lemma Gamma8SortedBlock5()
    ensures forall k :: 80 <= k < 96 ==> Gamma8(k) <= Gamma8(k + 1)
  {
    forall k | 80 <= k < 96 ensures Gamma8(k) <= Gamma8(k + 1) {
      assert k / 16 == 5 && k % 16 == k - 80;
      assert k == 80 || k == 81 || k == 82 || k == 83 || k == 84 || k == 85 || k == 86 || k == 87 || k == 88 || k == 89 || k == 90 || k == 91 || k == 92 || k == 93 || k == 94 || k == 95;
    }
  }

  lemma Gamma8SortedBlock6()
    ensures forall k :: 96 <= k < 112 ==> Gamma8(k) <= Gamma8(k + 1)
  {
    forall k | 96 <= k < 112 ensures Gamma8(k) <= Gamma8(k + 1) {
      assert k / 16 == 6 && k % 16 == k - 96;
      assert k == 96 || k == 97 || k == 98 || k == 99 || k == 100 || k == 101 || k == 102 || k == 103 || k == 104 || k == 105 || k == 106 || k == 107 || k == 108 || k == 109 || k == 110 || k == 111;
    }
  }

  lemma Gamma8SortedBlock7()
    ensures forall k :: 112 <= k < 128 ==> Gamma8(k) <= Gamma8(k + 1)
  {
    forall k | 112 <= k < 128 ensures Gamma8(k) <= Gamma8(k + 1) {
      assert k / 16 == 7 && k % 16 == k - 112;
      assert k == 112 || k == 113 || k == 114 || k == 115 || k == 116 || k == 117 || k == 118 || k == 119 || k == 120 || k == 121 || k == 122 || k == 123 || k == 124 || k == 125 || k == 126 || k == 127;
    }
  }

  lemma Gamma8SortedBlock8()
    ensures forall k :: 128 <= k < 144 ==> Gamma8(k) <= Gamma8(k + 1)
  {
    forall k | 128 <= k < 144 ensures Gamma8(k) <= Gamma8(k + 1) {
      assert k / 16 == 8 && k % 16 == k - 128;
      assert k == 128 || k == 129 || k == 130 || k == 131 || k == 132 || k == 133 || k == 134 || k == 135 || k == 136 || k == 137 || k == 138 || k == 139 || k == 140 || k == 141 || k == 142 || k == 143;
    }
  }

  lemma Gamma8SortedBlock9()
    ensures forall k :: 144 <= k < 160 ==> Gamma8(k) <= Gamma8(k + 1)
  {
    forall k | 144 <= k < 160 ensures Gamma8(k) <= Gamma8(k + 1) {
      assert k / 16 == 9 && k % 16 == k - 144;
      assert k == 144 || k == 145 || k == 146 || k == 147 || k == 148 || k == 149 || k == 150 || k == 151 || k == 152 || k == 153 || k == 154 || k == 155 || k == 156 || k == 157 || k == 158 || k == 159;
    }
  }

  lemma Gamma8SortedBlockA()
    ensures forall k :: 160 <= k < 176 ==> Gamma8(k) <= Gamma8(k + 1)
  {
    forall k | 160 <= k < 176 ensures Gamma8(k) <= Gamma8(k + 1) {
      assert k / 16 == 10 && k % 16 == k - 160;
      assert k == 160 || k == 161 || k == 162 || k == 163 || k == 164 || k == 165 || k == 166 || k == 167 || k == 168 || k == 169 || k == 170 || k == 171 || k == 172 || k == 173 || k == 174 || k == 175;
    }
  }

  lemma Gamma8SortedBlockB()
    ensures forall k :: 176 <= k < 192 ==> Gamma8(k) <= Gamma8(k + 1)
  {
    forall k | 176 <= k < 192 ensures Gamma8(k) <= Gamma8(k + 1) {
      assert k / 16 == 11 && k % 16 == k - 176;
      assert k == 176 || k == 177 || k == 178 || k == 179 || k == 180 || k == 181 || k == 182 || k == 183 || k == 184 || k == 185 || k == 186 || k == 187 || k == 188 || k == 189 || k == 190 || k == 191;
    }
  }

  lemma Gamma8SortedBlockC()
    ensures forall k :: 192 <= k < 208 ==> Gamma8(k) <= Gamma8(k + 1)
  {
    forall k | 192 <= k < 208 ensures Gamma8(k) <= Gamma8(k + 1) {
      assert k / 16 == 12 && k % 16 == k - 192;
      assert k == 192 || k == 193 || k == 194 || k == 195 || k == 196 || k == 197 || k == 198 || k == 199 || k == 200 || k == 201 || k == 202 || k == 203 || k == 204 || k == 205 || k == 206 || k == 207;
    }
  }

  lemma Gamma8SortedBlockD()
    ensures forall k :: 208 <= k < 224 ==> Gamma8(k) <= Gamma8(k + 1)
  {
    forall k | 208 <= k < 224 ensures Gamma8(k) <= Gamma8(k + 1) {
      assert k / 16 == 13 && k % 16 == k - 208;
      assert k == 208 || k == 209 || k == 210 || k == 211 || k == 212 || k == 213 || k == 214 || k == 215 || k == 216 || k == 217 || k == 218 || k == 219 || k == 220 || k == 221 || k == 222 || k == 223;
    }
  }

  lemma Gamma8SortedBlockE()
    ensures forall k :: 224 <= k < 240 ==> Gamma8(k) <= Gamma8(k + 1)
  {
    forall k | 224 <= k < 240 ensures Gamma8(k) <= Gamma8(k + 1) {
      assert k / 16 == 14 && k % 16 == k - 224;
      assert k == 224 || k == 225 || k == 226 || k == 227 || k == 228 || k == 229 || k == 230 || k == 231 || k == 232 || k == 233 || k == 234 || k == 235 || k == 236 || k == 237 || k == 238 || k == 239;
    }
  }

  lemma Gamma8SortedBlockF()
    ensures forall k :: 240 <= k < 255 ==> Gamma8(k) <= Gamma8(k + 1)
  {
    forall k | 240 <= k < 255 ensures Gamma8(k) <= Gamma8(k + 1) {
      assert k / 16 == 15 && k % 16 == k - 240 && (k + 1) / 16 == 15 && (k + 1) % 16 == k + 1 - 240;
      assert k == 240 || k == 241 || k == 242 || k == 243 || k == 244 || k == 245 || k == 246 || k == 247 || k == 248 || k == 249 || k == 250 || k == 251 || k == 252 || k == 253 || k == 254;
    }
  }


  /** `gamma8` never decreases, and fixes both ends of the range. */
  lemma Gamma8Monotone(x: u8, y: u8)
    requires x <= y
    ensures Gamma8(x) <= Gamma8(y)
    ensures Gamma8(0) == 0 && Gamma8(255) == 255
  {
    Gamma8SortedBlock0();
    Gamma8SortedBlock1();
    Gamma8SortedBlock2();
    Gamma8SortedBlock3();
    Gamma8SortedBlock4();
    Gamma8SortedBlock5();
    Gamma8SortedBlock6();
    Gamma8SortedBlock7();
    Gamma8SortedBlock8();
    Gamma8SortedBlock9();
    Gamma8SortedBlockA();
    Gamma8SortedBlockB();
    Gamma8SortedBlockC();
    Gamma8SortedBlockD();
    Gamma8SortedBlockE();
    Gamma8SortedBlockF();
    var s := seq(256, i requires 0 <= i < 256 => Gamma8(i));
    AdjacentSorted(s);
    assert s[x] <= s[y];
  }

  // The gamma table never raises a value, sixteen entries at a time (split
  // for the solver; Gamma8Dims joins the blocks).
  lemma Gamma8DimsBlock0()
    ensures forall x :: 0 <= x < 16 ==> Gamma8(x) <= x
  {
    forall x | 0 <= x < 16 ensures Gamma8(x) <= x {
      assert x / 16 == 0 && x % 16 == x - 0;
      assert x == 0 || x == 1 || x == 2 || x == 3 || x == 4 || x == 5 || x == 6 || x == 7 || x == 8 || x == 9 || x == 10 || x == 11 || x == 12 || x == 13 || x == 14 || x == 15;
    }
  }

  lemma Gamma8DimsBlock1()
    ensures forall x :: 16 <= x < 32 ==> Gamma8(x) <= x
  {
    forall x | 16 <= x < 32 ensures Gamma8(x) <= x {
      assert x / 16 == 1 && x % 16 == x - 16;
      assert x == 16 || x == 17 || x == 18 || x == 19 || x == 20 || x == 21 || x == 22 || x == 23 || x == 24 || x == 25 || x == 26 || x == 27 || x == 28 || x == 29 || x == 30 || x == 31;
    }
  }

  lemma Gamma8DimsBlock2()
    ensures forall x :: 32 <= x < 48 ==> Gamma8(x) <= x
  {
    forall x | 32 <= x < 48 ensures Gamma8(x) <= x {
      assert x / 16 == 2 && x % 16 == x - 32;
      assert x == 32 || x == 33 || x == 34 || x == 35 || x == 36 || x == 37 || x == 38 || x == 39 || x == 40 || x == 41 || x == 42 || x == 43 || x == 44 || x == 45 || x == 46 || x == 47;
    }
  }

  lemma Gamma8DimsBlock3()
    ensures forall x :: 48 <= x < 64 ==> Gamma8(x) <= x
  {
    forall x | 48 <= x < 64 ensures Gamma8(x) <= x {
      assert x / 16 == 3 && x % 16 == x - 48;
      assert x == 48 || x == 49 || x == 50 || x == 51 || x == 52 || x == 53 || x == 54 || x == 55 || x == 56 || x == 57 || x == 58 || x == 59 || x == 60 || x == 61 || x == 62 || x == 63;
    }
  }

  lemma Gamma8DimsBlock4()
    ensures forall x :: 64 <= x < 80 ==> Gamma8(x) <= x
  {
    forall x | 64 <= x < 80 ensures Gamma8(x) <= x {
      assert x / 16 == 4 && x % 16 == x - 64;
      assert x == 64 || x == 65 || x == 66 || x == 67 || x == 68 || x == 69 || x == 70 || x == 71 || x == 72 || x == 73 || x == 74 || x == 75 || x == 76 || x == 77 || x == 78 || x == 79;
    }
  }

  lemma Gamma8DimsBlock5()
    ensures forall x :: 80 <= x < 96 ==> Gamma8(x) <= x
  {
    forall x | 80 <= x < 96 ensures Gamma8(x) <= x {
      assert x / 16 == 5 && x % 16 == x - 80;
      assert x == 80 || x == 81 || x == 82 || x == 83 || x == 84 || x == 85 || x == 86 || x == 87 || x == 88 || x == 89 || x == 90 || x == 91 || x == 92 || x == 93 || x == 94 || x == 95;
    }
  }

  lemma Gamma8DimsBlock6()
    ensures forall x :: 96 <= x < 112 ==> Gamma8(x) <= x
  {
    forall x | 96 <= x < 112 ensures Gamma8(x) <= x {
      assert x / 16 == 6 && x % 16 == x - 96;
      assert x == 96 || x == 97 || x == 98 || x == 99 || x == 100 || x == 101 || x == 102 || x == 103 || x == 104 || x == 105 || x == 106 || x == 107 || x == 108 || x == 109 || x == 110 || x == 111;
    }
  }

  lemma Gamma8DimsBlock7()
    ensures forall x :: 112 <= x < 128 ==> Gamma8(x) <= x
  {
    forall x | 112 <= x < 128 ensures Gamma8(x) <= x {
      assert x / 16 == 7 && x % 16 == x - 112;
      assert x == 112 || x == 113 || x == 114 || x == 115 || x == 116 || x == 117 || x == 118 || x == 119 || x == 120 || x == 121 || x == 122 || x == 123 || x == 124 || x == 125 || x == 126 || x == 127;
    }
  }

  lemma Gamma8DimsBlock8()
    ensures forall x :: 128 <= x < 144 ==> Gamma8(x) <= x
  {
    forall x | 128 <= x < 144 ensures Gamma8(x) <= x {
      assert x / 16 == 8 && x % 16 == x - 128;
      assert x == 128 || x == 129 || x == 130 || x == 131 || x == 132 || x == 133 || x == 134 || x == 135 || x == 136 || x == 137 || x == 138 || x == 139 || x == 140 || x == 141 || x == 142 || x == 143;
    }
  }

  lemma Gamma8DimsBlock9()
    ensures forall x :: 144 <= x < 160 ==> Gamma8(x) <= x
  {
    forall x | 144 <= x < 160 ensures Gamma8(x) <= x {
      assert x / 16 == 9 && x % 16 == x - 144;
      assert x == 144 || x == 145 || x == 146 || x == 147 || x == 148 || x == 149 || x == 150 || x == 151 || x == 152 || x == 153 || x == 154 || x == 155 || x == 156 || x == 157 || x == 158 || x == 159;
    }
  }

  lemma Gamma8DimsBlockA()
    ensures forall x :: 160 <= x < 176 ==> Gamma8(x) <= x
  {
    forall x | 160 <= x < 176 ensures Gamma8(x) <= x {
      assert x / 16 == 10 && x % 16 == x - 160;
      assert x == 160 || x == 161 || x == 162 || x == 163 || x == 164 || x == 165 || x == 166 || x == 167 || x == 168 || x == 169 || x == 170 || x == 171 || x == 172 || x == 173 || x == 174 || x == 175;
    }
  }

  lemma Gamma8DimsBlockB()
    ensures forall x :: 176 <= x < 192 ==> Gamma8(x) <= x
  {
    forall x | 176 <= x < 192 ensures Gamma8(x) <= x {
      assert x / 16 == 11 && x % 16 == x - 176;
      assert x == 176 || x == 177 || x == 178 || x == 179 || x == 180 || x == 181 || x == 182 || x == 183 || x == 184 || x == 185 || x == 186 || x == 187 || x == 188 || x == 189 || x == 190 || x == 191;
    }
  }

  lemma Gamma8DimsBlockC()
    ensures forall x :: 192 <= x < 208 ==> Gamma8(x) <= x
  {
    forall x | 192 <= x < 208 ensures Gamma8(x) <= x {
      assert x / 16 == 12 && x % 16 == x - 192;
      assert x == 192 || x == 193 || x == 194 || x == 195 || x == 196 || x == 197 || x == 198 || x == 199 || x == 200 || x == 201 || x == 202 || x == 203 || x == 204 || x == 205 || x == 206 || x == 207;
    }
  }

  lemma Gamma8DimsBlockD()
    ensures forall x :: 208 <= x < 224 ==> Gamma8(x) <= x
  {
    forall x | 208 <= x < 224 ensures Gamma8(x) <= x {
      assert x / 16 == 13 && x % 16 == x - 208;
      assert x == 208 || x == 209 || x == 210 || x == 211 || x == 212 || x == 213 || x == 214 || x == 215 || x == 216 || x == 217 || x == 218 || x == 219 || x == 220 || x == 221 || x == 222 || x == 223;
    }
  }

  lemma Gamma8DimsBlockE()
    ensures forall x :: 224 <= x < 240 ==> Gamma8(x) <= x
  {
    forall x | 224 <= x < 240 ensures Gamma8(x) <= x {
      assert x / 16 == 14 && x % 16 == x - 224;
      assert x == 224 || x == 225 || x == 226 || x == 227 || x == 228 || x == 229 || x == 230 || x == 231 || x == 232 || x == 233 || x == 234 || x == 235 || x == 236 || x == 237 || x == 238 || x == 239;
    }
  }

  lemma Gamma8DimsBlockF()
    ensures forall x :: 240 <= x < 256 ==> Gamma8(x) <= x
  {
    forall x | 240 <= x < 256 ensures Gamma8(x) <= x {
      assert x / 16 == 15 && x % 16 == x - 240;
      assert x == 240 || x == 241 || x == 242 || x == 243 || x == 244 || x == 245 || x == 246 || x == 247 || x == 248 || x == 249 || x == 250 || x == 251 || x == 252 || x == 253 || x == 254 || x == 255;
    }
  }


  /** Gamma correction only ever dims a channel. */
  lemma Gamma8Dims(x: u8)
    ensures Gamma8(x) <= x
  {
    Gamma8DimsBlock0();
    Gamma8DimsBlock1();
    Gamma8DimsBlock2();
    Gamma8DimsBlock3();
    Gamma8DimsBlock4();
    Gamma8DimsBlock5();
    Gamma8DimsBlock6();
    Gamma8DimsBlock7();
    Gamma8DimsBlock8();
    Gamma8DimsBlock9();
    Gamma8DimsBlockA();
    Gamma8DimsBlockB();
    Gamma8DimsBlockC();
    Gamma8DimsBlockD();
    Gamma8DimsBlockE();
    Gamma8DimsBlockF();
  }

  /** The four quarter-turn points of `sine8`. */
  lemma Sine8Landmarks()
    ensures Sine8(0) == 128 && Sine8(64) == 255 && Sine8(128) == 128 && Sine8(192) == 0
  {
  }

  // The sine table is symmetric about a quarter turn, sixteen entries at a
  // time (split for the solver; Sine8Mirror joins the blocks).
  lemma Sine8MirrorBlock0()
    ensures forall x :: 0 <= x < 16 ==> Sine8(x) == Sine8(128 - x)
  {
    forall x | 0 <= x < 16 ensures Sine8(x) == Sine8(128 - x) {
      assert x / 16 == 0 && x % 16 == x - 0;
      assert x == 0 || x == 1 || x == 2 || x == 3 || x == 4 || x == 5 || x == 6 || x == 7 || x == 8 || x == 9 || x == 10 || x == 11 || x == 12 || x == 13 || x == 14 || x == 15;
    }
  }

  lemma Sine8MirrorBlock1()
    ensures forall x :: 16 <= x < 32 ==> Sine8(x) == Sine8(128 - x)
  {
    forall x | 16 <= x < 32 ensures Sine8(x) == Sine8(128 - x) {
      assert x / 16 == 1 && x % 16 == x - 16;
      assert x == 16 || x == 17 || x == 18 || x == 19 || x == 20 || x == 21 || x == 22 || x == 23 || x == 24 || x == 25 || x == 26 || x == 27 || x == 28 || x == 29 || x == 30 || x == 31;
    }
  }

  lemma Sine8MirrorBlock2()
    ensures forall x :: 32 <= x < 48 ==> Sine8(x) == Sine8(128 - x)
  {
    forall x | 32 <= x < 48 ensures Sine8(x) == Sine8(128 - x) {
      assert x / 16 == 2 && x % 16 == x - 32;
      assert x == 32 || x == 33 || x == 34 || x == 35 || x == 36 || x == 37 || x == 38 || x == 39 || x == 40 || x == 41 || x == 42 || x == 43 || x == 44 || x == 45 || x == 46 || x == 47;
    }
  }

  lemma Sine8MirrorBlock3()
    ensures forall x :: 48 <= x < 64 ==> Sine8(x) == Sine8(128 - x)
  {
    forall x | 48 <= x < 64 ensures Sine8(x) == Sine8(128 - x) {
      assert x / 16 == 3 && x % 16 == x - 48;
      assert x == 48 || x == 49 || x == 50 || x == 51 || x == 52 || x == 53 || x == 54 || x == 55 || x == 56 || x == 57 || x == 58 || x == 59 || x == 60 || x == 61 || x == 62 || x == 63;
    }
  }

  lemma Sine8MirrorBlock4()
    ensures forall x :: 64 <= x < 80 ==> Sine8(x) == Sine8(128 - x)
  {
    forall x | 64 <= x < 80 ensures Sine8(x) == Sine8(128 - x) {
      assert x / 16 == 4 && x % 16 == x - 64;
      assert x == 64 || x == 65 || x == 66 || x == 67 || x == 68 || x == 69 || x == 70 || x == 71 || x == 72 || x == 73 || x == 74 || x == 75 || x == 76 || x == 77 || x == 78 || x == 79;
    }
  }

  lemma Sine8MirrorBlock5()
    ensures forall x :: 80 <= x < 96 ==> Sine8(x) == Sine8(128 - x)
  {
    forall x | 80 <= x < 96 ensures Sine8(x) == Sine8(128 - x) {
      assert x / 16 == 5 && x % 16 == x - 80;
      assert x == 80 || x == 81 || x == 82 || x == 83 || x == 84 || x == 85 || x == 86 || x == 87 || x == 88 || x == 89 || x == 90 || x == 91 || x == 92 || x == 93 || x == 94 || x == 95;
    }
  }

  lemma Sine8MirrorBlock6()
    ensures forall x :: 96 <= x < 112 ==> Sine8(x) == Sine8(128 - x)
  {
    forall x | 96 <= x < 112 ensures Sine8(x) == Sine8(128 - x) {
      assert x / 16 == 6 && x % 16 == x - 96;
      assert x == 96 || x == 97 || x == 98 || x == 99 || x == 100 || x == 101 || x == 102 || x == 103 || x == 104 || x == 105 || x == 106 || x == 107 || x == 108 || x == 109 || x == 110 || x == 111;
    }
  }

  lemma Sine8MirrorBlock7()
    ensures forall x :: 112 <= x < 128 ==> Sine8(x) == Sine8(128 - x)
  {
    forall x | 112 <= x < 128 ensures Sine8(x) == Sine8(128 - x) {
      assert x / 16 == 7 && x % 16 == x - 112;
      assert x == 112 || x == 113 || x == 114 || x == 115 || x == 116 || x == 117 || x == 118 || x == 119 || x == 120 || x == 121 || x == 122 || x == 123 || x == 124 || x == 125 || x == 126 || x == 127;
    }
  }

  lemma Sine8MirrorBlock8()
    ensures forall x :: 128 <= x < 129 ==> Sine8(x) == Sine8(128 - x)
  {
    forall x | 128 <= x < 129 ensures Sine8(x) == Sine8(128 - x) {
      assert x / 16 == 8 && x % 16 == x - 128 && (128 - x) / 16 == 0 && (128 - x) % 16 == 128 - x - 0;
      assert x == 128;
    }
  }


  /** `sine8` is symmetric about its peak at a quarter turn. */
  lemma Sine8Mirror(x: u8)
    requires x <= 128
    ensures Sine8(x) == Sine8(128 - x)
  {
    Sine8MirrorBlock0();
    Sine8MirrorBlock1();
    Sine8MirrorBlock2();
    Sine8MirrorBlock3();
    Sine8MirrorBlock4();
    Sine8MirrorBlock5();
    Sine8MirrorBlock6();
    Sine8MirrorBlock7();
    Sine8MirrorBlock8();
  }

  // Half a turn apart, the sine table sums to the midline within rounding
  // (split for the solver; Sine8HalfTurn joins the blocks).
  lemma Sine8HalfTurnBlock0()
    ensures forall x :: 0 <= x < 16 ==> 255 <= Sine8(x) + Sine8(x + 128) <= 256
  {
    forall x | 0 <= x < 16 ensures 255 <= Sine8(x) + Sine8(x + 128) <= 256 {
      assert x / 16 == 0 && x % 16 == x - 0 && (x + 128) / 16 == 8 && (x + 128) % 16 == x + 128 - 128;
      assert x == 0 || x == 1 || x == 2 || x == 3 || x == 4 || x == 5 || x == 6 || x == 7 || x == 8 || x == 9 || x == 10 || x == 11 || x == 12 || x == 13 || x == 14 || x == 15;
    }
  }

  lemma Sine8HalfTurnBlock1()
    ensures forall x :: 16 <= x < 32 ==> 255 <= Sine8(x) + Sine8(x + 128) <= 256
  {
    forall x | 16 <= x < 32 ensures 255 <= Sine8(x) + Sine8(x + 128) <= 256 {
      assert x / 16 == 1 && x % 16 == x - 16 && (x + 128) / 16 == 9 && (x + 128) % 16 == x + 128 - 144;
      assert x == 16 || x == 17 || x == 18 || x == 19 || x == 20 || x == 21 || x == 22 || x == 23 || x == 24 || x == 25 || x == 26 || x == 27 || x == 28 || x == 29 || x == 30 || x == 31;
    }
  }

  lemma Sine8HalfTurnBlock2()
    ensures forall x :: 32 <= x < 48 ==> 255 <= Sine8(x) + Sine8(x + 128) <= 256
  {
    forall x | 32 <= x < 48 ensures 255 <= Sine8(x) + Sine8(x + 128) <= 256 {
      assert x / 16 == 2 && x % 16 == x - 32 && (x + 128) / 16 == 10 && (x + 128) % 16 == x + 128 - 160;
      assert x == 32 || x == 33 || x == 34 || x == 35 || x == 36 || x == 37 || x == 38 || x == 39 || x == 40 || x == 41 || x == 42 || x == 43 || x == 44 || x == 45 || x == 46 || x == 47;
    }
  }

  lemma Sine8HalfTurnBlock3()
    ensures forall x :: 48 <= x < 64 ==> 255 <= Sine8(x) + Sine8(x + 128) <= 256
  {
    forall x | 48 <= x < 64 ensures 255 <= Sine8(x) + Sine8(x + 128) <= 256 {
      assert x / 16 == 3 && x % 16 == x - 48 && (x + 128) / 16 == 11 && (x + 128) % 16 == x + 128 - 176;
      assert x == 48 || x == 49 || x == 50 || x == 51 || x == 52 || x == 53 || x == 54 || x == 55 || x == 56 || x == 57 || x == 58 || x == 59 || x == 60 || x == 61 || x == 62 || x == 63;
    }
  }

  lemma Sine8HalfTurnBlock4()
    ensures forall x :: 64 <= x < 80 ==> 255 <= Sine8(x) + Sine8(x + 128) <= 256
  {
    forall x | 64 <= x < 80 ensures 255 <= Sine8(x) + Sine8(x + 128) <= 256 {
      assert x / 16 == 4 && x % 16 == x - 64 && (x + 128) / 16 == 12 && (x + 128) % 16 == x + 128 - 192;
      assert x == 64 || x == 65 || x == 66 || x == 67 || x == 68 || x == 69 || x == 70 || x == 71 || x == 72 || x == 73 || x == 74 || x == 75 || x == 76 || x == 77 || x == 78 || x == 79;
    }
  }

  lemma Sine8HalfTurnBlock5()
    ensures forall x :: 80 <= x < 96 ==> 255 <= Sine8(x) + Sine8(x + 128) <= 256
  {
    forall x | 80 <= x < 96 ensures 255 <= Sine8(x) + Sine8(x + 128) <= 256 {
      assert x / 16 == 5 && x % 16 == x - 80 && (x + 128) / 16 == 13 && (x + 128) % 16 == x + 128 - 208;
      assert x == 80 || x == 81 || x == 82 || x == 83 || x == 84 || x == 85 || x == 86 || x == 87 || x == 88 || x == 89 || x == 90 || x == 91 || x == 92 || x == 93 || x == 94 || x == 95;
    }
  }

  lemma Sine8HalfTurnBlock6()
    ensures forall x :: 96 <= x < 112 ==> 255 <= Sine8(x) + Sine8(x + 128) <= 256
  {
    forall x | 96 <= x < 112 ensures 255 <= Sine8(x) + Sine8(x + 128) <= 256 {
      assert x / 16 == 6 && x % 16 == x - 96 && (x + 128) / 16 == 14 && (x + 128) % 16 == x + 128 - 224;
      assert x == 96 || x == 97 || x == 98 || x == 99 || x == 100 || x == 101 || x == 102 || x == 103 || x == 104 || x == 105 || x == 106 || x == 107 || x == 108 || x == 109 || x == 110 || x == 111;
    }
  }

  lemma Sine8HalfTurnBlock7()
    ensures forall x :: 112 <= x < 128 ==> 255 <= Sine8(x) + Sine8(x + 128) <= 256
  {
    forall x | 112 <= x < 128 ensures 255 <= Sine8(x) + Sine8(x + 128) <= 256 {
      assert x / 16 == 7 && x % 16 == x - 112 && (x + 128) / 16 == 15 && (x + 128) % 16 == x + 128 - 240;
      assert x == 112 || x == 113 || x == 114 || x == 115 || x == 116 || x == 117 || x == 118 || x == 119 || x == 120 || x == 121 || x == 122 || x == 123 || x == 124 || x == 125 || x == 126 || x == 127;
    }
  }


  /** Half a turn later `sine8` is the reflection about the midline 127.5,
      give or take the rounding of the table. */
  lemma Sine8HalfTurn(x: u8)
    requires x < 128
    ensures 255 <= Sine8(x) + Sine8(x + 128) <= 256
  {
    Sine8HalfTurnBlock0();
    Sine8HalfTurnBlock1();
    Sine8HalfTurnBlock2();
    Sine8HalfTurnBlock3();
    Sine8HalfTurnBlock4();
    Sine8HalfTurnBlock5();
    Sine8HalfTurnBlock6();
    Sine8HalfTurnBlock7();
  }
}
