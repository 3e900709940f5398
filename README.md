# DotStar (APA102) strip driver — a Dafny model

This project models the core of a driver for DotStar (APA102-family) LED
strips. It covers three pieces.

1. **The strip object** (`DotStarStrip.DotStar`).
   - State: a pixel buffer of three bytes per pixel, a pixel count, a stored
     brightness in a "+1" encoding, and the red/green/blue slot offsets
     decoded from a colour-order flag.
   - Operations: construction and `updateLength`, `clear`, both
     `setPixelColor`s, `getPixelColor`, `fill`, `rainbow`, `setBrightness`,
     `getBrightness` and `numPixels`.
   - `show` serialises the buffer into the APA102 wire frame:
     - four zero bytes;
     - per pixel, 0xFF and the three channel bytes, raw or scaled by the
       brightness;
     - then `(N + 15) / 16` bytes of 0xFF.
   - The SPI device is a `Transport` object that records every byte
     transferred.
   - The methods are imperative Dafny over an `array<u8>`. Each is proved
     against pure specifications of the buffer in `PixelFrame`:
     - painting a pixel (`PaintPixel`);
     - painting a run of pixels one after another (`PaintPrefix`);
     - reading a pixel back (`PixelColor`);
     - the frame (`Frame`).
2. **Colour arithmetic** (`ColorTables`, `ColorHsv`).
   - The colour-order flags and their decoding.
   - Packed 0x00RRGGBB colours.
   - The constant `gamma8` and `sine8` tables.
   - `ColorHSV`: the integer hexcone of 1530 hue steps, then fixed-point
     saturation and value.
   - `gamma32`: a byte loop, proved against a per-byte specification.
   - The hue schedule of `rainbow`, with C's truncating division.
3. **The five-bit "HD" gamma quantizer** (`FiveBitHdGamma`).
   - It expands an 8-bit colour to 16 bits per channel through a gamma
     curve. The curve is a function parameter whose library value is the
     16-bit table.
   - It chooses one power level from {31, 15, 7, 3, 1} by a ladder of
     overflow tests.
   - It rescales the channels and keeps their high bytes.
   - The imperative ladder (`PowerLadder`) and the whole routine
     (`FiveBitHdGammaBitshift`) are proved equal to a closed form
     (`PowerFor`, `HdGamma`).

C's fixed-width integers are subset types of `int` (`Bytes.u8`, `u16`, `i8`,
`u32`). Every wrap-around the C code relies on is written out as `% 2^k`:
- the stored brightness;
- `fill`'s 16-bit end index;
- the 16-bit hue in `rainbow`;
- `uint16_t` casts.

The shift-and-or packing of the source is written as sums of disjoint byte
fields. Products and quotients that proofs have to carry along are written
with `Bytes.Product` (repeated addition) and `Bytes.Quotient` (repeated
subtraction). `ProductIsMul` and `QuotientIsDiv` tie them to `*` and `/`.
The 256-entry tables are kept as sixteen rows of sixteen entries
(`ColorTables.Row`); the values are those of the source tables.

Two facts about the code that are easy to get wrong:
- **HD quantizer on black.** For input (0, 0, 0) every overflow test of
  the ladder passes, so the power ends at 1, not 31.
  `FiveBitHdGamma.HdGammaFixedPoints` proves this.
- **End-frame sufficiency.** `(N + 15) / 16` end-frame bytes can give fewer
  than ceil((N + 1) / 2) one-bits: at N = 16 they give 8 against 9. The
  bound in the source's own comment, `(N + 1) / 2` rounded down, does hold,
  and `PixelFrame.EndFrameSufficient` proves that form.

## Model

| member | source | states |
|---|---|---|
| ColorTables.DecodeOrder | Adafruit_DotStar.cpp:57-58 | the three slot offsets are the 2-bit fields of the flag, each below 4 |
| ColorTables.ColorOrdersArePermutations | Adafruit_DotStar.h:31-38 | among flags using only the six order bits, a flag decodes to a permutation of slots {0,1,2} if and only if it is one of the six documented orders |
| ColorTables.MonoIsNotAPermutation | Adafruit_DotStar.h:39 | the mono flag decodes to red and green sharing a slot, so it is not a colour order |
| ColorTables.ColorOrderNames | Adafruit_DotStar.h:33-38 | each flag places red, green and blue in the slots its name spells (RGB, RBG, GRB, GBR, BRG, BGR) |
| ColorTables.Color | Adafruit_DotStar.h:183-185 | the packed colour is below 2^24 and its red, green and blue bytes are r, g and b |
| ColorTables.ColorOfChannels | Adafruit_DotStar.cpp:258-260 | extracting the three channels of any word and repacking them gives the word's low 24 bits |
| ColorTables.Gamma8 | Adafruit_DotStar.h:169-171 | `gamma8(x)` is entry x of the 256-entry gamma table, held as the source's literal rows; Gamma8Monotone and Gamma8Dims prove it never decreases, fixes 0 and 255 and never exceeds x |
| ColorTables.Gamma8Monotone | Adafruit_DotStar.h:80-98 | the gamma table never decreases, maps 0 to 0 and maps 255 to 255 |
| ColorTables.Gamma8Dims | Adafruit_DotStar.h:80-98 | every gamma-table entry is at most its index |
| ColorTables.Sine8 | Adafruit_DotStar.h:155-157 | `sine8(x)` is entry x of the 256-entry sine table, held as the source's literal rows; Sine8Landmarks, Sine8Mirror and Sine8HalfTurn give its landmarks, its symmetry about a quarter turn and its half-turn sums |
| ColorTables.Sine8Landmarks | Adafruit_DotStar.h:52-70 | sine8 is 128 at 0 and at 128, 255 at 64 and 0 at 192 |
| ColorTables.Sine8Mirror | Adafruit_DotStar.h:52-70 | sine8 is symmetric about its peak: sine8(x) == sine8(128 - x) |
| ColorTables.Sine8HalfTurn | Adafruit_DotStar.h:52-70 | half a turn apart, two sine8 values sum to 255 or 256 |
| ColorHsv.HueStep | Adafruit_DotStar.cpp:332 | the remapped hue is in 0..1530 and is the step nearest to hue * 1530 / 65536 |
| ColorHsv.Hexcone | Adafruit_DotStar.cpp:355-385 | every hexcone colour has one channel at 255 and one at 0 |
| ColorHsv.HexconeMatchesSegments | Adafruit_DotStar.cpp:355-385 | the nested tests compute the same colour as the divide-by-255 segment table |
| ColorHsv.HexconeIsContinuous | Adafruit_DotStar.cpp:338-352 | consecutive steps change each channel by at most one, and step 1530 is red like step 0 |
| ColorHsv.HexconeIsInjective | Adafruit_DotStar.cpp:338-352 | steps 0 to 1529 are 1530 distinct colours |
| ColorHsv.SatValProduct | Adafruit_DotStar.cpp:388-393 | the per-channel intermediate `(((c * s1) >> 8) + s2) * v1` fits in 16 bits and its high byte is at most val |
| ColorHsv.SatValEnds | Adafruit_DotStar.cpp:388-393 | with saturation 0 the high byte is val; with saturation and value 255 it is the channel itself |
| ColorHsv.ApplySatVal | Adafruit_DotStar.cpp:388-393 | a channel after saturation and value is at most val, is val at saturation 0, and is unchanged at full saturation and value |
| ColorHsv.ColorHsv | Adafruit_DotStar.cpp:320-394 | the result packs the saturation/value-scaled hexcone channels of the remapped hue |
| ColorHsv.PackHighBytes | Adafruit_DotStar.cpp:391-393 | masking and shifting the three 16-bit intermediates packs their high bytes as a colour |
| ColorHsv.ColorHsvBoundedByValue | Adafruit_DotStar.cpp:320-394 | the result is below 2^24 and no channel exceeds val |
| ColorHsv.ColorHsvGrey | Adafruit_DotStar.cpp:320-394 | saturation 0 gives the grey (val, val, val) for every hue |
| ColorHsv.ColorHsvBlack | Adafruit_DotStar.cpp:320-394 | value 0 gives 0 for every hue and saturation |
| ColorHsv.ColorHsvPureHue | Adafruit_DotStar.cpp:320-394 | at saturation and value 255 the result is the hexcone colour itself |
| ColorHsv.ColorHsvPrimaries | Adafruit_DotStar.cpp:324-336 | hues 0 and 65535 give 0xFF0000, 21845 gives 0x00FF00 and 43690 gives 0x0000FF |
| ColorHsv.ColorHsvRollover | Adafruit_DotStar.cpp:333-336 | hues 65535 and 0 give the same colour for every saturation and value |
| ColorHsv.Gamma32 | Adafruit_DotStar.cpp:452-465 | each of the four bytes of the result is gamma8 of the same byte of x |
| ColorHsv.ApplyGamma32 | Adafruit_DotStar.cpp:462-464 | the byte loop returns `Gamma32(x)` |
| ColorHsv.Gamma32OfColor | Adafruit_DotStar.cpp:452-465 | on a packed colour, gamma32 corrects each channel and keeps the top byte 0 |
| ColorHsv.TruncDiv | Adafruit_DotStar.cpp:489 | C's division lies between 0 and the dividend, on the dividend's side |
| ColorHsv.TruncDivMatchesDiv | Adafruit_DotStar.cpp:489 | C's division is Euclidean division for a non-negative dividend and minus the quotient of the magnitude for a negative one |
| ColorHsv.TruncDivIsOdd | Adafruit_DotStar.cpp:489 | C's division commutes with negation of the dividend |
| ColorHsv.HueColorChannels | Adafruit_DotStar.cpp:490-492 | the wheel colour of a hue is ColorHSV's result, with gamma8 applied to each channel when gammify is set, and is below 2^24 |
| ColorHsv.RainbowHue | Adafruit_DotStar.cpp:489 | the hue of pixel i of n is first_hue plus `i * reps * 65536 / n` under C's truncating division, modulo 2^16; WheelHue proves the 32-bit computation equals it, RainbowHueSymmetry gives pixel 0 and the mirror for negated reps |
| ColorHsv.RainbowHueSymmetry | Adafruit_DotStar.cpp:474-476 | pixel 0 gets first_hue, and negating reps mirrors every pixel's hue about first_hue modulo 2^16 |
| PixelFrame.PaintPixel | Adafruit_DotStar.cpp:238-262 | both `setPixelColor`s write the three channel bytes into pixel n's slots at the colour order's offsets; the buffer keeps its length, and PaintPixelInside, PaintPixelOutside and PaintThenRead give its contents |
| PixelFrame.PaintPixelInside | Adafruit_DotStar.cpp:240-245 | after writing pixel n, its three slots hold the written channels |
| PixelFrame.PaintPixelOutside | Adafruit_DotStar.cpp:240-245 | writing pixel n changes no byte outside bytes 3n .. 3n + 2 |
| PixelFrame.PixelColor | Adafruit_DotStar.cpp:402-408 | the colour read from pixel n is below 2^24 and its channels are the bytes in n's red, green and blue slots |
| PixelFrame.PaintThenRead | Adafruit_DotStar.cpp:255-262 | reading a pixel after setting it to c gives c with its top byte cleared, whatever the colour order |
| PixelFrame.PaintLeavesOthers | Adafruit_DotStar.cpp:255-262 | setting pixel n leaves every other pixel's channels unchanged |
| PixelFrame.PaintPrefix | Adafruit_DotStar.cpp:293-295 | painting a run of pixels keeps the buffer length |
| PixelFrame.PaintPrefixNext | Adafruit_DotStar.cpp:293-295 | one more loop pass paints one more pixel of the run |
| PixelFrame.PaintPrefixOutside | Adafruit_DotStar.cpp:293-295 | painting a run changes no byte outside the run's pixels |
| PixelFrame.PaintPrefixKeeps | Adafruit_DotStar.cpp:293-295 | every pixel outside the run keeps its channels |
| PixelFrame.PaintPrefixStep | Adafruit_DotStar.cpp:293-295 | the last pass gives its pixel the last colour and leaves every other pixel as before |
| PixelFrame.PaintPrefixInside | Adafruit_DotStar.cpp:293-295 | every pixel of the run holds the channels of its colour |
| PixelFrame.PaintPrefixColor | Adafruit_DotStar.cpp:293-295 | every pixel of the run reads back as its colour with the top byte cleared |
| PixelFrame.SameChannelsSameColor | Adafruit_DotStar.cpp:402-408 | two buffers with the same channels at pixel p read the same colour there |
| PixelFrame.FillEnd | Adafruit_DotStar.cpp:282-291 | the end is the strip length when count is 0; otherwise first + count clipped to the strip; when first + count wraps past 2^16, the end lies before first |
| PixelFrame.FillColors | Adafruit_DotStar.cpp:275-296 | fill's colours are all c and stay inside the strip |
| PixelFrame.FillPaints | Adafruit_DotStar.cpp:275-296 | after fill, every pixel from first up to the end reads back as c without its top byte |
| PixelFrame.FillKeeps | Adafruit_DotStar.cpp:275-296 | after fill, every other pixel of the strip reads back as before |
| PixelFrame.EncodeBrightness | Adafruit_DotStar.cpp:423-431 | the stored value decodes back to the value set, and is 0 (no scaling) exactly when 255 is set |
| PixelFrame.DecodeBrightness | Adafruit_DotStar.cpp:437-439 | decoding inverts the +1 encoding for every stored value, so a fresh strip (stored 0) reports 255 |
| PixelFrame.ScaleByte | Adafruit_DotStar.cpp:194 | a scaled byte never exceeds the channel, and stored brightness 1 sends 0 |
| PixelFrame.OutByte | Adafruit_DotStar.cpp:190-201 | stored brightness 0 sends the byte raw; any other value scales it down |
| PixelFrame.ScaleByteMonotone | Adafruit_DotStar.cpp:194 | a higher stored brightness never sends a smaller byte |
| PixelFrame.EndFrame | Adafruit_DotStar.cpp:214-215 | the end frame is (n + 15) / 16 bytes, all 0xFF |
| PixelFrame.EndFrameSufficient | Adafruit_DotStar.cpp:205-215 | the end frame gives at least (n + 1) / 2 one-bits, and for n ≤ 4080 fits a `uint8_t` count |
| PixelFrame.OutBytes | Adafruit_DotStar.cpp:193-200 | each channel byte goes out through OutByte, in storage order |
| PixelFrame.Frame | Adafruit_DotStar.cpp:174-219 | the bytes `show` sends: four zero bytes, then 0xFF and three channel bytes per pixel, then (n + 15) / 16 bytes of 0xFF; FrameParts, FrameLength and FramePixel state its layout and Show is proved to send it |
| PixelFrame.FrameParts | Adafruit_DotStar.cpp:185-215 | start frame, pixel data and end frame sent one after the other make up the frame |
| PixelFrame.PixelDataLength | Adafruit_DotStar.cpp:189-202 | the pixel data is four bytes per pixel |
| PixelFrame.PixelDataAt | Adafruit_DotStar.cpp:189-202 | pixel i's header 0xFF is at 4i and its channel byte j, raw or scaled, is at 4i + 1 + j |
| PixelFrame.FrameLength | Adafruit_DotStar.cpp:174-219 | the frame has 4 + 4N + (N + 15) / 16 bytes: four zeros first and 0xFF bytes after the pixel data |
| PixelFrame.FramePixel | Adafruit_DotStar.cpp:174-219 | in the frame, pixel i's 0xFF is at 4 + 4i, followed by its three channel bytes in storage order |
| DotStarStrip.Transport.Transfer | Adafruit_DotStar.cpp:187 | a transfer appends exactly its byte to what has been sent |
| DotStarStrip.SendScaledPixel | Adafruit_DotStar.cpp:192-194 | one pass of the scaled pixel loop sends 0xFF and the pixel's three bytes scaled by the brightness |
| DotStarStrip.SendRawPixel | Adafruit_DotStar.cpp:198-200 | one pass of the raw pixel loop sends 0xFF and the pixel's three bytes unchanged |
| DotStarStrip.RainbowColors | Adafruit_DotStar.cpp:488-494 | rainbow produces one colour per pixel |
| DotStarStrip.RainbowColorsAt | Adafruit_DotStar.cpp:489-492 | pixel i's colour is the wheel colour of its hue `first_hue + (i * reps * 65536) / n` |
| DotStarStrip.WheelHue | Adafruit_DotStar.cpp:489 | the `int` product `i * reps * 65536` stays within a 32-bit `int`, and the hue computation, stored in a `uint16_t`, is RainbowHue |
| DotStarStrip.WheelColor | Adafruit_DotStar.cpp:489-492 | the loop body's colour is pixel i's rainbow colour |
| DotStarStrip.RainbowPixels | Adafruit_DotStar.cpp:485-495 | after rainbow, every pixel reads back as the wheel colour of its hue |
| DotStarStrip.DotStar.constructor | Adafruit_DotStar.cpp:56-82 | the offsets are decoded from the flag and brightness starts at 0; on success the strip has n pixels, all zero, in a freshly allocated buffer, otherwise no buffer and 0 pixels; nothing has been sent |
| DotStarStrip.DotStar.UpdateLength | Adafruit_DotStar.cpp:141-153 | on success the pixel count is n and the fresh buffer holds 3n zero bytes; otherwise no buffer and 0 pixels; brightness is kept |
| DotStarStrip.DotStar.Clear | Adafruit_DotStar.cpp:224-229 | every byte of the buffer is 0, so every pixel reads black |
| DotStarStrip.DotStar.SetPixelRgb | Adafruit_DotStar.cpp:238-246 | inside the strip, only pixel n's three slots change, to r, g and b, and the pixel reads back as Color(r, g, b); outside the strip nothing changes |
| DotStarStrip.DotStar.SetPixelColor | Adafruit_DotStar.cpp:255-262 | inside the strip, only pixel n's three slots change, to c's channels, and the pixel reads back as c & 0xFFFFFF; outside the strip nothing changes |
| DotStarStrip.DotStar.GetPixelColor | Adafruit_DotStar.cpp:402-408 | 0 past the end of the strip, otherwise the colour of pixel n's slots |
| DotStarStrip.DotStar.NumPixels | Adafruit_DotStar.h:141 | the pixel count is the buffer length over three |
| DotStarStrip.DotStar.Fill | Adafruit_DotStar.cpp:275-296 | nothing changes when first is past the end; otherwise the pixels from first up to FillEnd are painted with c in index order |
| DotStarStrip.DotStar.Rainbow | Adafruit_DotStar.cpp:485-495 | every pixel, in index order, is painted with the wheel colour of its hue |
| DotStarStrip.DotStar.RainbowPixel | Adafruit_DotStar.cpp:489-493 | one loop pass extends the painted prefix by pixel i |
| DotStarStrip.DotStar.SetBrightness | Adafruit_DotStar.cpp:423-431 | stores b + 1 modulo 256, after which getBrightness returns b; the pixels are untouched |
| DotStarStrip.DotStar.GetBrightness | Adafruit_DotStar.cpp:437-439 | the result encodes back to the stored value |
| DotStarStrip.DotStar.Show | Adafruit_DotStar.cpp:174-219 | with a buffer, exactly the APA102 frame of the current pixels and brightness is appended to the sent bytes; without one, nothing is sent; pixels and brightness are unchanged |
| DotStarStrip.DotStar.SendScaledPixels | Adafruit_DotStar.cpp:190-195 | the scaled do-while sends the pixel data for the stored brightness |
| DotStarStrip.DotStar.SendRawPixels | Adafruit_DotStar.cpp:196-202 | the raw do-while sends the pixel data with every byte unchanged |
| DotStarStrip.DotStar.SendEndFrame | Adafruit_DotStar.cpp:214-215 | the `uint8_t`-counted loop sends the end frame |
| FiveBitHdGamma.Gamma16 | adafruit_five_bit_hd_gamma.cpp:64-66 | a lookup in the 256-entry 16-bit gamma table, held as the source's literal rows; Gamma16Sorted proves it never decreases, from 0 to 65535 |
| FiveBitHdGamma.DefaultGammaExpand | adafruit_five_bit_hd_gamma.cpp:60-67 | the library's `five_bit_hd_gamma_function` expands each 8-bit channel through the 16-bit gamma table; FiveBitHdGammaBitshift takes it as its `expand` parameter |
| FiveBitHdGamma.Gamma16Sorted | adafruit_five_bit_hd_gamma.cpp:34-58 | the 16-bit gamma table never decreases, starts at 0 and ends at 65535 |
| FiveBitHdGamma.Max3 | adafruit_five_bit_hd_gamma.cpp:93-146 | the largest of three channels, which decides every ladder test |
| FiveBitHdGamma.PowerFor | adafruit_five_bit_hd_gamma.cpp:88-147 | the level is in {31, 15, 7, 3, 1} and is the smallest with m * 31 ≤ 65535 * level |
| FiveBitHdGamma.PowerForMonotone | adafruit_five_bit_hd_gamma.cpp:93-146 | a brighter maximum channel never gets a lower level |
| FiveBitHdGamma.Rescale | adafruit_five_bit_hd_gamma.cpp:149-151 | the channel scaled by 31/level is floor(c * 31 / level), never smaller than c |
| FiveBitHdGamma.Mantissa | adafruit_five_bit_hd_gamma.cpp:154-159 | the output byte is the high byte, or one more; input 255 with high byte ≥ 254 gives 255, and every other input gives exactly the high byte |
| FiveBitHdGamma.HdGamma | adafruit_five_bit_hd_gamma.cpp:69-166 | the closed form: a power level, and mantissas no smaller than the high bytes of the expanded channels |
| FiveBitHdGamma.ScaleMatchesRescale | adafruit_five_bit_hd_gamma.cpp:103-151 | at each level, numerator/denominator reduces to 31/level, the 32-bit product does not wrap and the `uint16_t` cast does not truncate |
| FiveBitHdGamma.PowerLadder | adafruit_five_bit_hd_gamma.cpp:78-147 | the do-once ladder stops at PowerFor of the largest channel, with the matching numerator and denominator (each test's product is proved to fit in 32 bits where `Exceeds` is called) |
| FiveBitHdGamma.FiveBitHdGammaBitshift | adafruit_five_bit_hd_gamma.cpp:69-166 | the routine's four outputs are the closed form HdGamma |
| FiveBitHdGamma.HdGammaFixedPoints | adafruit_five_bit_hd_gamma.cpp:69-166 | with the library table, (255,255,255) gives mantissas 255 at power 31 and (0,0,0) gives mantissas 0 at power 1 |
| FiveBitHdGamma.FullRedStaysFull | adafruit_five_bit_hd_gamma.cpp:154-159 | with the library table, red input 255 gives red mantissa 255 at power 31 |
| FiveBitHdGamma.HdPowerMonotone | adafruit_five_bit_hd_gamma.cpp:93-146 | with the library table, brightening any channel never lowers the shared power level |

## Left out

- SPI device lifecycle: creating and deleting the SPI device, `begin`, both `updatePins`, `beginTransaction`/`endTransaction`, the destructor and the AVR pin fields. `transfer` is `Transport.Transfer`, which records the byte; timing and the wire itself are not modelled.
- Allocation: `malloc`/`free` are not modelled as heap behaviour. Whether `malloc` succeeds is the boolean parameter `allocOk` of the constructor and of `UpdateLength`.
- Two constructors: the hardware-SPI and bit-bang constructors differ only in how they create the SPI device, so one constructor models both. The SPI pins and clock rate are not modelled.
- DotStarStrip.DotStar.constructor: requires one of the six colour orders. The mono flag is marked unfinished in the header, and for it `setPixelColor`, `getPixelColor` and `show` index past its smaller buffer, so its 10-bit layout in `updateLength` and `clear` is not modelled.
- DotStarStrip.DotStar.UpdateLength: requires n ≤ 21845. For larger n the `uint16_t` byte count `n * 3` wraps and the buffer is smaller than the pixel count implies.
- DotStarStrip.DotStar.Show: requires 1 ≤ numLEDs ≤ 4080 when there is a buffer. With 0 pixels the do-while runs 65536 times past the buffer. Above 4080 pixels the `uint8_t` end-frame counter never reaches its bound.
- DotStarStrip.DotStar.Rainbow: requires -2^15 <= (numLEDs - 1) * reps < 2^15, so that `i * reps * 65536` does not overflow a 32-bit `int`. The model does not cover overflow, or a 16-bit `int` target.
- Default arguments: the constructor's `o = DOTSTAR_BRG` (Adafruit_DotStar.h:107-108), `fill`'s `c = 0, first = 0, count = 0` (Adafruit_DotStar.h:115), `ColorHSV`'s sat and val of 255 (Adafruit_DotStar.h:186) and `rainbow`'s defaults (Adafruit_DotStar.cpp:471-484) are not modelled. Every model member takes all its arguments explicitly.
- `getPixels`: the raw buffer pointer hands out unchecked aliasing of the buffer and is not modelled.
- Table generation: the tables' floating-point generator scripts are not modelled. The tables are the literal constants of the source.
- FiveBitHdGamma.FiveBitHdGammaBitshift: the weak-symbol override of `five_bit_hd_gamma_function` is the function parameter `expand`, whose library value is `DefaultGammaExpand`. `adafruit_five_bit_hd_gamma.h` only declares these functions and is not part of this model.
- HD brightness in `show`: `show` never uses the per-pixel 5-bit brightness field and always sends 0xFF as the pixel header. The quantizer is therefore modelled on its own.
- ColorHsv.ApplyGamma32: the source maps the four bytes of x in memory order. The model maps them least significant first, which gives the same word on any byte order because every byte is mapped.
- PROGMEM: `pgm_read_byte` is a plain table lookup here; the flash address space is not modelled.
