/** The plain frame-buffer text console (drivers/video/console_normal.c): clearing
    a text row, scrolling text rows with memmove, and drawing one character of the
    32x64 font pixel by pixel. The frame buffer is a byte array and `line_length`
    is the number of bytes from one scan line to the next. Drawing a character
    uses the 3-byte pixels of the ODROID-GO Advance LCD layer. */
module Console {

  import opened Wrappers
  import opened Bits

  const ENOSYS := 38
  const EAGAIN := 11

  /** enum video_log2_bpp: log2 of the bits per pixel. */
  const VIDEO_BPP8 := 3
  const VIDEO_BPP16 := 4
  const VIDEO_BPP32 := 5

  /** Horizontal positions are kept in 1/256 of a pixel: VID_TO_POS(x) is
      `x * VID_FRAC_DIV` and VID_TO_PIXEL(x) is `x / VID_FRAC_DIV`. */
  const VID_FRAC_DIV := 256

  /** Table rows of one glyph of video_font32x64. Glyph `ch` starts at table row
      `ch * 46 - 1702`, which is `(ch - 37) * 46`: the table starts at character 37. */
  const GLYPH_ROWS := 46
  const FIRST_GLYPH := 37

  /** Bytes of one 3-byte LCD pixel, and of the eight pixels one font byte covers. */
  const PIXEL_BYTES := 3
  const BYTE_SPAN := 24

  /** A colour as its three components. */
  datatype Rgb = Rgb(r: Byte, g: Byte, b: Byte)

  /** struct video_fb_bit laid over a 32-bit colour word: blue is the low byte,
      then green, then red. */
  function ColourOf(clr: int): Rgb
  {
    var u := clr % 0x1_0000_0000;
    Rgb(u / 0x10000 % 256, u / 0x100 % 256, u % 256)
  }

  /** A struct lcd_fb_bit pixel in memory order: blue, green, red. */
  function PixelBytes(c: Rgb): seq<Byte>
  {
    [c.b, c.g, c.r]
  }

  /** The state of the LCD layer: `lcd_getfg` and `lcd_getbg` (None for NULL) and
      `lcd_gettransp`. */
  datatype LcdState = LcdState(fg: Option<Rgb>, bg: Option<Rgb>, transp: bool)

  /** The parts of struct video_priv the console reads. */
  datatype VideoPriv = VideoPriv(xsize: nat, ysize: nat, lineLength: nat, bpix: nat,
                                 colourFg: int, colourBg: int)

  /** VIDEO_FONT_WIDTH, VIDEO_FONT_HEIGHT, VIDEO_FONT32x64_WIDTH (bytes per glyph
      row) and the rows of the video_font32x64 table. */
  datatype Font = Font(width: nat, height: nat, rowBytes: nat, table: seq<seq<Byte>>)

  /** Every table row is `rowBytes` long. */
  predicate RowsOk(rowBytes: nat, rows: seq<seq<Byte>>)
  {
    forall k | 0 <= k < |rows| :: |rows[k]| == rowBytes
  }

  /** The value of a little-endian byte string. */
  function LeValue(bytes: seq<Byte>): nat
  {
    if bytes == [] then 0 else bytes[0] + 256 * LeValue(bytes[1..])
  }

  /** `bits <<= 1` on an 8-bit variable holding `x` shifted `i` times. */
  lemma {:induction false} ShiftInByte(x: nat, i: nat)
    ensures (x * Pow2(i) % 256) * 2 % 256 == x * Pow2(i + 1) % 256
  {
    var y := x * Pow2(i);
    assert x * Pow2(i + 1) == 2 * y by {
      assert Pow2(i + 1) == 2 * Pow2(i);
    }
    ModDouble(y);
  }

  lemma {:induction false} ModDouble(y: nat)
    ensures (y % 256) * 2 % 256 == 2 * y % 256
  {
    var q, r := y / 256, y % 256;
    assert y == 256 * q + r;
    assert 2 * y == 256 * (2 * q) + 2 * r;
  }

  lemma {:induction false} MulMono(a: nat, b: nat, c: nat)
    requires a <= b
    ensures a * c <= b * c
  {
  }

  // ---------------------------------------------------------------------------
  // console_normal_set_row

  /** The bytes `console_normal_set_row` stores for each pixel, or None for a
      depth it rejects. `goadv` selects the ODROID-GO Advance build. */
  function RowPixel(bpix: nat, goadv: bool, clr: int, lcd: LcdState): (r: Option<seq<Byte>>)
    ensures r.Some? <==> bpix == VIDEO_BPP8 || bpix == VIDEO_BPP16 || bpix == VIDEO_BPP32
  {
    var u := clr % 0x1_0000_0000;
    if bpix == VIDEO_BPP8 then Some([u % 256])
    else if bpix == VIDEO_BPP16 then Some([u % 256, u / 0x100 % 256])
    else if bpix == VIDEO_BPP32 then
      if !goadv then Some([u % 256, u / 0x100 % 256, u / 0x10000 % 256, u / 0x1000000])
      else if lcd.transp then Some([])
      else Some(PixelBytes(if lcd.bg.None? then ColourOf(clr) else lcd.bg.value))
    else None
  }

  /** The plain stores keep the colour truncated to the pixel width; the LCD build
      stores the LCD background, or the low three bytes of the colour, or nothing. */
  lemma {:induction false} RowPixelValue(bpix: nat, goadv: bool, clr: int, lcd: LcdState)
    ensures bpix == VIDEO_BPP8 ==> LeValue(RowPixel(bpix, goadv, clr, lcd).value) == clr % 0x100
    ensures bpix == VIDEO_BPP16 ==> LeValue(RowPixel(bpix, goadv, clr, lcd).value) == clr % 0x1_0000
    ensures bpix == VIDEO_BPP32 && !goadv ==>
              LeValue(RowPixel(bpix, goadv, clr, lcd).value) == clr % 0x1_0000_0000
    ensures bpix == VIDEO_BPP32 && goadv && lcd.transp ==> RowPixel(bpix, goadv, clr, lcd).value == []
    ensures bpix == VIDEO_BPP32 && goadv && !lcd.transp && lcd.bg.Some? ==>
              RowPixel(bpix, goadv, clr, lcd).value == PixelBytes(lcd.bg.value)
    ensures bpix == VIDEO_BPP32 && goadv && !lcd.transp && lcd.bg.None? ==>
              LeValue(RowPixel(bpix, goadv, clr, lcd).value) == clr % 0x100_0000
  {
    if bpix == VIDEO_BPP8 {
      RowPixel8(clr);
    } else if bpix == VIDEO_BPP16 {
      RowPixel16(clr);
    } else if bpix == VIDEO_BPP32 && !goadv {
      RowPixel32(clr);
    } else if bpix == VIDEO_BPP32 && goadv && !lcd.transp && lcd.bg.None? {
      RowPixelLcd(clr);
    }
  }

  lemma {:induction false} RowPixel8(clr: int)
    ensures LeValue([clr % 0x1_0000_0000 % 256]) == clr % 0x100
  {
    var u := clr % 0x1_0000_0000;
    LeBytes(u % 256, 0, 0, 0);
    Low8(clr);
  }

  lemma {:induction false} RowPixel16(clr: int)
    ensures var u := clr % 0x1_0000_0000; LeValue([u % 256, u / 0x100 % 256]) == clr % 0x1_0000
  {
    var u := clr % 0x1_0000_0000;
    LeBytes(u % 256, u / 0x100 % 256, 0, 0);
    Low16(clr);
  }

  lemma {:induction false} RowPixel32(clr: int)
    ensures var u := clr % 0x1_0000_0000;
            LeValue([u % 256, u / 0x100 % 256, u / 0x10000 % 256, u / 0x1000000]) == clr % 0x1_0000_0000
  {
    var u := clr % 0x1_0000_0000;
    var q1 := u / 256;
    var q2 := q1 / 256;
    var q3 := q2 / 256;
    DivDiv(u);
    assert u == u % 256 + 256 * q1;
    assert q1 == q1 % 256 + 256 * q2;
    assert q2 == q2 % 256 + 256 * q3;
    LeBytes(u % 256, q1 % 256, q2 % 256, q3);
  }

  /** Dividing by 256 twice or three times is dividing by 2^16 or 2^24. */
  lemma {:induction false} DivDiv(x: nat)
    ensures x / 256 / 256 == x / 0x10000
    ensures x / 256 / 256 / 256 == x / 0x100_0000
    ensures x < 0x1_0000_0000 ==> x / 0x100_0000 < 256
  {
    var q1 := x / 256;
    var q2 := q1 / 256;
    var q3 := q2 / 256;
    assert x == 0x10000 * q2 + (256 * (q1 % 256) + x % 256);
    assert x == 0x100_0000 * q3 + (0x10000 * (q2 % 256) + 256 * (q1 % 256) + x % 256);
  }

  lemma {:induction false} RowPixelLcd(clr: int)
    ensures LeValue(PixelBytes(ColourOf(clr))) == clr % 0x100_0000
  {
    var u := clr % 0x1_0000_0000;
    assert PixelBytes(ColourOf(clr)) == [u % 256, u / 0x100 % 256, u / 0x10000 % 256];
    LeBytes(u % 256, u / 0x100 % 256, u / 0x10000 % 256, 0);
    Low24(clr);
  }

  lemma {:induction false} LeBytes(a: Byte, b: Byte, c: Byte, d: Byte)
    ensures LeValue([a]) == a
    ensures LeValue([a, b]) == a + 256 * b
    ensures LeValue([a, b, c]) == a + 256 * (b + 256 * c)
    ensures LeValue([a, b, c, d]) == a + 256 * (b + 256 * (c + 256 * d))
  {
    assert [a, b, c, d][1..] == [b, c, d] && [b, c, d][1..] == [c, d] && [c, d][1..] == [d];
    assert [a, b, c][1..] == [b, c] && [b, c][1..] == [c];
    assert [a, b][1..] == [b] && [a][1..] == [] && [d][1..] == [];
    assert LeValue([d]) == d && LeValue([c]) == c && LeValue([b]) == b;
    assert LeValue([c, d]) == c + 256 * d && LeValue([b, c]) == b + 256 * c;
    assert LeValue([b, c, d]) == b + 256 * (c + 256 * d);
  }

  lemma {:induction false} Low8(clr: int)
    ensures clr % 0x1_0000_0000 % 256 == clr % 0x100
  {
    var u := clr % 0x1_0000_0000;
    assert clr == 0x1_0000_0000 * (clr / 0x1_0000_0000) + u;
    assert u == 256 * (u / 256) + u % 256;
    ModUnique8(clr, 0x100_0000 * (clr / 0x1_0000_0000) + u / 256, u % 256);
  }

  lemma {:induction false} Low16(clr: int)
    ensures var u := clr % 0x1_0000_0000; u % 256 + 256 * (u / 0x100 % 256) == clr % 0x1_0000
  {
    var u := clr % 0x1_0000_0000;
    var q1 := u / 256;
    var q2 := q1 / 256;
    DivDiv(u);
    assert clr == 0x1_0000_0000 * (clr / 0x1_0000_0000) + u;
    assert u == 256 * q1 + u % 256;
    assert q1 == 256 * q2 + q1 % 256;
    ModUnique16(clr, 0x1_0000 * (clr / 0x1_0000_0000) + q2, u % 256 + 256 * (q1 % 256));
  }

  lemma {:induction false} Low24(clr: int)
    ensures var u := clr % 0x1_0000_0000;
            u % 256 + 256 * (u / 0x100 % 256 + 256 * (u / 0x10000 % 256)) == clr % 0x100_0000
  {
    var u := clr % 0x1_0000_0000;
    var q1 := u / 256;
    var q2 := q1 / 256;
    var q3 := q2 / 256;
    DivDiv(u);
    assert clr == 0x1_0000_0000 * (clr / 0x1_0000_0000) + u;
    assert u == 256 * q1 + u % 256;
    assert q1 == 256 * q2 + q1 % 256;
    assert q2 == 256 * q3 + q2 % 256;
    ModUnique24(clr, 256 * (clr / 0x1_0000_0000) + q3,
              u % 256 + 256 * (q1 % 256 + 256 * (q2 % 256)));
  }

  /** The remainder is the unique value in range that completes a multiple. */
  lemma {:induction false} ModUnique8(x: int, k: int, r: int)
    requires x == 0x100 * k + r && 0 <= r < 0x100
    ensures x % 0x100 == r
  {
  }

  lemma {:induction false} ModUnique16(x: int, k: int, r: int)
    requires x == 0x1_0000 * k + r && 0 <= r < 0x1_0000
    ensures x % 0x1_0000 == r
  {
  }

  lemma {:induction false} ModUnique24(x: int, k: int, r: int)
    requires x == 0x100_0000 * k + r && 0 <= r < 0x100_0000
    ensures x % 0x100_0000 == r
  {
  }

  /** `s` with `count` copies of `unit` stored back to back from `start`. */
  function Painted(s: seq<Byte>, start: nat, unit: seq<Byte>, count: nat): (r: seq<Byte>)
    requires start + count * |unit| <= |s|
    ensures |r| == |s|
  {
    seq(|s|, k requires 0 <= k < |s| =>
      if |unit| > 0 && start <= k < start + count * |unit| then unit[(k - start) % |unit|] else s[k])
  }

  /** Pixel `i` of a painted span holds the unit; nothing outside the span changes. */
  lemma {:induction false} PaintedPixel(s: seq<Byte>, start: nat, unit: seq<Byte>, count: nat, i: nat)
    requires start + count * |unit| <= |s|
    requires i < count && 1 <= |unit| <= 4
    ensures start + (i + 1) * |unit| <= |s|
    ensures Painted(s, start, unit, count)[start + i * |unit| .. start + (i + 1) * |unit|] == unit
    ensures forall k | 0 <= k < |s| && !(start <= k < start + count * |unit|) :: Painted(s, start, unit, count)[k] == s[k]
  {
    var r := Painted(s, start, unit, count);
    MulMono(i + 1, count, |unit|);
    forall b | 0 <= b < |unit|
      ensures r[start + i * |unit| + b] == unit[b]
    {
      PaintedByte(s, start, unit, count, i, b);
    }
  }

  /** Byte `b` of pixel `i` of a painted span is byte `b` of the unit. */
  lemma {:induction false} PaintedByte(s: seq<Byte>, start: nat, unit: seq<Byte>, count: nat, i: nat, b: nat)
    requires start + count * |unit| <= |s|
    requires i < count && 1 <= |unit| <= 4 && b < |unit|
    ensures start + i * |unit| + b < start + count * |unit|
    ensures Painted(s, start, unit, count)[start + i * |unit| + b] == unit[b]
  {
    MulMono(i + 1, count, |unit|);
    ModOffset(i, |unit|, b);
  }

  lemma {:induction false} ModOffset(i: nat, w: nat, b: nat)
    requires 1 <= w <= 4 && b < w
    ensures (i * w + b) % w == b
  {
    if w == 1 {
      assert (i * 1 + b) % 1 == b;
    } else if w == 2 {
      assert (i * 2 + b) % 2 == b;
    } else if w == 3 {
      assert (i * 3 + b) % 3 == b;
    } else {
      assert (i * 4 + b) % 4 == b;
    }
  }

  // ---------------------------------------------------------------------------
  // console_normal_move_rows

  /** `s` after `memmove(s + dst, s + src, n)`: the destination holds what the
      source region held before the call, even where the two overlap. */
  function Moved(s: seq<Byte>, dst: nat, src: nat, n: nat): (r: seq<Byte>)
    requires dst + n <= |s| && src + n <= |s|
    ensures |r| == |s|
    ensures forall k | 0 <= k < |s| :: r[k] == if dst <= k < dst + n then s[src + (k - dst)] else s[k]
  {
    s[..dst] + s[src..src + n] + s[dst + n..]
  }

  /** Moving rows onto themselves changes nothing; moving a block and moving it
      again to the same place changes nothing more when the two do not overlap. */
  lemma {:induction false} MovedIdentity(s: seq<Byte>, dst: nat, src: nat, n: nat)
    requires dst + n <= |s| && src + n <= |s|
    ensures Moved(s, dst, dst, n) == s
    ensures dst + n <= src || src + n <= dst ==> Moved(Moved(s, dst, src, n), dst, src, n) == Moved(s, dst, src, n)
  {
    assert Moved(s, dst, dst, n) == s;
    if dst + n <= src || src + n <= dst {
      var m := Moved(s, dst, src, n);
      assert Moved(m, dst, src, n) == m;
    }
  }

  /** In text rows of `rowBytes` bytes: after moving `count` rows from `rowsrc`
      to `rowdst`, byte `b` of row `rowdst + t` is what byte `b` of row
      `rowsrc + t` was, for every moved row `t`. */
  lemma {:induction false} MovedRows(s: seq<Byte>, rowBytes: nat, rowdst: nat, rowsrc: nat, count: nat, t: nat, b: nat)
    requires rowdst * rowBytes + rowBytes * count <= |s| && rowsrc * rowBytes + rowBytes * count <= |s|
    requires t < count && b < rowBytes
    ensures var to, from := (rowdst + t) * rowBytes + b, (rowsrc + t) * rowBytes + b;
            to < |s| && from < |s| &&
            Moved(s, rowdst * rowBytes, rowsrc * rowBytes, rowBytes * count)[to] == s[from]
  {
    MulMono(t + 1, count, rowBytes);
    assert (rowdst + t) * rowBytes + b == rowdst * rowBytes + (t * rowBytes + b);
    assert (rowsrc + t) * rowBytes + b == rowsrc * rowBytes + (t * rowBytes + b);
  }

  // ---------------------------------------------------------------------------
  // console_normal_putc_xy

  /** The bytes of `n` scan lines of `lineLength` bytes, by repeated addition. */
  function Lines(n: nat, lineLength: nat): nat
  {
    if n == 0 then 0 else Lines(n - 1, lineLength) + lineLength
  }

  /** `Lines` is the product `n * lineLength`. */
  lemma {:induction false} LinesIsProduct(n: nat, lineLength: nat)
    ensures Lines(n, lineLength) == n * lineLength
  {
    if n > 0 {
      LinesIsProduct(n - 1, lineLength);
    }
  }

  lemma {:induction false} LinesMono(a: nat, b: nat, lineLength: nat)
    requires a <= b
    ensures Lines(a, lineLength) <= Lines(b, lineLength)
  {
    if a < b {
      LinesMono(a, b - 1, lineLength);
    }
  }

  /** The colours a character is drawn in: `fg` for a set font bit, `bg` for a
      clear one (None when the LCD is transparent and the pixel is left alone). */
  datatype Ink = Ink(fg: Rgb, bg: Option<Rgb>)

  /** A set bit takes the console foreground when the LCD has no foreground, and
      pure green when it has one; a clear bit takes the LCD background, or the
      console background when there is none. */
  function InkOf(vid: VideoPriv, lcd: LcdState): (ink: Ink)
    ensures lcd.fg.Some? ==> ink.fg == Rgb(0, 0xff, 0)
    ensures lcd.fg.None? ==> ink.fg == ColourOf(vid.colourFg)
    ensures ink.bg.None? <==> lcd.transp
    ensures !lcd.transp && lcd.bg.Some? ==> ink.bg == lcd.bg
    ensures !lcd.transp && lcd.bg.None? ==> ink.bg == Some(ColourOf(vid.colourBg))
  {
    Ink(if lcd.fg.None? then ColourOf(vid.colourFg) else Rgb(0, 0xff, 0),
        if lcd.transp then None else Some(if lcd.bg.None? then ColourOf(vid.colourBg) else lcd.bg.value))
  }

  /** Pixel `i` (0 leftmost) of a font byte: the bits are read MSB first. */
  function PixelAt(bits: Byte, i: nat, ink: Ink): Option<Rgb>
    requires i < 8
  {
    if Bit(bits, 7 - i) then Some(ink.fg) else ink.bg
  }

  /** One pixel stored at byte `p`, or `s` unchanged for None. */
  function Paint(s: seq<Byte>, p: nat, c: Option<Rgb>): (r: seq<Byte>)
    requires p + PIXEL_BYTES <= |s|
    ensures |r| == |s|
  {
    match c
    case None => s
    case Some(c) => s[p + 2 := c.r][p + 1 := c.g][p := c.b]
  }

  /** The first `n` pixels of one font byte drawn from byte `p`. */
  function DrawByte(s: seq<Byte>, p: nat, bits: Byte, ink: Ink, n: nat): (r: seq<Byte>)
    requires n <= 8 && p + PIXEL_BYTES * n <= |s|
    ensures |r| == |s|
  {
    if n == 0 then s
    else Paint(DrawByte(s, p, bits, ink, n - 1), p + PIXEL_BYTES * (n - 1), PixelAt(bits, n - 1, ink))
  }

  /** The first `n` font bytes of one glyph row drawn from byte `p`. */
  function DrawRow(s: seq<Byte>, p: nat, row: seq<Byte>, ink: Ink, n: nat): (r: seq<Byte>)
    requires n <= |row| && p + BYTE_SPAN * n <= |s|
    ensures |r| == |s|
  {
    if n == 0 then s
    else DrawByte(DrawRow(s, p, row, ink, n - 1), p + BYTE_SPAN * (n - 1), row[n - 1], ink, 8)
  }

  /** The first `n` rows of a glyph drawn from byte `line`, one scan line apart. */
  function DrawGlyph(s: seq<Byte>, line: nat, lineLength: nat, rowBytes: nat, rows: seq<seq<Byte>>,
                     ink: Ink, n: nat): (r: seq<Byte>)
    requires n <= |rows| && RowsOk(rowBytes, rows)
    requires n > 0 ==> line + Lines(n - 1, lineLength) + BYTE_SPAN * rowBytes <= |s|
    ensures |r| == |s|
  {
    if n == 0 then s
    else DrawRow(DrawGlyph(s, line, lineLength, rowBytes, rows, ink, n - 1),
                 line + Lines(n - 1, lineLength), rows[n - 1], ink, rowBytes)
  }

  /** What the three bytes at `q` hold after pixel colour `c` is drawn there. */
  function PixelAfter(s: seq<Byte>, q: nat, c: Option<Rgb>): seq<Byte>
    requires q + PIXEL_BYTES <= |s|
  {
    if c.None? then s[q..q + PIXEL_BYTES] else PixelBytes(c.value)
  }

  /** Storing one pixel at `q` sets its three bytes and no others. */
  lemma {:induction false} PaintAt(s: seq<Byte>, q: nat, c: Option<Rgb>)
    requires q + PIXEL_BYTES <= |s|
    ensures Paint(s, q, c)[q..q + PIXEL_BYTES] == PixelAfter(s, q, c)
    ensures forall k | 0 <= k < |s| && !(q <= k < q + PIXEL_BYTES) :: Paint(s, q, c)[k] == s[k]
  {
  }

  /** The three bytes at `o` agree. */
  predicate SameAt(a: seq<Byte>, b: seq<Byte>, o: nat)
    requires o + PIXEL_BYTES <= |a| && o + PIXEL_BYTES <= |b|
  {
    a[o] == b[o] && a[o + 1] == b[o + 1] && a[o + 2] == b[o + 2]
  }

  /** Three bytes that agree byte by byte agree as a pixel. */
  lemma {:induction false} SamePixel(a: seq<Byte>, b: seq<Byte>, o: nat)
    requires o + PIXEL_BYTES <= |a| && o + PIXEL_BYTES <= |b|
    requires SameAt(a, b, o)
    ensures a[o..o + PIXEL_BYTES] == b[o..o + PIXEL_BYTES]
  {
  }

  /** Drawing the first `n` pixels of a font byte changes no byte outside them. */
  lemma {:induction false} DrawByteKeeps(s: seq<Byte>, p: nat, bits: Byte, ink: Ink, n: nat, k: nat)
    requires n <= 8 && p + PIXEL_BYTES * n <= |s|
    requires k < |s| && !(p <= k < p + PIXEL_BYTES * n)
    ensures DrawByte(s, p, bits, ink, n)[k] == s[k]
  {
    if n > 0 {
      DrawByteKeeps(s, p, bits, ink, n - 1, k);
      PaintAt(DrawByte(s, p, bits, ink, n - 1), p + PIXEL_BYTES * (n - 1), PixelAt(bits, n - 1, ink));
    }
  }

  /** Pixel `i` of a drawn font byte holds the colour of bit `7 - i`. */
  lemma {:induction false} DrawByteAt(s: seq<Byte>, p: nat, bits: Byte, ink: Ink, n: nat, i: nat)
    requires n <= 8 && p + PIXEL_BYTES * n <= |s| && i < n
    ensures DrawByte(s, p, bits, ink, n)[p + PIXEL_BYTES * i .. p + PIXEL_BYTES * i + PIXEL_BYTES]
            == PixelAfter(s, p + PIXEL_BYTES * i, PixelAt(bits, i, ink))
  {
    if i < n - 1 {
      DrawByteAt(s, p, bits, ink, n - 1, i);
      DrawByteEarlier(s, p, bits, ink, n, i);
    } else {
      DrawByteLast(s, p, bits, ink, n);
    }
  }

  /** Painting pixel `n - 1` leaves an earlier pixel as it was. */
  lemma {:induction false} DrawByteEarlier(s: seq<Byte>, p: nat, bits: Byte, ink: Ink, n: nat, i: nat)
    requires 0 < n <= 8 && p + PIXEL_BYTES * n <= |s| && i < n - 1
    ensures var o := p + PIXEL_BYTES * i;
            DrawByte(s, p, bits, ink, n)[o..o + PIXEL_BYTES] == DrawByte(s, p, bits, ink, n - 1)[o..o + PIXEL_BYTES]
  {
    var prev := DrawByte(s, p, bits, ink, n - 1);
    PaintAt(prev, p + PIXEL_BYTES * (n - 1), PixelAt(bits, n - 1, ink));
    SamePixel(DrawByte(s, p, bits, ink, n), prev, p + PIXEL_BYTES * i);
  }

  /** Pixel `n - 1` of a drawn font byte, painted over the untouched buffer. */
  lemma {:induction false} DrawByteLast(s: seq<Byte>, p: nat, bits: Byte, ink: Ink, n: nat)
    requires 0 < n <= 8 && p + PIXEL_BYTES * n <= |s|
    ensures var q := p + PIXEL_BYTES * (n - 1);
            DrawByte(s, p, bits, ink, n)[q..q + PIXEL_BYTES] == PixelAfter(s, q, PixelAt(bits, n - 1, ink))
  {
    var prev := DrawByte(s, p, bits, ink, n - 1);
    var q := p + PIXEL_BYTES * (n - 1);
    PaintAt(prev, q, PixelAt(bits, n - 1, ink));
    DrawByteKeeps(s, p, bits, ink, n - 1, q);
    DrawByteKeeps(s, p, bits, ink, n - 1, q + 1);
    DrawByteKeeps(s, p, bits, ink, n - 1, q + 2);
    PixelAfterSame(prev, s, q, PixelAt(bits, n - 1, ink));
  }

  /** Drawing the first `n` font bytes of a row changes no byte outside them. */
  lemma {:induction false} DrawRowKeeps(s: seq<Byte>, p: nat, row: seq<Byte>, ink: Ink, n: nat, k: nat)
    requires n <= |row| && p + BYTE_SPAN * n <= |s|
    requires k < |s| && !(p <= k < p + BYTE_SPAN * n)
    ensures DrawRow(s, p, row, ink, n)[k] == s[k]
  {
    if n > 0 {
      DrawRowKeeps(s, p, row, ink, n - 1, k);
      DrawByteKeeps(DrawRow(s, p, row, ink, n - 1), p + BYTE_SPAN * (n - 1), row[n - 1], ink, 8, k);
    }
  }

  /** Pixel `c` of a drawn row comes from bit `c % 8` of font byte `c / 8`. */
  lemma {:induction false} DrawRowAt(s: seq<Byte>, p: nat, row: seq<Byte>, ink: Ink, n: nat, c: nat)
    requires n <= |row| && p + BYTE_SPAN * n <= |s| && c < 8 * n
    ensures p + PIXEL_BYTES * c + PIXEL_BYTES <= |s|
    ensures DrawRow(s, p, row, ink, n)[p + PIXEL_BYTES * c .. p + PIXEL_BYTES * c + PIXEL_BYTES]
            == PixelAfter(s, p + PIXEL_BYTES * c, PixelAt(row[c / 8], c % 8, ink))
  {
    var prev := DrawRow(s, p, row, ink, n - 1);
    var q := p + BYTE_SPAN * (n - 1);
    var r := DrawRow(s, p, row, ink, n);
    var o := p + PIXEL_BYTES * c;
    if c < 8 * (n - 1) {
      DrawRowAt(s, p, row, ink, n - 1, c);
      DrawByteKeeps(prev, q, row[n - 1], ink, 8, o);
      DrawByteKeeps(prev, q, row[n - 1], ink, 8, o + 1);
      DrawByteKeeps(prev, q, row[n - 1], ink, 8, o + 2);
      SamePixel(r, prev, o);
    } else {
      var i := c - 8 * (n - 1);
      assert c / 8 == n - 1 && c % 8 == i;
      assert o == q + PIXEL_BYTES * i;
      DrawByteAt(prev, q, row[n - 1], ink, 8, i);
      DrawRowKeeps(s, p, row, ink, n - 1, o);
      DrawRowKeeps(s, p, row, ink, n - 1, o + 1);
      DrawRowKeeps(s, p, row, ink, n - 1, o + 2);
      PixelAfterSame(prev, s, o, PixelAt(row[n - 1], i, ink));
    }
  }

  /** Drawing one more glyph row draws that row over the glyph so far. */
  lemma {:induction false} DrawGlyphNext(s: seq<Byte>, line: nat, lineLength: nat, rowBytes: nat,
                                         rows: seq<seq<Byte>>, ink: Ink, n: nat)
    requires n < |rows| && RowsOk(rowBytes, rows)
    requires line + Lines(n, lineLength) + BYTE_SPAN * rowBytes <= |s|
    ensures n > 0 ==> line + Lines(n - 1, lineLength) + BYTE_SPAN * rowBytes <= |s|
    ensures DrawGlyph(s, line, lineLength, rowBytes, rows, ink, n + 1)
            == DrawRow(DrawGlyph(s, line, lineLength, rowBytes, rows, ink, n),
                       line + Lines(n, lineLength), rows[n], ink, rowBytes)
  {
    if n > 0 {
      LinesMono(n - 1, n, lineLength);
    }
  }

  /** Glyph row `row` lies inside the buffer when the last one does, and the
      next row starts one scan line further on. */
  lemma {:induction false} GlyphRowFits(line: nat, lineLength: nat, rowBytes: nat, row: nat, len: nat)
    requires row < GLYPH_ROWS
    requires line + Lines(GLYPH_ROWS - 1, lineLength) + BYTE_SPAN * rowBytes <= len
    ensures line + Lines(row, lineLength) + BYTE_SPAN * rowBytes <= len
  {
    LinesMono(row, GLYPH_ROWS - 1, lineLength);
  }

  /** Bytes before the glyph and after its last row do not change. */
  lemma {:induction false} DrawGlyphFrame(s: seq<Byte>, line: nat, lineLength: nat, rowBytes: nat,
                                          rows: seq<seq<Byte>>, ink: Ink, n: nat, k: nat)
    requires n <= |rows| && RowsOk(rowBytes, rows)
    requires n > 0 ==> line + Lines(n - 1, lineLength) + BYTE_SPAN * rowBytes <= |s|
    requires k < |s| && (n == 0 || k < line || line + Lines(n - 1, lineLength) + BYTE_SPAN * rowBytes <= k)
    ensures DrawGlyph(s, line, lineLength, rowBytes, rows, ink, n)[k] == s[k]
  {
    if n > 0 {
      var prev := DrawGlyph(s, line, lineLength, rowBytes, rows, ink, n - 1);
      if n > 1 {
        LinesMono(n - 2, n - 1, lineLength);
      }
      DrawGlyphFrame(s, line, lineLength, rowBytes, rows, ink, n - 1, k);
      DrawRowKeeps(prev, line + Lines(n - 1, lineLength), rows[n - 1], ink, rowBytes, k);
    }
  }

  /** Pixel `c` of glyph row `r` sits `r` scan lines below the first row and `c`
      pixels to the right, and comes from bit `c % 8` of byte `c / 8` of that row,
      provided a glyph row is no wider than a scan line. */
  lemma {:induction false} DrawGlyphAt(s: seq<Byte>, line: nat, lineLength: nat, rowBytes: nat,
                                       rows: seq<seq<Byte>>, ink: Ink, n: nat, r: nat, c: nat)
    requires n <= |rows| && RowsOk(rowBytes, rows) && BYTE_SPAN * rowBytes <= lineLength
    requires n > 0 ==> line + Lines(n - 1, lineLength) + BYTE_SPAN * rowBytes <= |s|
    requires r < n && c < 8 * rowBytes
    ensures line + Lines(r, lineLength) + PIXEL_BYTES * c + PIXEL_BYTES <= |s|
    ensures DrawGlyph(s, line, lineLength, rowBytes, rows, ink, n)
              [line + Lines(r, lineLength) + PIXEL_BYTES * c .. line + Lines(r, lineLength) + PIXEL_BYTES * c + PIXEL_BYTES]
            == PixelAfter(s, line + Lines(r, lineLength) + PIXEL_BYTES * c, PixelAt(rows[r][c / 8], c % 8, ink))
  {
    var o := line + Lines(r, lineLength) + PIXEL_BYTES * c;
    if r < n - 1 {
      DrawGlyphAt(s, line, lineLength, rowBytes, rows, ink, n - 1, r, c);
      PixelAboveRow(lineLength, rowBytes, r, n - 1, c);
      DrawGlyphKeepsAbove(s, line, lineLength, rowBytes, rows, ink, n, o);
    } else {
      DrawGlyphLastRow(s, line, lineLength, rowBytes, rows, ink, n, c);
    }
  }

  /** A pixel of an earlier glyph row ends before the next row starts. */
  lemma {:induction false} PixelAboveRow(lineLength: nat, rowBytes: nat, r: nat, m: nat, c: nat)
    requires BYTE_SPAN * rowBytes <= lineLength && r < m && c < 8 * rowBytes
    ensures Lines(r, lineLength) + PIXEL_BYTES * c + PIXEL_BYTES <= Lines(m, lineLength)
  {
    LinesMono(r + 1, m, lineLength);
  }

  /** Drawing glyph row `n - 1` leaves the bytes above it as they were. */
  lemma {:induction false} DrawGlyphKeepsAbove(s: seq<Byte>, line: nat, lineLength: nat, rowBytes: nat,
                            rows: seq<seq<Byte>>, ink: Ink, n: nat, o: nat)
    requires 0 < n <= |rows| && RowsOk(rowBytes, rows)
    requires line + Lines(n - 1, lineLength) + BYTE_SPAN * rowBytes <= |s|
    requires o + PIXEL_BYTES <= line + Lines(n - 1, lineLength)
    ensures DrawGlyph(s, line, lineLength, rowBytes, rows, ink, n)[o..o + PIXEL_BYTES]
            == DrawGlyph(s, line, lineLength, rowBytes, rows, ink, n - 1)[o..o + PIXEL_BYTES]
  {
    var prev := DrawGlyph(s, line, lineLength, rowBytes, rows, ink, n - 1);
    DrawRowKeeps(prev, line + Lines(n - 1, lineLength), rows[n - 1], ink, rowBytes, o);
    DrawRowKeeps(prev, line + Lines(n - 1, lineLength), rows[n - 1], ink, rowBytes, o + 1);
    DrawRowKeeps(prev, line + Lines(n - 1, lineLength), rows[n - 1], ink, rowBytes, o + 2);
    SamePixel(DrawGlyph(s, line, lineLength, rowBytes, rows, ink, n), prev, o);
  }

  /** Pixel `c` of the last drawn glyph row. */
  lemma {:induction false} DrawGlyphLastRow(s: seq<Byte>, line: nat, lineLength: nat, rowBytes: nat,
                         rows: seq<seq<Byte>>, ink: Ink, n: nat, c: nat)
    requires 0 < n <= |rows| && RowsOk(rowBytes, rows) && BYTE_SPAN * rowBytes <= lineLength
    requires line + Lines(n - 1, lineLength) + BYTE_SPAN * rowBytes <= |s|
    requires c < 8 * rowBytes
    ensures var o := line + Lines(n - 1, lineLength) + PIXEL_BYTES * c;
            DrawGlyph(s, line, lineLength, rowBytes, rows, ink, n)[o..o + PIXEL_BYTES]
            == PixelAfter(s, o, PixelAt(rows[n - 1][c / 8], c % 8, ink))
  {
    var prev := DrawGlyph(s, line, lineLength, rowBytes, rows, ink, n - 1);
    var q := line + Lines(n - 1, lineLength);
    if n > 1 {
      LinesMono(n - 2, n - 1, lineLength);
    }
    SameBelow(s, line, lineLength, rowBytes, rows, ink, n - 1, q + PIXEL_BYTES * c);
    DrawRowOver(prev, s, q, rows[n - 1], ink, rowBytes, c);
  }

  /** A row drawn over a buffer that agrees with `s` on pixel `c` leaves that
      pixel as drawing over `s` would. */
  lemma {:induction false} DrawRowOver(prev: seq<Byte>, s: seq<Byte>, q: nat, row: seq<Byte>, ink: Ink, n: nat, c: nat)
    requires n <= |row| && q + BYTE_SPAN * n <= |prev| && |prev| == |s| && c < 8 * n
    requires SameAt(prev, s, q + PIXEL_BYTES * c)
    ensures DrawRow(prev, q, row, ink, n)[q + PIXEL_BYTES * c .. q + PIXEL_BYTES * c + PIXEL_BYTES]
            == PixelAfter(s, q + PIXEL_BYTES * c, PixelAt(row[c / 8], c % 8, ink))
  {
    DrawRowAt(prev, q, row, ink, n, c);
    PixelAfterSame(prev, s, q + PIXEL_BYTES * c, PixelAt(row[c / 8], c % 8, ink));
  }

  /** Two buffers that agree on a pixel agree on what it becomes. */
  lemma {:induction false} PixelAfterSame(a: seq<Byte>, b: seq<Byte>, o: nat, x: Option<Rgb>)
    requires o + PIXEL_BYTES <= |a| && o + PIXEL_BYTES <= |b|
    requires SameAt(a, b, o)
    ensures PixelAfter(a, o, x) == PixelAfter(b, o, x)
  {
    assert a[o..o + PIXEL_BYTES] == b[o..o + PIXEL_BYTES];
  }

  /** The three bytes at `o`, at or below scan line `n` of the glyph, are not
      touched by its first `n` rows. */
  lemma {:induction false} SameBelow(s: seq<Byte>, line: nat, lineLength: nat, rowBytes: nat,
                  rows: seq<seq<Byte>>, ink: Ink, n: nat, o: nat)
    requires n < |rows| && RowsOk(rowBytes, rows) && BYTE_SPAN * rowBytes <= lineLength
    requires line + Lines(n, lineLength) <= o && o + PIXEL_BYTES <= |s|
    requires n > 0 ==> line + Lines(n - 1, lineLength) + BYTE_SPAN * rowBytes <= |s|
    ensures SameAt(DrawGlyph(s, line, lineLength, rowBytes, rows, ink, n), s, o)
  {
    DrawGlyphFrame(s, line, lineLength, rowBytes, rows, ink, n, o);
    DrawGlyphFrame(s, line, lineLength, rowBytes, rows, ink, n, o + 1);
    DrawGlyphFrame(s, line, lineLength, rowBytes, rows, ink, n, o + 2);
  }

  /** A glyph whose font bytes are all zero, drawn on a transparent LCD, leaves
      the frame buffer as it was. */
  lemma {:induction false} BlankGlyphTransparent(s: seq<Byte>, line: nat, lineLength: nat, rowBytes: nat,
                                                 rows: seq<seq<Byte>>, ink: Ink, n: nat)
    requires n <= |rows| && RowsOk(rowBytes, rows)
    requires n > 0 ==> line + Lines(n - 1, lineLength) + BYTE_SPAN * rowBytes <= |s|
    requires ink.bg.None?
    requires forall r, j | 0 <= r < n && 0 <= j < rowBytes :: rows[r][j] == 0
    ensures DrawGlyph(s, line, lineLength, rowBytes, rows, ink, n) == s
  {
    if n > 0 {
      BlankGlyphTransparent(s, line, lineLength, rowBytes, rows, ink, n - 1);
      BlankRow(s, line + Lines(n - 1, lineLength), rows[n - 1], ink, rowBytes);
    }
  }

  lemma {:induction false} BlankRow(s: seq<Byte>, p: nat, row: seq<Byte>, ink: Ink, n: nat)
    requires n <= |row| && p + BYTE_SPAN * n <= |s|
    requires ink.bg.None?
    requires forall j | 0 <= j < n :: row[j] == 0
    ensures DrawRow(s, p, row, ink, n) == s
  {
    if n > 0 {
      BlankRow(s, p, row, ink, n - 1);
      BlankByte(s, p + BYTE_SPAN * (n - 1), ink, 8);
    }
  }

  lemma {:induction false} BlankByte(s: seq<Byte>, p: nat, ink: Ink, n: nat)
    requires n <= 8 && p + PIXEL_BYTES * n <= |s|
    requires ink.bg.None?
    ensures DrawByte(s, p, 0, ink, n) == s
  {
    if n > 0 {
      BlankByte(s, p, ink, n - 1);
      ZeroHasNoBits(7 - (n - 1));
    }
  }

  /** The table rows of glyph `ch`. */
  function Glyph(font: Font, ch: Byte): seq<seq<Byte>>
    requires FIRST_GLYPH <= ch && (ch - FIRST_GLYPH) * GLYPH_ROWS + GLYPH_ROWS <= |font.table|
  {
    font.table[(ch - FIRST_GLYPH) * GLYPH_ROWS .. (ch - FIRST_GLYPH) * GLYPH_ROWS + GLYPH_ROWS]
  }

  lemma {:induction false} GlyphRowsOk(font: Font, ch: Byte)
    requires RowsOk(font.rowBytes, font.table)
    requires FIRST_GLYPH <= ch && (ch - FIRST_GLYPH) * GLYPH_ROWS + GLYPH_ROWS <= |font.table|
    ensures |Glyph(font, ch)| == GLYPH_ROWS && RowsOk(font.rowBytes, Glyph(font, ch))
  {
    var g := Glyph(font, ch);
    forall k | 0 <= k < |g| ensures |g[k]| == font.rowBytes {
      assert g[k] == font.table[(ch - FIRST_GLYPH) * GLYPH_ROWS + k];
    }
  }

  // ---------------------------------------------------------------------------
  // The console device

  /** A text console on a frame buffer: the fields of struct vidconsole_priv the
      driver sets or reads, over the video device's frame buffer and state. */
  class NormalConsole {
    const fb: array<Byte>
    const vid: VideoPriv
    const lcd: LcdState
    const font: Font
    /** Built for the ODROID-GO Advance (CONFIG_PLATFORM_ODROID_GOADV). */
    const goadv: bool
    var xCharsize: nat
    var yCharsize: nat
    var cols: nat
    var rows: nat
    /** The console width in 1/256 pixels, set up by the console uclass. */
    var xsizeFrac: nat

    constructor (fb: array<Byte>, vid: VideoPriv, lcd: LcdState, font: Font, goadv: bool, xsizeFrac: nat)
      ensures this.fb == fb && this.vid == vid && this.lcd == lcd && this.font == font && this.goadv == goadv
      ensures this.xsizeFrac == xsizeFrac
      ensures xCharsize == 0 && yCharsize == 0 && cols == 0 && rows == 0
    {
      this.fb := fb;
      this.vid := vid;
      this.lcd := lcd;
      this.font := font;
      this.goadv := goadv;
      this.xsizeFrac := xsizeFrac;
      xCharsize, yCharsize, cols, rows := 0, 0, 0, 0;
    }

    /** The first byte of text row `row`. */
    function RowStart(row: nat): nat
    {
      row * font.height * vid.lineLength
    }

    /** The first byte of a character cell at scan line `y`, `xFrac / 256` pixels in. */
    function GlyphLine(y: nat, xFrac: nat): nat
    {
      y * vid.lineLength + xFrac / VID_FRAC_DIV * PIXEL_BYTES
    }

    /** `console_normal_probe`: the character cell is the font's, and the text
        grid is as many whole cells as fit on the screen. */
    method Probe() returns (ret: int)
      requires font.width > 0 && font.height > 0
      modifies this
      ensures ret == 0 && xCharsize == font.width && yCharsize == font.height
      ensures cols * font.width <= vid.xsize < (cols + 1) * font.width
      ensures rows * font.height <= vid.ysize < (rows + 1) * font.height
      ensures xsizeFrac == old(xsizeFrac)
    {
      xCharsize := font.width;
      yCharsize := font.height;
      cols := vid.xsize / font.width;
      rows := vid.ysize / font.height;
      return 0;
    }

    /** `console_normal_set_row`: every pixel of the `font.height` scan lines of
        text row `row` takes the colour `clr` (one store per pixel, the pixel
        count being `font.height * xsize`); a depth the driver does not handle
        leaves the frame buffer alone and gives -ENOSYS. */
    method SetRow(row: nat, clr: int) returns (ret: int)
      requires RowPixel(vid.bpix, goadv, clr, lcd).Some? ==>
                 RowStart(row) + font.height * vid.xsize * |RowPixel(vid.bpix, goadv, clr, lcd).value| <= fb.Length
      modifies fb
      ensures RowPixel(vid.bpix, goadv, clr, lcd).None? ==> ret == -ENOSYS && fb[..] == old(fb[..])
      ensures RowPixel(vid.bpix, goadv, clr, lcd).Some? ==>
                ret == 0 && fb[..] == Painted(old(fb[..]), RowStart(row), RowPixel(vid.bpix, goadv, clr, lcd).value,
                                              font.height * vid.xsize)
    {
      var pixels := font.height * vid.xsize;
      var start := RowStart(row);
      var u := clr % 0x1_0000_0000;
      if vid.bpix == VIDEO_BPP8 {
        Fill8(start, u % 256, pixels);
      } else if vid.bpix == VIDEO_BPP16 {
        Fill16(start, u % 256, u / 0x100 % 256, pixels);
      } else if vid.bpix == VIDEO_BPP32 && !goadv {
        Fill32(start, u % 256, u / 0x100 % 256, u / 0x10000 % 256, u / 0x1000000, pixels);
      } else if vid.bpix == VIDEO_BPP32 {
        if !lcd.transp {
          FillRgb(start, if lcd.bg.None? then ColourOf(clr) else lcd.bg.value, pixels);
        } else {
          assert fb[..] == Painted(old(fb[..]), start, [], pixels);
        }
      } else {
        return -ENOSYS;
      }
      return 0;
    }

    /** The BPP8 loop: one byte store per pixel. */
    method Fill8(start: nat, v: Byte, pixels: nat)
      requires start + pixels <= fb.Length
      modifies fb
      ensures fb[..] == Painted(old(fb[..]), start, [v], pixels)
    {
      for i := 0 to pixels
        invariant forall k | 0 <= k < fb.Length ::
                    fb[k] == if start <= k < start + i then v else old(fb[k])
      {
        fb[start + i] := v;
      }
      assert fb[..] == Painted(old(fb[..]), start, [v], pixels);
    }

    /** The BPP16 loop: one little-endian 16-bit store per pixel. */
    method Fill16(start: nat, lo: Byte, hi: Byte, pixels: nat)
      requires start + 2 * pixels <= fb.Length
      modifies fb
      ensures fb[..] == Painted(old(fb[..]), start, [lo, hi], pixels)
    {
      for i := 0 to pixels
        invariant forall k | 0 <= k < fb.Length ::
                    fb[k] == if start <= k < start + 2 * i then [lo, hi][(k - start) % 2] else old(fb[k])
      {
        fb[start + 2 * i] := lo;
        fb[start + 2 * i + 1] := hi;
      }
      assert fb[..] == Painted(old(fb[..]), start, [lo, hi], pixels);
    }

    /** The plain BPP32 loop: one little-endian 32-bit store per pixel. */
    method Fill32(start: nat, b0: Byte, b1: Byte, b2: Byte, b3: Byte, pixels: nat)
      requires start + 4 * pixels <= fb.Length
      modifies fb
      ensures fb[..] == Painted(old(fb[..]), start, [b0, b1, b2, b3], pixels)
    {
      for i := 0 to pixels
        invariant forall k | 0 <= k < fb.Length ::
                    fb[k] == if start <= k < start + 4 * i then [b0, b1, b2, b3][(k - start) % 4] else old(fb[k])
      {
        fb[start + 4 * i] := b0;
        fb[start + 4 * i + 1] := b1;
        fb[start + 4 * i + 2] := b2;
        fb[start + 4 * i + 3] := b3;
      }
      assert fb[..] == Painted(old(fb[..]), start, [b0, b1, b2, b3], pixels);
    }

    /** The BPP32 loop of the LCD build: one 3-byte pixel per store. */
    method FillRgb(start: nat, c: Rgb, pixels: nat)
      requires start + 3 * pixels <= fb.Length
      modifies fb
      ensures fb[..] == Painted(old(fb[..]), start, PixelBytes(c), pixels)
    {
      for i := 0 to pixels
        invariant forall k | 0 <= k < fb.Length ::
                    fb[k] == if start <= k < start + 3 * i then PixelBytes(c)[(k - start) % 3] else old(fb[k])
      {
        fb[start + 3 * i + 2] := c.r;
        fb[start + 3 * i + 1] := c.g;
        fb[start + 3 * i] := c.b;
      }
      assert fb[..] == Painted(old(fb[..]), start, PixelBytes(c), pixels);
    }

    /** `console_normal_move_rows`: `count` text rows starting at `rowsrc` are
        copied to start at `rowdst` with memmove semantics. */
    method MoveRows(rowdst: nat, rowsrc: nat, count: nat) returns (ret: int)
      requires RowStart(rowdst) + font.height * vid.lineLength * count <= fb.Length
      requires RowStart(rowsrc) + font.height * vid.lineLength * count <= fb.Length
      modifies fb
      ensures ret == 0
      ensures fb[..] == Moved(old(fb[..]), RowStart(rowdst), RowStart(rowsrc), font.height * vid.lineLength * count)
    {
      var dst := RowStart(rowdst);
      var src := RowStart(rowsrc);
      var n := font.height * vid.lineLength * count;
      var before := fb[..];
      forall k | dst <= k < dst + n {
        fb[k] := before[src + (k - dst)];
      }
      assert fb[..] == Moved(before, dst, src, n);
      return 0;
    }

    /** Stores one LCD pixel at byte `q`, red, then green, then blue. */
    method PutPixel(q: nat, c: Rgb)
      requires q + PIXEL_BYTES <= fb.Length
      modifies fb
      ensures fb[..] == Paint(old(fb[..]), q, Some(c))
    {
      fb[q + 2] := c.r;
      fb[q + 1] := c.g;
      fb[q] := c.b;
    }

    /** One glyph row of `console_normal_putc_xy`: the pixel pointer starts at
        `line` and moves one pixel per bit across all the row's font bytes. */
    method PutGlyphRow(line: nat, rowData: seq<Byte>)
      requires line + BYTE_SPAN * |rowData| <= fb.Length
      modifies fb
      ensures fb[..] == DrawRow(old(fb[..]), line, rowData, InkOf(vid, lcd), |rowData|)
    {
      var dst := line;
      for j := 0 to |rowData|
        invariant dst == line + BYTE_SPAN * j
        invariant fb[..] == DrawRow(old(fb[..]), line, rowData, InkOf(vid, lcd), j)
      {
        PutFontByte(dst, rowData[j]);
        dst := dst + BYTE_SPAN;
      }
    }

    /** The eight pixels of one font byte: the byte is shifted left once per
        pixel and its top bit chooses between the foreground and the background
        (or nothing, on a transparent LCD). */
    method PutFontByte(dst: nat, byte: Byte)
      requires dst + BYTE_SPAN <= fb.Length
      modifies fb
      ensures fb[..] == DrawByte(old(fb[..]), dst, byte, InkOf(vid, lcd), 8)
    {
      var transp := lcd.transp;
      var bits: nat := byte;
      var p := dst;
      for i := 0 to 8
        invariant p == dst + PIXEL_BYTES * i
        invariant bits == byte * Pow2(i) % 256
        invariant fb[..] == DrawByte(old(fb[..]), dst, byte, InkOf(vid, lcd), i)
      {
        ShiftedByteBit(byte, i);
        var colour: Option<Rgb> := None;
        if Bit(bits, 7) {
          if lcd.fg.None? {
            colour := Some(ColourOf(vid.colourFg));
          } else {
            colour := Some(Rgb(0x0, 0xff, 0x0));
          }
        } else if !transp {
          if lcd.bg.None? {
            colour := Some(ColourOf(vid.colourBg));
          } else {
            colour := Some(lcd.bg.value);
          }
        }
        assert colour == PixelAt(byte, i, InkOf(vid, lcd));
        if colour.Some? {
          PutPixel(p, colour.value);
        }
        ShiftInByte(byte, i);
        bits := bits * 2 % 256;
        p := p + PIXEL_BYTES;
      }
    }

    /** `console_normal_putc_xy` of the ODROID-GO Advance build: a character that
        would end past the console width gives -EAGAIN and draws nothing;
        otherwise the 46 rows of its glyph are drawn, each font byte as eight
        pixels MSB first, and the cursor advances by one font width. */
    method PutcXy(xFrac: nat, y: nat, ch: Byte) returns (ret: int)
      requires RowsOk(font.rowBytes, font.table)
      requires FIRST_GLYPH <= ch && (ch - FIRST_GLYPH) * GLYPH_ROWS + GLYPH_ROWS <= |font.table|
      requires xFrac + xCharsize * VID_FRAC_DIV <= xsizeFrac ==>
                 GlyphLine(y, xFrac) + Lines(GLYPH_ROWS - 1, vid.lineLength) + BYTE_SPAN * font.rowBytes <= fb.Length
      modifies fb
      ensures xFrac + xCharsize * VID_FRAC_DIV > xsizeFrac ==> ret == -EAGAIN && fb[..] == old(fb[..])
      ensures xFrac + xCharsize * VID_FRAC_DIV <= xsizeFrac ==>
                ret == font.width * VID_FRAC_DIV
                && fb[..] == DrawGlyph(old(fb[..]), GlyphLine(y, xFrac), vid.lineLength, font.rowBytes,
                                       Glyph(font, ch), InkOf(vid, lcd), GLYPH_ROWS)
    {
      var line := y * vid.lineLength + xFrac / VID_FRAC_DIV * PIXEL_BYTES;
      if xFrac + xCharsize * VID_FRAC_DIV > xsizeFrac {
        return -EAGAIN;
      }
      ghost var line0 := line;
      ghost var glyph := Glyph(font, ch);
      ghost var ink := InkOf(vid, lcd);
      var base := ch * GLYPH_ROWS - 1702;
      GlyphRowsOk(font, ch);
      var row := 0;
      while row < GLYPH_ROWS
        invariant 0 <= row <= GLYPH_ROWS
        decreases GLYPH_ROWS - row
        invariant line == line0 + Lines(row, vid.lineLength)
        invariant row > 0 ==> line0 + Lines(row - 1, vid.lineLength) + BYTE_SPAN * font.rowBytes <= fb.Length
        invariant fb[..] == DrawGlyph(old(fb[..]), line0, vid.lineLength, font.rowBytes, glyph, ink, row)
      {
        GlyphRowFits(line0, vid.lineLength, font.rowBytes, row, fb.Length);
        DrawGlyphNext(old(fb[..]), line0, vid.lineLength, font.rowBytes, glyph, ink, row);
        assert glyph[row] == font.table[base + row];
        PutGlyphRow(line, font.table[base + row]);
        line := line + vid.lineLength;
        row := row + 1;
      }
      return font.width * VID_FRAC_DIV;
    }
  }
}
