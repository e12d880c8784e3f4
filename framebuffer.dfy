/**
 * The framebuffer face of fbtft: the geometry `fbtft_framebuffer_alloc`
 * derives from the display and its rotation, the pseudo-palette packing of
 * `chan_to_field` / `fbtft_fb_setcolreg`, and the blank-code dispatch of
 * `fbtft_fb_blank`.
 */
module Framebuffer {
  import opened Common
  import DirtyTracker

  /** `FB_VISUAL_TRUECOLOR`, the only visual `fbtft_fb_setcolreg` packs for. */
  const FB_VISUAL_TRUECOLOR: int := 2

  /** The `FB_BLANK_*` codes. */
  const FB_BLANK_UNBLANK: int := 0
  const FB_BLANK_NORMAL: int := 1
  const FB_BLANK_VSYNC_SUSPEND: int := 2
  const FB_BLANK_HSYNC_SUSPEND: int := 3
  const FB_BLANK_POWERDOWN: int := 4

  /** Entries of the pseudo palette. */
  const PALETTE_SIZE: int := 16

  // ---------------------------------------------------------------------
  // Geometry
  // ---------------------------------------------------------------------

  /** What `fbtft_framebuffer_alloc` stores in `info->var` / `info->fix`. */
  datatype Geometry = Geometry(xres: u32, yres: u32, lineLength: u32, smemLen: u32)

  /**
   * The framebuffer geometry for a panel of `width` x `height` pixels at
   * `bpp` bits per pixel under `rotate`: 90 and 270 swap the two sides.
   * Products are `unsigned int` and wrap modulo 2^32 before the division.
   */
  function FramebufferGeometry(width: u32, height: u32, bpp: u32, rotate: u32): (g: Geometry)
    ensures (rotate == 90 || rotate == 270) ==> g.xres == height && g.yres == width
    ensures !(rotate == 90 || rotate == 270) ==> g.xres == width && g.yres == height
    ensures g.xres * bpp < TWO_32 ==> g.lineLength == g.xres * bpp / 8
    ensures g.xres * g.yres * bpp < TWO_32 ==> g.smemLen == g.xres * g.yres * bpp / 8
  {
    var (w, h) := if rotate == 90 || rotate == 270 then (height, width) else (width, height);
    ProductsFit(w, h, bpp);
    Geometry(w, h, U32(w * bpp) / 8, U32(U32(w * h) * bpp) / 8)
  }

  /** Products that fit in 32 bits do not wrap. */
  lemma ProductsFit(w: u32, h: u32, bpp: u32)
    ensures w * bpp < TWO_32 ==> U32(w * bpp) == w * bpp
    ensures w * h * bpp < TWO_32 ==> U32(U32(w * h) * bpp) == w * h * bpp
  {
    MulMonotonic(0, w, bpp);
    MulMonotonic(0, w, h);
    MulMonotonic(0, w * h, bpp);
    if w * h * bpp < TWO_32 && bpp >= 1 {
      MulMonotonic(1, bpp, w * h);
      assert U32(w * h) == w * h;
    }
  }

  /** Rotating by a quarter turn is the same as mounting the panel with its sides swapped. */
  lemma QuarterTurnSwapsSides(width: u32, height: u32, bpp: u32)
    ensures FramebufferGeometry(width, height, bpp, 90) == FramebufferGeometry(height, width, bpp, 0)
    ensures FramebufferGeometry(width, height, bpp, 270) == FramebufferGeometry(height, width, bpp, 0)
  {
    assert U32(height * width) == U32(width * height);
  }

  /**
   * For whole-byte pixels and a frame that fits in 32 bits, the buffer is
   * exactly `yres` lines of `line_length` bytes, and the dirty tracker's
   * geometry requirement holds for it.
   */
  lemma FrameIsWholeLines(width: u32, height: u32, bpp: u32, rotate: u32)
    requires 1 <= width < TWO_31 && 1 <= height < TWO_31
    requires bpp >= 8 && bpp % 8 == 0 && width * height * bpp < TWO_32
    ensures var g := FramebufferGeometry(width, height, bpp, rotate);
      && g.smemLen == g.yres * g.lineLength
      && DirtyTracker.ValidGeometry(g.xres, g.yres, g.lineLength)
  {
    var g := FramebufferGeometry(width, height, bpp, rotate);
    assert g.xres * g.yres == width * height;
    WholeLines(g.xres, g.yres, bpp / 8);
  }

  /** The products behind `FrameIsWholeLines`, on `w` x `h` pixels of `k` bytes. */
  lemma WholeLines(w: nat, h: nat, k: nat)
    requires w >= 1 && h >= 1 && k >= 1 && w * h * (8 * k) < TWO_32
    ensures w * (8 * k) < TWO_32 && w * (8 * k) / 8 == w * k
    ensures w * h * (8 * k) / 8 == h * (w * k)
    ensures 1 <= w * k && h * (w * k) < TWO_32
  {
    var bpp := 8 * k;
    MulMonotonic(1, h, w);
    MulMonotonic(w, w * h, bpp);
    MulMonotonic(1, w, k);
    WholeBytes(w, k);
    WholeBytes(w * h, k);
    assert w * h * k == h * (w * k);
    MulMonotonic(h * (w * k), w * h * bpp, 1) by {
      MulMonotonic(1, 8, w * h * k);
      assert w * h * bpp == 8 * (w * h * k);
    }
  }

  /** A line of `n` pixels of `8 * k` bits is `n * k` bytes. */
  lemma WholeBytes(n: nat, k: nat)
    ensures n * (8 * k) / 8 == n * k
  {
    assert n * (8 * k) == 8 * (n * k);
  }

  // ---------------------------------------------------------------------
  // Pseudo palette
  // ---------------------------------------------------------------------

  /** An `fb_bitfield`: where a colour channel sits in a pixel. */
  datatype Bitfield = Bitfield(offset: u32, length: u32)

  /** The three channels of `info->var` that `fbtft_fb_setcolreg` reads. */
  datatype ColorLayout = ColorLayout(red: Bitfield, green: Bitfield, blue: Bitfield)

  /** The RGB565 layout `fbtft_framebuffer_alloc` installs. */
  const RGB565: ColorLayout := ColorLayout(Bitfield(11, 5), Bitfield(5, 6), Bitfield(0, 5))

  /**
   * Shifts of 32 or more bits are undefined in C; the layouts fbtft installs
   * stay within a 16-bit channel and a 32-bit pixel.
   */
  predicate FieldOk(bf: Bitfield) {
    bf.length <= 16 && bf.offset < 32
  }

  /**
   * `chan_to_field(chan, bf)`: the top `bf.length` bits of the 16-bit channel
   * value, moved to `bf.offset`. The field sits at bit `offset` and, when it
   * fits in 32 bits, below bit `offset + length`.
   */
  function ChanToField(chan: u32, bf: Bitfield): (r: u32)
    requires FieldOk(bf)
    ensures TopBits(chan, bf.length) < Pow2(bf.length)
    ensures bf.offset + bf.length <= 32 ==>
      r == TopBits(chan, bf.length) * Pow2(bf.offset) && r < Pow2(bf.offset + bf.length)
  {
    var f := TopBits(chan, bf.length);
    FieldBelow(chan % TWO_16, bf.length);
    FieldFits(f, bf.length, bf.offset);
    U32(f * Pow2(bf.offset))
  }

  /** The top `len` bits of the low 16 bits of `chan`: `(chan & 0xffff) >> (16 - len)`. */
  function TopBits(chan: u32, len: nat): nat
    requires len <= 16
  {
    var d := Pow2(16 - len);
    DivNat(chan % TWO_16, d);
    (chan % TWO_16) / d
  }

  lemma DivNat(a: nat, d: int)
    requires d >= 1
    ensures a / d >= 0
  {
  }

  lemma FieldBelow(c: nat, len: nat)
    requires c < TWO_16 && len <= 16
    ensures c / Pow2(16 - len) < Pow2(len)
  {
    var d, m := Pow2(16 - len), Pow2(len);
    Pow2Split(16 - len, len);
    Pow2Sixteen();
    assert d * m == TWO_16;
    QuotientBelow(c, d, m);
  }

  lemma QuotientBelow(c: nat, d: nat, m: nat)
    requires d >= 1 && c < d * m
    ensures c / d < m
  {
    var q := c / d;
    assert d * q <= c;
    MulCancelLt(q, m, d);
  }

  lemma FieldFits(f: nat, len: nat, off: nat)
    requires f < Pow2(len)
    ensures f * Pow2(off) >= 0
    ensures off + len <= 32 ==> f * Pow2(off) < Pow2(off + len) <= TWO_32
  {
    MulMonotonic(0, f, Pow2(off));
    if off + len <= 32 {
      Pow2Table();
      Pow2Split(len, off);
      Pow2Mono(off + len, 32);
      var d := Pow2(off);
      MulMonotonic(f + 1, Pow2(len), d);
      assert (f + 1) * d == f * d + d;
    }
  }

  /** The entry `fbtft_fb_setcolreg` packs: the three fields, OR-ed together. */
  function PackColor(red: u32, green: u32, blue: u32, layout: ColorLayout): (r: u32)
    requires FieldOk(layout.red) && FieldOk(layout.green) && FieldOk(layout.blue)
  {
    var a := ChanToField(red, layout.red);
    var b := ChanToField(green, layout.green);
    var c := ChanToField(blue, layout.blue);
    OrU32(OrU32(a, b), c)
  }

  function OrU32(a: u32, b: u32): (r: u32)
  {
    Pow2Table();
    BitOrBound(a, b, 32);
    BitOr(a, b)
  }

  /**
   * Under the RGB565 layout the three fields do not overlap, so the packed
   * entry is `r5 << 11 | g6 << 5 | b5` from the top bits of each channel,
   * and each channel is read back from its own field.
   */
  lemma Rgb565Packing(red: u32, green: u32, blue: u32)
    ensures var r5 := (red % TWO_16) / 2048;
      var g6 := (green % TWO_16) / 1024;
      var b5 := (blue % TWO_16) / 2048;
      var v := PackColor(red, green, blue, RGB565);
      && v == r5 * 2048 + g6 * 32 + b5
      && v / 2048 == r5 && (v / 32) % 64 == g6 && v % 32 == b5
  {
    var r5 := (red % TWO_16) / 2048;
    var g6 := (green % TWO_16) / 1024;
    var b5 := (blue % TWO_16) / 2048;
    Rgb565Fields(red, green, blue);
    var a := ChanToField(red, RGB565.red);
    var b := ChanToField(green, RGB565.green);
    var c := ChanToField(blue, RGB565.blue);
    assert PackColor(red, green, blue, RGB565) == BitOr(BitOr(a, b), c);
    Rgb565Or(r5, g6, b5);
    Rgb565Unpack(r5, g6, b5);
  }

  /** The three RGB565 fields OR-ed together are their sum. */
  lemma Rgb565Or(r5: nat, g6: nat, b5: nat)
    requires r5 < 32 && g6 < 64 && b5 < 32
    ensures BitOr(BitOr(r5 * 2048, g6 * 32), b5) == r5 * 2048 + g6 * 32 + b5
  {
    Pow2Table();
    var a, b := r5 * 2048, g6 * 32;
    BitOrDisjoint(a, r5, b, 11);
    assert a + b == (r5 * 64 + g6) * Pow2(5);
    BitOrDisjoint(a + b, r5 * 64 + g6, b5, 5);
  }

  /** The three RGB565 fields: five, six and five top bits at 11, 5 and 0. */
  lemma Rgb565Fields(red: u32, green: u32, blue: u32)
    ensures ChanToField(red, RGB565.red) == (red % TWO_16) / 2048 * 2048
    ensures ChanToField(green, RGB565.green) == (green % TWO_16) / 1024 * 32
    ensures ChanToField(blue, RGB565.blue) == (blue % TWO_16) / 2048
    ensures (red % TWO_16) / 2048 < 32 && (green % TWO_16) / 1024 < 64 && (blue % TWO_16) / 2048 < 32
  {
    Pow2Table();
  }

  lemma Rgb565Unpack(r5: nat, g6: nat, b5: nat)
    requires r5 < 32 && g6 < 64 && b5 < 32
    ensures var v := r5 * 2048 + g6 * 32 + b5;
      v / 2048 == r5 && (v / 32) % 64 == g6 && v % 32 == b5
  {
    var v := r5 * 2048 + g6 * 32 + b5;
    DivUnique(v, 2048, r5);
    DivUnique(v, 32, r5 * 64 + g6);
    DivUnique(r5 * 64 + g6, 64, r5);
  }

  /**
   * `fbtft_fb_setcolreg(regno, red, green, blue, transp, info)` on the pseudo
   * palette `pal`: for a true-colour visual and `regno < 16` it stores the
   * packed entry and returns 0; otherwise it stores nothing and returns 1.
   * `transp` is not used.
   */
  method SetColReg(regno: u32, red: u32, green: u32, blue: u32, transp: u32,
                   visual: int, layout: ColorLayout, pal: array<u32>) returns (ret: int)
    requires pal.Length == PALETTE_SIZE
    requires FieldOk(layout.red) && FieldOk(layout.green) && FieldOk(layout.blue)
    modifies pal
    ensures ret == 0 <==> visual == FB_VISUAL_TRUECOLOR && regno < PALETTE_SIZE
    ensures ret == 0 || ret == 1
    ensures ret == 0 ==> pal[..] == old(pal[..])[regno := PackColor(red, green, blue, layout)]
    ensures ret != 0 ==> pal[..] == old(pal[..])
  {
    ret := 1;
    if visual == FB_VISUAL_TRUECOLOR {
      if regno < 16 {
        var v := ChanToField(red, layout.red);
        v := OrU32(v, ChanToField(green, layout.green));
        v := OrU32(v, ChanToField(blue, layout.blue));
        pal[regno] := v;
        ret := 0;
      }
    }
  }

  // ---------------------------------------------------------------------
  // Blanking
  // ---------------------------------------------------------------------

  /**
   * What `fbtft_fb_blank` does: the call it makes to the driver's `blank`
   * hook (`Some(on)` for `blank(par, on)`, `None` for no call) and what it
   * returns.
   */
  datatype BlankResult = BlankResult(call: Option<bool>, ret: int)

  /**
   * `fbtft_fb_blank(blank, info)`: `hasHook` says whether
   * `par->fbtftops.blank` is set, `hookRet` is what that hook returns.
   */
  function FbBlank(blank: int, hasHook: bool, hookRet: int): (r: BlankResult)
    ensures r.call.Some? <==> hasHook && FB_BLANK_UNBLANK <= blank <= FB_BLANK_POWERDOWN
    ensures r.call == Some(true) <==> hasHook && FB_BLANK_NORMAL <= blank <= FB_BLANK_POWERDOWN
    ensures r.call == Some(false) <==> hasHook && blank == FB_BLANK_UNBLANK
    ensures r.ret == if r.call.Some? then hookRet else -EINVAL
  {
    if !hasHook then BlankResult(None, -EINVAL)
    else if blank == FB_BLANK_POWERDOWN || blank == FB_BLANK_VSYNC_SUSPEND
         || blank == FB_BLANK_HSYNC_SUSPEND || blank == FB_BLANK_NORMAL then
      BlankResult(Some(true), hookRet)
    else if blank == FB_BLANK_UNBLANK then
      BlankResult(Some(false), hookRet)
    else BlankResult(None, -EINVAL)
  }
}
