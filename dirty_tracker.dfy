/**
 * The framebuffer-to-panel pipeline of fbtft: drawing marks scanlines dirty
 * (`fbtft_mkdirty`), the deferred worker takes the dirty interval, folds in the
 * dirty pages the host reports (`fbtft_deferred_io`) and flushes the lines
 * through the address-window and pixel-write hooks (`fbtft_update_display`).
 *
 * The dirty interval `(dirty_lines_start, dirty_lines_end)` is a pair of
 * `unsigned int`; the empty interval is the sentinel `(yres - 1, 0)`. All
 * comparisons with it are unsigned, as in C.
 */
module DirtyTracker {
  import opened Common

  /** The pair `(dirty_lines_start, dirty_lines_end)`. */
  datatype Interval = Interval(start: u32, end: u32)

  /** The geometry the tracker relies on: a non-empty frame whose bytes fit in 32 bits. */
  predicate ValidGeometry(xres: int, yres: int, lineLength: int) {
    && 1 <= xres < TWO_31
    && 1 <= yres < TWO_31
    && 1 <= lineLength
    && yres * lineLength < TWO_32
  }

  /** The first line `fbtft_mkdirty(y, height)` merges, after `y == -1` becomes `y = 0`. */
  function MarkedFirst(y: int): int {
    if y == -1 then 0 else y
  }

  /**
   * The last line `fbtft_mkdirty(y, height)` merges: `y + height - 1`, where
   * `y == -1` becomes `y = 0, height = yres - 1`, so that the last line is
   * `yres - 2`.
   */
  function MarkedLast(y: int, height: int, yres: int): int {
    if y == -1 then yres - 2 else y + height - 1
  }

  /**
   * The unsigned min/max merge of lines `first..last` into `iv`, as both
   * `fbtft_mkdirty` and the page loop of `fbtft_deferred_io` do it.
   */
  function Widen(iv: Interval, first: int, last: int): (r: Interval)
    ensures r.start <= iv.start && r.start <= U32(first)
    ensures r.start == iv.start || r.start == U32(first)
    ensures r.end >= iv.end && r.end >= U32(last)
    ensures r.end == iv.end || r.end == U32(last)
  {
    Interval(if U32(first) < iv.start then U32(first) else iv.start,
             if U32(last) > iv.end then U32(last) else iv.end)
  }

  /** The interval after the calls `fbtft_mkdirty(calls[0])`, ..., in order. */
  function MarkAll(iv: Interval, calls: seq<(int, int)>, yres: int): Interval
    decreases |calls|
  {
    if calls == [] then iv
    else
      var c := calls[|calls| - 1];
      Widen(MarkAll(iv, calls[..|calls| - 1], yres), MarkedFirst(c.0), MarkedLast(c.0, c.1, yres))
  }

  /** A sequence of `fbtft_mkdirty` calls only widens the interval and covers every call. */
  lemma {:induction false} MarkAllCovers(iv: Interval, calls: seq<(int, int)>, yres: int)
    ensures var r := MarkAll(iv, calls, yres);
      && r.start <= iv.start && r.end >= iv.end
      && forall i :: 0 <= i < |calls| ==>
           r.start <= U32(MarkedFirst(calls[i].0)) && r.end >= U32(MarkedLast(calls[i].0, calls[i].1, yres))
    decreases |calls|
  {
    if calls != [] {
      var init := calls[..|calls| - 1];
      MarkAllCovers(iv, init, yres);
      forall i | 0 <= i < |calls| - 1
        ensures calls[i] == init[i]
      {
      }
    }
  }

  /**
   * The lines of one dirty page as `fbtft_deferred_io` computes them: the
   * line of its first byte, and the line of its last byte clamped to the last
   * line of the frame. Both are stored in `unsigned int`.
   */
  function PageLines(pageIndex: nat, pageSize: nat, lineLength: nat, yres: int): (r: (u32, u32))
    requires pageSize >= 1 && lineLength >= 1
    ensures r.1 <= U32(yres - 1)
  {
    LinesOfBytes(pageIndex * pageSize, pageSize, lineLength, yres)
  }

  /** The first and the clamped last line of the `size` bytes at `index`. */
  function LinesOfBytes(index: nat, size: nat, lineLength: nat, yres: int): (r: (u32, u32))
    requires size >= 1 && lineLength >= 1
    ensures r.1 <= U32(yres - 1)
  {
    var yLow := U32(index / lineLength);
    var yHigh := U32((index + size - 1) / lineLength);
    (yLow, if yHigh > U32(yres - 1) then U32(yres - 1) else yHigh)
  }

  /**
   * Every byte of a page that lies inside the frame is on a line in
   * `[yLow, yHigh]` of that page.
   */
  lemma PageLinesCoverBytes(pageIndex: nat, pageSize: nat, lineLength: nat, yres: int, b: nat)
    requires pageSize >= 1 && lineLength >= 1 && 1 <= yres < TWO_32
    requires pageIndex * pageSize + pageSize <= TWO_32
    requires pageIndex * pageSize <= b < pageIndex * pageSize + pageSize
    requires b / lineLength <= yres - 1
    ensures var r := PageLines(pageIndex, pageSize, lineLength, yres);
      r.0 <= b / lineLength <= r.1
  {
    LinesOfBytesCover(pageIndex * pageSize, pageSize, lineLength, yres, b);
  }

  /** Every byte of `[index, index + size)` inside the frame is on a line the range covers. */
  lemma LinesOfBytesCover(index: nat, size: nat, lineLength: nat, yres: int, b: nat)
    requires size >= 1 && lineLength >= 1 && 1 <= yres < TWO_32
    requires index + size <= TWO_32 && index <= b < index + size
    requires b / lineLength <= yres - 1
    ensures var r := LinesOfBytes(index, size, lineLength, yres);
      r.0 <= b / lineLength <= r.1
  {
    LinesAround(index, size, lineLength, b);
    var lo, hi := index / lineLength, (index + size - 1) / lineLength;
    assert U32(lo) == lo && U32(hi) == hi && U32(yres - 1) == yres - 1;
  }

  /** A byte of `[index, index + size)` lies on a line between those of its ends. */
  lemma LinesAround(index: nat, size: nat, lineLength: nat, b: nat)
    requires size >= 1 && lineLength >= 1 && index + size <= TWO_32
    requires index <= b < index + size
    ensures index / lineLength <= b / lineLength <= (index + size - 1) / lineLength < TWO_32
  {
    DivMonotonic(index, b, lineLength);
    DivMonotonic(b, index + size - 1, lineLength);
    DivAtMost(index + size - 1, lineLength);
  }

  /** The interval after the page loop of `fbtft_deferred_io` over `pages`. */
  function FoldPages(iv: Interval, pages: seq<nat>, pageSize: nat, lineLength: nat, yres: int): Interval
    requires pageSize >= 1 && lineLength >= 1
    decreases |pages|
  {
    if pages == [] then iv
    else
      var p := PageLines(pages[|pages| - 1], pageSize, lineLength, yres);
      Widen(FoldPages(iv, pages[..|pages| - 1], pageSize, lineLength, yres), p.0, p.1)
  }

  /** The page loop only widens the snapshot and covers the lines of every page. */
  lemma {:induction false} FoldPagesCovers(iv: Interval, pages: seq<nat>, pageSize: nat, lineLength: nat, yres: int)
    requires pageSize >= 1 && lineLength >= 1
    ensures var r := FoldPages(iv, pages, pageSize, lineLength, yres);
      && r.start <= iv.start && r.end >= iv.end
      && forall i :: 0 <= i < |pages| ==>
           var p := PageLines(pages[i], pageSize, lineLength, yres);
           r.start <= p.0 && r.end >= p.1
    decreases |pages|
  {
    if pages != [] {
      var init := pages[..|pages| - 1];
      FoldPagesCovers(iv, init, pageSize, lineLength, yres);
      forall i | 0 <= i < |pages| - 1
        ensures pages[i] == init[i]
      {
      }
    }
  }

  /**
   * The sanity check of `fbtft_update_display`: an inverted range, or one
   * reaching past the last line, becomes the whole frame; a valid range is
   * kept. The range used is never empty and always inside the frame.
   */
  function SanitizeRange(startLine: u32, endLine: u32, yres: int): (r: (u32, u32))
    ensures r.0 <= r.1 <= U32(yres - 1)
    ensures startLine <= endLine <= U32(yres - 1) ==> r == (startLine, endLine)
    ensures !(startLine <= endLine <= U32(yres - 1)) ==> r == (0, U32(yres - 1))
  {
    var maxLine := U32(yres - 1);
    var (s, e) := if startLine > endLine then (0, maxLine) else (startLine, endLine);
    if s > maxLine || e > maxLine then (0, maxLine) else (s, e)
  }

  /**
   * The byte span `fbtft_update_display` hands to `write_vmem` for lines
   * `s..e`. The products are computed in `unsigned int`, but inside a frame
   * whose size fits in 32 bits they never wrap, and the span ends inside the
   * frame buffer.
   */
  function VmemSpan(s: u32, e: u32, lineLength: nat, yres: int): (r: (u32, u32))
    requires 1 <= lineLength && 1 <= yres && yres * lineLength < TWO_32
    requires s <= e <= yres - 1
    ensures r.0 == s * lineLength
    ensures r.1 == (e - s + 1) * lineLength
    ensures r.0 + r.1 <= yres * lineLength
  {
    MulMonotonic(e + 1, yres, lineLength);
    MulMonotonic(s, e + 1, lineLength);
    assert (e - s + 1) * lineLength == (e + 1) * lineLength - s * lineLength;
    (U32(s * lineLength), U32((e - s + 1) * lineLength))
  }

  /**
   * The calls `fbtft_update_display(par, startLine, endLine)` makes: the
   * address window `(0, s, xres - 1, e)` when the hook is present, then the
   * pixel write of those lines, where `(s, e)` is the sanitised range.
   */
  function UpdateDisplayEvents(startLine: u32, endLine: u32, xres: int, yres: int, lineLength: nat,
                               hasSetAddrWin: bool): (r: seq<Event>)
    requires ValidGeometry(xres, yres, lineLength)
    ensures var (s, e) := SanitizeRange(startLine, endLine, yres);
      && |r| == (if hasSetAddrWin then 2 else 1)
      && (hasSetAddrWin ==> r[0] == SetAddrWin(0, s, xres - 1, e))
      && r[|r| - 1] == WriteVmem(s * lineLength, (e - s + 1) * lineLength)
      && 0 <= s <= e <= yres - 1
      && s * lineLength + (e - s + 1) * lineLength <= yres * lineLength
  {
    var (s, e) := SanitizeRange(startLine, endLine, yres);
    var (offset, len) := VmemSpan(s, e, lineLength, yres);
    (if hasSetAddrWin then [SetAddrWin(0, s, xres - 1, e)] else []) + [WriteVmem(offset, len)]
  }

  /**
   * Coverage of the whole pipeline: after any sequence of `fbtft_mkdirty`
   * calls and dirty pages, starting from any state, the flushed lines include
   * every marked line that lies in the frame, and every line of every page.
   */
  lemma FlushCovers(iv: Interval, calls: seq<(int, int)>, pages: seq<nat>, pageSize: nat,
                    lineLength: nat, yres: int)
    requires pageSize >= 1 && lineLength >= 1 && 1 <= yres < TWO_32
    ensures var r := SanitizeRange(FoldPages(MarkAll(iv, calls, yres), pages, pageSize, lineLength, yres).start,
                                   FoldPages(MarkAll(iv, calls, yres), pages, pageSize, lineLength, yres).end, yres);
      && (forall i :: 0 <= i < |calls| && 0 <= MarkedFirst(calls[i].0) <= MarkedLast(calls[i].0, calls[i].1, yres) < TWO_32 ==>
            r.0 <= MarkedFirst(calls[i].0) &&
            (if MarkedLast(calls[i].0, calls[i].1, yres) < yres then MarkedLast(calls[i].0, calls[i].1, yres) else yres - 1) <= r.1)
      && (forall i :: 0 <= i < |pages| ==>
            var p := PageLines(pages[i], pageSize, lineLength, yres);
            p.0 <= p.1 ==> r.0 <= p.0 && p.1 <= r.1)
  {
    var m := MarkAll(iv, calls, yres);
    var f := FoldPages(m, pages, pageSize, lineLength, yres);
    MarkAllCovers(iv, calls, yres);
    FoldPagesCovers(m, pages, pageSize, lineLength, yres);
  }

  /** `fbtft_mkdirty(0, 10000)` on a 240-line panel flushes lines 0..239. */
  lemma ClampExample()
    ensures var iv := Widen(Interval(239, 0), MarkedFirst(0), MarkedLast(0, 10000, 240));
      SanitizeRange(iv.start, iv.end, 240) == (0, 239)
  {
  }

  /**
   * `fbtft_mkdirty(-1, 0)` on a clean interval marks lines `0..yres-2`: the
   * last line of the frame is not part of the flush.
   */
  lemma FullFrameMarkStopsShort(yres: int)
    requires 2 <= yres < TWO_31
    ensures var iv := Widen(Interval(yres - 1, 0), MarkedFirst(-1), MarkedLast(-1, 0, yres));
      SanitizeRange(iv.start, iv.end, yres) == (0, yres - 2)
  {
  }

  /** A flush of the clean sentinel with no dirty pages rewrites the whole frame. */
  lemma EmptyFlushIsFullFrame(yres: int)
    requires 1 <= yres < TWO_32
    ensures SanitizeRange(yres - 1, 0, yres) == (0, yres - 1)
  {
  }

  /** The driver state the dirty tracker works on (the relevant part of `struct fbtft_par`). */
  class Par {
    var dirtyLinesStart: u32
    var dirtyLinesEnd: u32
    const xres: int
    const yres: int
    const lineLength: nat
    /** Whether `par->fbtftops.set_addr_win` is set. */
    const hasSetAddrWin: bool
    /** The calls made into the panel hooks, oldest first. */
    var bus: seq<Event>

    predicate Valid() {
      ValidGeometry(xres, yres, lineLength)
    }

    function Dirty(): Interval
      reads this
    {
      Interval(dirtyLinesStart, dirtyLinesEnd)
    }

    /** A zero-filled `par`: the interval starts as `(0, 0)`, not as the sentinel. */
    constructor (xres: int, yres: int, lineLength: nat, hasSetAddrWin: bool)
      requires ValidGeometry(xres, yres, lineLength)
      ensures Valid()
      ensures this.xres == xres && this.yres == yres && this.lineLength == lineLength
      ensures this.hasSetAddrWin == hasSetAddrWin
      ensures Dirty() == Interval(0, 0) && bus == []
    {
      this.xres := xres;
      this.yres := yres;
      this.lineLength := lineLength;
      this.hasSetAddrWin := hasSetAddrWin;
      dirtyLinesStart, dirtyLinesEnd := 0, 0;
      bus := [];
    }

    /**
     * `fbtft_mkdirty(info, y, height)`, without the scheduling of the worker.
     * `y + height - 1` may leave the range of `int`; only its value as
     * `unsigned int` is compared, where the kernel's wrapping arithmetic
     * gives the same result.
     */
    method MkDirty(y: int, height: int)
      requires Valid()
      requires IsCInt(y) && IsCInt(height)
      modifies this`dirtyLinesStart, this`dirtyLinesEnd
      ensures Dirty() == Widen(old(Dirty()), MarkedFirst(y), MarkedLast(y, height, yres))
    {
      var y, height := y, height;
      if y == -1 {
        y := 0;
        height := yres - 1;
      }
      if U32(y) < dirtyLinesStart {
        dirtyLinesStart := U32(y);
      }
      if U32(y + height - 1) > dirtyLinesEnd {
        dirtyLinesEnd := U32(y + height - 1);
      }
    }

    /** What `fbtft_fb_fillrect`, `fbtft_fb_copyarea` and `fbtft_fb_imageblit` do after drawing. */
    method AfterDraw(dy: int, height: int)
      requires Valid()
      requires IsCInt(dy) && IsCInt(height)
      modifies this`dirtyLinesStart, this`dirtyLinesEnd
      ensures Dirty() == Widen(old(Dirty()), MarkedFirst(dy), MarkedLast(dy, height, yres))
    {
      MkDirty(dy, height);
    }

    /** What `fbtft_fb_write` does after writing: mark the whole frame, `fbtft_mkdirty(info, -1, 0)`. */
    method AfterWrite()
      requires Valid()
      modifies this`dirtyLinesStart, this`dirtyLinesEnd
      ensures Dirty() == Widen(old(Dirty()), 0, yres - 2)
    {
      MkDirty(-1, 0);
    }

    /** `fbtft_update_display(par, startLine, endLine)`. */
    method UpdateDisplay(startLine: u32, endLine: u32)
      requires Valid()
      modifies this`bus
      ensures bus == old(bus) + UpdateDisplayEvents(startLine, endLine, xres, yres, lineLength, hasSetAddrWin)
    {
      var s, e := startLine, endLine;
      if s > e {
        s := 0;
        e := yres - 1;
      }
      if s > yres - 1 || e > yres - 1 {
        s := 0;
        e := yres - 1;
      }
      if hasSetAddrWin {
        bus := bus + [SetAddrWin(0, s, xres - 1, e)];
      }
      var offset := U32(s * lineLength);
      var len := U32((e - s + 1) * lineLength);
      bus := bus + [WriteVmem(offset, len)];
    }

    /**
     * `fbtft_deferred_io(info, pagelist)`, where `pages` are the indices of the
     * dirty pages in list order: take the interval and leave the clean
     * sentinel behind, fold in the pages, flush.
     */
    method DeferredIo(pages: seq<nat>, pageSize: nat)
      requires Valid() && pageSize >= 1
      modifies this`dirtyLinesStart, this`dirtyLinesEnd, this`bus
      ensures Dirty() == Interval(yres - 1, 0)
      ensures var f := FoldPages(old(Dirty()), pages, pageSize, lineLength, yres);
        bus == old(bus) + UpdateDisplayEvents(f.start, f.end, xres, yres, lineLength, hasSetAddrWin)
    {
      var start: u32, end: u32 := dirtyLinesStart, dirtyLinesEnd;
      dirtyLinesStart := yres - 1;
      dirtyLinesEnd := 0;
      var k := 0;
      while k < |pages|
        invariant 0 <= k <= |pages|
        invariant Interval(start, end) == FoldPages(old(Dirty()), pages[..k], pageSize, lineLength, yres)
        invariant Dirty() == Interval(yres - 1, 0) && bus == old(bus)
      {
        var index := pages[k] * pageSize;
        var yLow := U32(index / lineLength);
        var yHigh := U32((index + pageSize - 1) / lineLength);
        if yHigh > yres - 1 {
          yHigh := yres - 1;
        }
        if yLow < start {
          start := yLow;
        }
        if yHigh > end {
          end := yHigh;
        }
        assert pages[..k + 1][..k] == pages[..k];
        k := k + 1;
      }
      assert pages[..k] == pages;
      UpdateDisplay(start, end);
    }
  }
}
