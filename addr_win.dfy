/**
 * The default address-window hook `fbtft_set_addr_win`: three MIPI Display
 * Command Set writes that select the rectangle [xs, xe] x [ys, ye] and open a
 * memory write.
 */
module AddrWin {
  import opened Common

  /** MIPI DCS command numbers (video/mipi_display.h). */
  const MIPI_DCS_SET_COLUMN_ADDRESS: int := 0x2A
  const MIPI_DCS_SET_PAGE_ADDRESS: int := 0x2B
  const MIPI_DCS_WRITE_MEMORY_START: int := 0x2C

  /**
   * The big-endian byte pair `(x >> 8) & 0xFF, x & 0xFF` of a C int. Dafny's
   * division by a positive constant rounds down and its remainder is never
   * negative, which is what an arithmetic shift and a mask do to a negative
   * two's-complement value.
   */
  function Be16(x: int): (r: seq<int>)
    ensures |r| == 2 && 0 <= r[0] <= 0xFF && 0 <= r[1] <= 0xFF
    ensures r[0] * 0x100 + r[1] == x % TWO_16
  {
    [(x / 0x100) % 0x100, x % 0x100]
  }

  /** The register writes of `fbtft_set_addr_win(par, xs, ys, xe, ye)`. */
  function SetAddrWinWrites(xs: int, ys: int, xe: int, ye: int): (w: seq<Event>)
    ensures |w| == 3
    ensures w[0] == WriteReg([MIPI_DCS_SET_COLUMN_ADDRESS] + Be16(xs) + Be16(xe))
    ensures w[1] == WriteReg([MIPI_DCS_SET_PAGE_ADDRESS] + Be16(ys) + Be16(ye))
    ensures w[2] == WriteReg([MIPI_DCS_WRITE_MEMORY_START])
  {
    [ WriteReg([MIPI_DCS_SET_COLUMN_ADDRESS] + Be16(xs) + Be16(xe)),
      WriteReg([MIPI_DCS_SET_PAGE_ADDRESS] + Be16(ys) + Be16(ye)),
      WriteReg([MIPI_DCS_WRITE_MEMORY_START]) ]
  }

  /** Reads back a 16-bit big-endian coordinate from two data bytes. */
  function DecodeBe16(hi: int, lo: int): int {
    hi * 0x100 + lo
  }

  /**
   * What a panel controller sees: the first write is 2Ah with four data
   * bytes, which read back as xs and xe; the second is 2Bh, reading back as ys
   * and ye; the third is 2Ch with no data. Every data byte fits in 8 bits.
   */
  lemma SetAddrWinDecodes(xs: int, ys: int, xe: int, ye: int)
    requires 0 <= xs < TWO_16 && 0 <= ys < TWO_16 && 0 <= xe < TWO_16 && 0 <= ye < TWO_16
    ensures var w := SetAddrWinWrites(xs, ys, xe, ye);
      && |w[0].values| == 5 && |w[1].values| == 5 && |w[2].values| == 1
      && w[0].values[0] == MIPI_DCS_SET_COLUMN_ADDRESS
      && DecodeBe16(w[0].values[1], w[0].values[2]) == xs
      && DecodeBe16(w[0].values[3], w[0].values[4]) == xe
      && w[1].values[0] == MIPI_DCS_SET_PAGE_ADDRESS
      && DecodeBe16(w[1].values[1], w[1].values[2]) == ys
      && DecodeBe16(w[1].values[3], w[1].values[4]) == ye
      && w[2].values[0] == MIPI_DCS_WRITE_MEMORY_START
      && (forall k :: 0 <= k < 3 ==> forall j :: 1 <= j < |w[k].values| ==> 0 <= w[k].values[j] <= 0xFF)
  {
    var w := SetAddrWinWrites(xs, ys, xe, ye);
    var bxs, bxe, bys, bye := Be16(xs), Be16(xe), Be16(ys), Be16(ye);
    assert w[0].values == [MIPI_DCS_SET_COLUMN_ADDRESS, bxs[0], bxs[1], bxe[0], bxe[1]];
    assert w[1].values == [MIPI_DCS_SET_PAGE_ADDRESS, bys[0], bys[1], bye[0], bye[1]];
  }

  /** The worked example: the window (0x0102, 0x0304)-(0x0506, 0x0708). */
  lemma SetAddrWinExample()
    ensures SetAddrWinWrites(0x0102, 0x0304, 0x0506, 0x0708)
         == [ WriteReg([0x2A, 0x01, 0x02, 0x05, 0x06]),
              WriteReg([0x2B, 0x03, 0x04, 0x07, 0x08]),
              WriteReg([0x2C]) ]
  {
    assert Be16(0x0102) == [0x01, 0x02];
    assert Be16(0x0304) == [0x03, 0x04];
    assert Be16(0x0506) == [0x05, 0x06];
    assert Be16(0x0708) == [0x07, 0x08];
    assert [MIPI_DCS_SET_COLUMN_ADDRESS] + Be16(0x0102) + Be16(0x0506) == [0x2A, 0x01, 0x02, 0x05, 0x06];
    assert [MIPI_DCS_SET_PAGE_ADDRESS] + Be16(0x0304) + Be16(0x0708) == [0x2B, 0x03, 0x04, 0x07, 0x08];
  }
}
