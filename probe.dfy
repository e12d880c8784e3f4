/**
 * The configuration half of `fbtft_probe_common`: the defaults it fills in,
 * the device properties it reads, the conditions that abort the probe, the size
 * of the transmit buffer, the choice of bus functions, the merge of the
 * driver's own hooks, and the choice of init interpreter; and the GPIO and
 * init-hook checks `fbtft_register_framebuffer` makes before the panel is
 * touched.
 */
module Probe {
  import opened Common
  import opened OpsTable
  import Framebuffer

  /** Defaults for a `fps` or `bpp` the driver leaves at 0. */
  const DEFAULT_FPS: u32 := 20
  const DEFAULT_BPP: u32 := 16

  /** The part of `struct fbtft_display` the probe reads or fills in. */
  datatype Display = Display(
    width: u32, height: u32, regwidth: u32, buswidth: u32, backlight: u32, bpp: u32, fps: u32,
    txbuflen: int,                            // `int`: -1 asks for a full-frame buffer
    gammaNum: u32, gammaLen: u32,
    hasGamma: bool,                           // `display->gamma` is a string, not NULL
    hasInitSequence: bool,                    // `display->init_sequence` is not NULL
    ops: Ops)                                 // `display->fbtftops`, the driver's own hooks

  /**
   * A device property: present and readable with a value, or present but
   * failing to read with error code `err`. An absent property is a name
   * missing from the map.
   */
  datatype Prop = Readable(v: u32) | Unreadable(err: ErrCode)

  /** A failed read returns a non-zero code; `fbtft_property_unsigned` treats 0 as success. */
  type ErrCode = e: int | e != 0 witness -EINVAL

  /** The device properties the probe looks up, by their names in the firmware description. */
  datatype PropName =
    | Width | Height | Regwidth | Buswidth | Backlight | Bpp | Rotate | Bgr | Txbuflen | Startbyte | Gamma

  /** What a successful probe has configured in `par`. */
  datatype Config = Config(
    display: Display, rotate: u32, bgr: bool, startbyte: u8,
    txbufLen: u32,                            // 0: no transmit buffer
    extraLen: Option<nat>,                    // the 9-bit emulation buffer, when allocated
    bitsPerWord9: bool,                       // the SPI device switched to 9-bit words
    warnedNoRegWriter: bool,                  // no generic `write_register` for the bus
    ops: Ops)                                 // `par->fbtftops`

  // ---------------------------------------------------------------------
  // Device properties
  // ---------------------------------------------------------------------

  /** The properties whose read can abort the probe, in the order they are read. */
  const READ_ORDER: seq<PropName> :=
    [Width, Height, Regwidth, Buswidth, Backlight, Bpp, Rotate, Txbuflen,
     Startbyte, Gamma]

  /** `fbtft_property_unsigned(dev, name, &val)`: an absent property leaves `val` as it is. */
  function PropertyUnsigned(props: map<PropName, Prop>, name: PropName, val: u32): (r: Result<u32>)
    ensures r.Ok? <==> (name in props ==> props[name].Readable?)
    ensures r.Ok? ==> r.value == PropOr(props, name, val)
    ensures r.Err? ==> r.code == props[name].err
  {
    if name !in props then Ok(val)
    else match props[name]
      case Readable(v) => Ok(v)
      case Unreadable(err) => Err(err)
  }

  /** The value a successful read leaves: the property when present, `dflt` otherwise. */
  function PropOr(props: map<PropName, Prop>, name: PropName, dflt: u32): u32 {
    if name in props && props[name].Readable? then props[name].v else dflt
  }

  /** The error of the first property in `names` that is present but unreadable. */
  function FirstReadError(props: map<PropName, Prop>, names: seq<PropName>): (r: Option<int>)
    ensures r.None? <==> forall i :: 0 <= i < |names| && names[i] in props ==> props[names[i]].Readable?
  {
    if names == [] then None
    else if names[0] in props && props[names[0]].Unreadable? then Some(props[names[0]].err)
    else
      var rest := FirstReadError(props, names[1..]);
      assert forall i :: 1 <= i < |names| ==> names[i] == names[1..][i - 1];
      rest
  }

  // ---------------------------------------------------------------------
  // Transmit buffer
  // ---------------------------------------------------------------------

  /** `vmem_size = width * height * bpp / 8`, in `unsigned int`. */
  function VmemSize(width: u32, height: u32, bpp: u32): (r: u32)
    ensures r < TWO_32 / 8
  {
    U32(U32(width * height) * bpp) / 8
  }

  /** The probe's `vmem_size` is the `smem_len` the framebuffer gets, whatever the rotation. */
  lemma VmemIsSmemLen(width: u32, height: u32, bpp: u32, rotate: u32)
    ensures VmemSize(width, height, bpp)
         == Framebuffer.FramebufferGeometry(width, height, bpp, rotate).smemLen
  {
    assert width * height == height * width;
  }

  function Min(a: int, b: int): int {
    if a <= b then a else b
  }

  /**
   * The transmit buffer length the probe settles on. The length asked for is
   * the `txbuflen` property, else the driver's `display->txbuflen` converted
   * to `unsigned int`; a non-zero request is capped at a frame plus two
   * bytes; with nothing asked for, a little-endian host with pixels wider
   * than a byte gets a page for byte-swapping.
   */
  function TxBufFor(propLen: u32, displayLen: int, width: u32, height: u32, bpp: u32,
                    littleEndian: bool, pageSize: u32): (r: u32)
    ensures r <= VmemSize(width, height, bpp) + 2 || r == pageSize
    ensures r == 0 <==> propLen == 0 && U32(displayLen) == 0 && !(littleEndian && bpp > 8 && pageSize != 0)
  {
    var asked := if propLen != 0 then propLen else U32(displayLen);
    if asked == 0 then (if littleEndian && bpp > 8 then pageSize else 0)
    else Min(asked, VmemSize(width, height, bpp) + 2)
  }

  /**
   * `display->txbuflen == -1` asks for the whole frame plus the start byte
   * (the case `fb_uc1611` relies on) unless the `txbuflen` property is set.
   */
  lemma TxBufMinusOneIsFullFrame(propLen: u32, width: u32, height: u32, bpp: u32,
                                  littleEndian: bool, pageSize: u32)
    ensures TxBufFor(propLen, -1, width, height, bpp, littleEndian, pageSize)
         == if propLen == 0 then VmemSize(width, height, bpp) + 2
            else Min(propLen, VmemSize(width, height, bpp) + 2)
  {
    assert U32(-1) == TWO_32 - 1;
  }

  /**
   * The transmit-buffer sizing of `fbtft_probe_common`, step by step: the
   * `-1` special case, the fallback to the driver's length, the cap, and the
   * byte-swapping page on little-endian hosts.
   */
  method TxBufLen(propLen: u32, displayLen: int, width: u32, height: u32, bpp: u32,
                  littleEndian: bool, pageSize: u32) returns (txbuflen: u32)
    ensures txbuflen == TxBufFor(propLen, displayLen, width, height, bpp, littleEndian, pageSize)
  {
    var vmem := VmemSize(width, height, bpp);
    txbuflen := propLen;
    if txbuflen == 0 && displayLen == -1 {
      txbuflen := vmem + 2;
    }
    if txbuflen == 0 {
      txbuflen := U32(displayLen);
    }
    if txbuflen > vmem + 2 {
      txbuflen := vmem + 2;
    }
    if littleEndian && txbuflen == 0 && bpp > 8 {
      txbuflen := pageSize;
    }
  }

  /**
   * The buffer `fbtft_write_spi_emulate_9` needs for `txlen` bytes: room for
   * nine bits per byte with slack, `txlen + txlen / 8 + 8` bytes.
   */
  function ExtraBufLen(txlen: nat): (r: nat)
    ensures 8 * r >= 9 * txlen + 57
    ensures r >= 8
  {
    txlen + txlen / 8 + 8
  }

  // ---------------------------------------------------------------------
  // Bus functions
  // ---------------------------------------------------------------------

  /** The register widths and bus widths fbtft-core has a `write_register` for. */
  predicate HasRegWriter(regwidth: u32, buswidth: u32, isSpi: bool) {
    || (regwidth == 8 && buswidth == 8)
    || (regwidth == 8 && buswidth == 9 && isSpi)
    || (regwidth == 16 && buswidth == 8)
    || (regwidth == 16 && buswidth == 16)
  }

  /** 9-bit SPI that the controller cannot do natively, emulated with 8-bit words. */
  predicate Emulates9Bit(buswidth: u32, isSpi: bool, spi9: bool) {
    isSpi && buswidth == 9 && !spi9
  }

  /**
   * The generic hooks probe installs before the driver's own, as a table.
   * `isSpi` tells an SPI device from a platform device; `spi9` says the SPI
   * controller supports 9-bit words.
   */
  function DefaultOps(regwidth: u32, buswidth: u32, backlight: u32, isSpi: bool, spi9: bool): Ops {
    NoOps.(write := Some(WriterFor(buswidth, isSpi, spi9)), read := Some(ReadSpi),
           writeVmem := Some(VmemWriterFor(buswidth)),
           writeRegister := Some(RegWriterFor(regwidth, buswidth, isSpi)),
           setAddrWin := Some(GenericSetAddrWin), reset := Some(GenericReset),
           registerBacklight := if backlight != 0 then Some(GenericRegisterBacklight) else None)
  }

  /** The `write_register` for the widths, the 8-bit one when fbtft-core has none. */
  function RegWriterFor(regwidth: u32, buswidth: u32, isSpi: bool): Fn {
    if HasRegWriter(regwidth, buswidth, isSpi) then WriteRegBus(regwidth, buswidth) else WriteRegBus(8, 8)
  }

  /** The `write_vmem` for the bus width, the 8-bit one for an unknown width. */
  function VmemWriterFor(buswidth: u32): Fn {
    if buswidth == 8 || buswidth == 9 || buswidth == 16 then WriteVmem16(buswidth) else WriteVmem16(8)
  }

  /** The `write`: GPIO writes on a parallel bus, 9-bit emulation, plain SPI otherwise. */
  function WriterFor(buswidth: u32, isSpi: bool, spi9: bool): Fn {
    if Emulates9Bit(buswidth, isSpi, spi9) then WriteSpiEmulate9
    else if !isSpi && (buswidth == 8 || buswidth == 16) then WriteGpioWr(buswidth)
    else WriteSpi
  }

  /**
   * The generic table drives the bus it is given: register and pixel writers
   * for that bus width when fbtft-core has them (8-bit ones otherwise), GPIO
   * writes on a parallel bus, emulation for 9-bit SPI the controller lacks;
   * the hooks a panel needs are always there, and the backlight hook exactly
   * when a backlight is declared.
   */
  lemma DefaultsMatchBus(regwidth: u32, buswidth: u32, backlight: u32, isSpi: bool, spi9: bool)
    ensures var o := DefaultOps(regwidth, buswidth, backlight, isSpi, spi9);
      && (forall h :: (h in {Hook.Write, Hook.Read, Hook.WriteVmem, Hook.WriteRegister,
                             Hook.SetAddrWin, Hook.Reset}) ==> Get(o, h).Some?)
      && (forall h :: (h in {Hook.InitDisplay, Hook.Blank, Hook.UnregisterBacklight,
                             Hook.SetVar, Hook.SetGamma}) ==> Get(o, h).None?)
      && (o.registerBacklight.Some? <==> backlight != 0)
      && o.writeRegister.value.WriteRegBus?
      && (HasRegWriter(regwidth, buswidth, isSpi)
          <==> o.writeRegister.value.regwidth == regwidth && o.writeRegister.value.bus == buswidth)
      && ((buswidth == 8 || buswidth == 9 || buswidth == 16) <==> o.writeVmem == Some(WriteVmem16(buswidth)))
      && (!isSpi && (buswidth == 8 || buswidth == 16) <==> o.write == Some(WriteGpioWr(buswidth)))
      && (o.write == Some(WriteSpiEmulate9) <==> Emulates9Bit(buswidth, isSpi, spi9))
  {
  }

  /**
   * The bus-function selection of `fbtft_probe_common` on the zeroed
   * `par->fbtftops`: generic defaults first, then the register writer, the
   * pixel writer, and the GPIO writer and 9-bit SPI setup, each chosen by
   * the widths. It reports whether the register widths had no writer and
   * whether the SPI device was switched to 9-bit words.
   */
  method SelectBusOps(t: FbtftOps, regwidth: u32, buswidth: u32, backlight: u32, isSpi: bool, spi9: bool)
    returns (warned: bool, bitsPerWord9: bool)
    requires t.Table() == NoOps
    modifies t
    ensures t.Table() == DefaultOps(regwidth, buswidth, backlight, isSpi, spi9)
    ensures warned <==> !HasRegWriter(regwidth, buswidth, isSpi)
    ensures bitsPerWord9 <==> isSpi && buswidth == 9 && spi9
  {
    SetGenericOps(t, backlight);
    warned := SelectRegWriter(t, regwidth, buswidth, isSpi);
    SelectVmemWriter(t, buswidth);
    bitsPerWord9 := SelectWriter(t, buswidth, isSpi, spi9);
  }

  /** The generic hooks, with the 8-bit bus writers as placeholders. */
  method SetGenericOps(t: FbtftOps, backlight: u32)
    modifies t
    ensures t.Table() == old(t.Table()).(write := Some(WriteSpi), read := Some(ReadSpi),
      writeVmem := Some(WriteVmem16(8)), writeRegister := Some(WriteRegBus(8, 8)),
      setAddrWin := Some(GenericSetAddrWin), reset := Some(GenericReset),
      registerBacklight := if backlight != 0 then Some(GenericRegisterBacklight) else old(t.registerBacklight))
  {
    t.write := Some(WriteSpi);
    t.read := Some(ReadSpi);
    t.writeVmem := Some(WriteVmem16(8));
    t.writeRegister := Some(WriteRegBus(8, 8));
    t.setAddrWin := Some(GenericSetAddrWin);
    t.reset := Some(GenericReset);
    if backlight != 0 {
      t.registerBacklight := Some(GenericRegisterBacklight);
    }
  }

  /** The `write_register` chain; `warned` when no case matches and the hook stays as it was. */
  method SelectRegWriter(t: FbtftOps, regwidth: u32, buswidth: u32, isSpi: bool) returns (warned: bool)
    modifies t
    ensures warned <==> !HasRegWriter(regwidth, buswidth, isSpi)
    ensures t.Table() == old(t.Table()).(writeRegister :=
      if warned then old(t.writeRegister) else Some(WriteRegBus(regwidth, buswidth)))
  {
    warned := false;
    if regwidth == 8 && buswidth == 8 {
      t.writeRegister := Some(WriteRegBus(8, 8));
    } else if regwidth == 8 && buswidth == 9 && isSpi {
      t.writeRegister := Some(WriteRegBus(8, 9));
    } else if regwidth == 16 && buswidth == 8 {
      t.writeRegister := Some(WriteRegBus(16, 8));
    } else if regwidth == 16 && buswidth == 16 {
      t.writeRegister := Some(WriteRegBus(16, 16));
    } else {
      warned := true;
    }
  }

  /** The `write_vmem` chain; an unknown bus width keeps the hook as it was. */
  method SelectVmemWriter(t: FbtftOps, buswidth: u32)
    modifies t
    ensures t.Table() == old(t.Table()).(writeVmem :=
      if buswidth == 8 || buswidth == 9 || buswidth == 16 then Some(WriteVmem16(buswidth)) else old(t.writeVmem))
  {
    if buswidth == 8 {
      t.writeVmem := Some(WriteVmem16(8));
    } else if buswidth == 9 {
      t.writeVmem := Some(WriteVmem16(9));
    } else if buswidth == 16 {
      t.writeVmem := Some(WriteVmem16(16));
    }
  }

  /**
   * The GPIO `write` of a platform device and the 9-bit SPI setup: a
   * controller with 9-bit words is switched to them, one without gets the
   * emulating `write`.
   */
  method SelectWriter(t: FbtftOps, buswidth: u32, isSpi: bool, spi9: bool) returns (bitsPerWord9: bool)
    modifies t
    ensures bitsPerWord9 <==> isSpi && buswidth == 9 && spi9
    ensures t.Table() == old(t.Table()).(write :=
      if !isSpi && (buswidth == 8 || buswidth == 16) then Some(WriteGpioWr(buswidth))
      else if Emulates9Bit(buswidth, isSpi, spi9) then Some(WriteSpiEmulate9)
      else old(t.write))
  {
    if !isSpi {
      if buswidth == 8 {
        t.write := Some(WriteGpioWr(8));
      } else if buswidth == 16 {
        t.write := Some(WriteGpioWr(16));
      }
    }

    bitsPerWord9 := false;
    if isSpi && buswidth == 9 {
      if spi9 {
        bitsPerWord9 := true;
      } else {
        t.write := Some(WriteSpiEmulate9);
      }
    }
  }

  // ---------------------------------------------------------------------
  // Init interpreter and the registration check
  // ---------------------------------------------------------------------

  /**
   * `par->fbtftops.init_display` after the init selection, given the merged
   * hook: with an `init` device-tree property the DT interpreter is stored
   * into `display->fbtftops`, which has already been merged, so `par` keeps
   * the merged hook; otherwise an init sequence installs the flat
   * interpreter over whatever the driver gave.
   */
  function InitDisplayHook(merged: Option<Fn>, hasInitProp: bool, hasInitSequence: bool): Option<Fn> {
    if hasInitProp then merged
    else if hasInitSequence then Some(InitDisplayFlat)
    else merged
  }

  /** The first check of `fbtft_register_framebuffer`: an `init_display` hook must be set. */
  function RegisterInitCheck(ops: Ops): (ret: int)
    ensures ret == 0 || ret == -EINVAL
    ensures ret == -EINVAL <==> ops.initDisplay.None?
  {
    if ops.initDisplay.None? then -EINVAL else 0
  }

  /**
   * A device-tree `init` program is never run by the probe path: the DT
   * interpreter does not reach `par->fbtftops`, so registration fails with
   * -EINVAL exactly when the driver brings no `init_display` of its own.
   * This holds for every driver table that does not itself install the DT
   * interpreter.
   */
  lemma DtInitNeverInstalled(defaults: Ops, driver: Ops, hasInitSequence: bool)
    requires driver.initDisplay != Some(InitDisplayDt) && defaults.initDisplay.None?
    ensures var merged := MergeOps(defaults, driver);
      var ops := merged.(initDisplay := InitDisplayHook(merged.initDisplay, true, hasInitSequence));
      && ops.initDisplay != Some(InitDisplayDt)
      && (RegisterInitCheck(ops) == -EINVAL <==> driver.initDisplay.None?)
  {
    assert Get(driver, Hook.InitDisplay) == driver.initDisplay;
  }

  /** Without an `init` property, an init sequence always selects the flat interpreter. */
  lemma InitSequenceSelectsFlat(merged: Option<Fn>)
    ensures InitDisplayHook(merged, false, true) == Some(InitDisplayFlat)
    ensures RegisterInitCheck(NoOps.(initDisplay := InitDisplayHook(merged, false, true))) == 0
  {
  }

  // ---------------------------------------------------------------------
  // GPIO check
  // ---------------------------------------------------------------------

  /**
   * The GPIOs the bus needs are there: the `dc` line unless the bus is 9-bit
   * or a start byte carries the D/C bit, and on a platform (parallel) device
   * the `wr` line and the first `buswidth` data lines.
   */
  predicate GpiosComplete(buswidth: u32, startbyte: u8, dc: int, isPdev: bool, wr: int, db: seq<int>)
    requires isPdev && wr >= 0 ==> buswidth <= |db|
  {
    && !(buswidth != 9 && startbyte == 0 && dc < 0)
    && (isPdev ==> wr >= 0 && forall i :: 0 <= i < buswidth ==> db[i] >= 0)
  }

  /**
   * `fbtft_verify_gpios(par)`: -EINVAL when a needed GPIO is missing
   * (negative), 0 otherwise.
   */
  method VerifyGpios(buswidth: u32, startbyte: u8, dc: int, isPdev: bool, wr: int, db: seq<int>)
    returns (ret: int)
    requires isPdev && wr >= 0 ==> buswidth <= |db|
    ensures ret == 0 || ret == -EINVAL
    ensures ret == 0 <==> GpiosComplete(buswidth, startbyte, dc, isPdev, wr, db)
    ensures ret == -EINVAL <==>
      || (buswidth != 9 && startbyte == 0 && dc < 0)
      || (isPdev && (wr < 0 || exists i :: 0 <= i < buswidth && db[i] < 0))
  {
    if buswidth != 9 && startbyte == 0 && dc < 0 {
      return -EINVAL;
    }
    if !isPdev {
      return 0;
    }
    if wr < 0 {
      return -EINVAL;
    }
    for i := 0 to buswidth
      invariant forall j :: 0 <= j < i ==> db[j] >= 0
    {
      if db[i] < 0 {
        return -EINVAL;
      }
    }
    return 0;
  }

  // ---------------------------------------------------------------------
  // The probe
  // ---------------------------------------------------------------------

  /** What the property reads leave: the updated display and the probe's own locals. */
  datatype Settings = Settings(display: Display, rotate: u32, bgr: bool, propLen: u32, startbyte: u8)

  /**
   * The reads succeeded: each property overrides the driver's value (after
   * the `fps`/`bpp` defaults), `led-gpios` forces a backlight, and the
   * `rotate`, `txbuflen` and `startbyte` locals start from 0.
   */
  predicate SettingsFit(s: Settings, display: Display, props: map<PropName, Prop>, hasLedGpios: bool) {
    var d := s.display;
    && d.width == PropOr(props, Width, display.width)
    && d.height == PropOr(props, Height, display.height)
    && d.regwidth == PropOr(props, Regwidth, display.regwidth)
    && d.buswidth == PropOr(props, Buswidth, display.buswidth)
    && d.backlight == (if hasLedGpios then 1 else PropOr(props, Backlight, display.backlight))
    && d.bpp == PropOr(props, Bpp, if display.bpp == 0 then DEFAULT_BPP else display.bpp)
    && d.fps == (if display.fps == 0 then DEFAULT_FPS else display.fps)
    && d.hasGamma == (display.hasGamma || Gamma in props)
    && d == display.(width := d.width, height := d.height, regwidth := d.regwidth,
                     buswidth := d.buswidth, backlight := d.backlight, bpp := d.bpp,
                     fps := d.fps, hasGamma := d.hasGamma)
    && s.rotate == PropOr(props, Rotate, 0)
    && s.bgr == (Bgr in props)
    && s.propLen == PropOr(props, Txbuflen, 0)
    && s.startbyte == U8(PropOr(props, Startbyte, 0))
  }

  /** The property `n` is present but cannot be read. */
  predicate Fails(props: map<PropName, Prop>, n: PropName) {
    n in props && props[n].Unreadable?
  }

  /** `FirstReadError` on the probe's own order, one property after the other. */
  lemma ReadOrderUnfolded(props: map<PropName, Prop>)
    ensures FirstReadError(props, READ_ORDER) ==
      if Fails(props, Width) then Some(props[Width].err)
      else if Fails(props, Height) then Some(props[Height].err)
      else if Fails(props, Regwidth) then Some(props[Regwidth].err)
      else if Fails(props, Buswidth) then Some(props[Buswidth].err)
      else if Fails(props, Backlight) then Some(props[Backlight].err)
      else if Fails(props, Bpp) then Some(props[Bpp].err)
      else if Fails(props, Rotate) then Some(props[Rotate].err)
      else if Fails(props, Txbuflen) then Some(props[Txbuflen].err)
      else if Fails(props, Startbyte) then Some(props[Startbyte].err)
      else if Fails(props, Gamma) then Some(props[Gamma].err)
      else None
  {
    ReadStep(props, [Width, Height, Regwidth, Buswidth, Backlight, Bpp, Rotate, Txbuflen, Startbyte, Gamma]);
    ReadStep(props, [Height, Regwidth, Buswidth, Backlight, Bpp, Rotate, Txbuflen, Startbyte, Gamma]);
    ReadStep(props, [Regwidth, Buswidth, Backlight, Bpp, Rotate, Txbuflen, Startbyte, Gamma]);
    ReadStep(props, [Buswidth, Backlight, Bpp, Rotate, Txbuflen, Startbyte, Gamma]);
    ReadStep(props, [Backlight, Bpp, Rotate, Txbuflen, Startbyte, Gamma]);
    LaterReads(props);
  }

  /** The last five reads of the probe, one after the other. */
  lemma LaterReads(props: map<PropName, Prop>)
    ensures FirstReadError(props, [Bpp, Rotate, Txbuflen, Startbyte, Gamma]) ==
      if Fails(props, Bpp) then Some(props[Bpp].err)
      else if Fails(props, Rotate) then Some(props[Rotate].err)
      else if Fails(props, Txbuflen) then Some(props[Txbuflen].err)
      else if Fails(props, Startbyte) then Some(props[Startbyte].err)
      else if Fails(props, Gamma) then Some(props[Gamma].err)
      else None
  {
    ReadStep(props, [Bpp, Rotate, Txbuflen, Startbyte, Gamma]);
    ReadStep(props, [Rotate, Txbuflen, Startbyte, Gamma]);
    ReadStep(props, [Txbuflen, Startbyte, Gamma]);
    ReadStep(props, [Startbyte, Gamma]);
    ReadStep(props, [Gamma]);
  }

  lemma ReadStep(props: map<PropName, Prop>, names: seq<PropName>)
    requires names != []
    ensures FirstReadError(props, names)
         == if Fails(props, names[0]) then Some(props[names[0]].err) else FirstReadError(props, names[1..])
  {
  }

  /** The part of `fbtft_probe_common` from the `fps`/`bpp` defaults to `led-gpios`. */
  method ReadProperties(display: Display, props: map<PropName, Prop>, hasLedGpios: bool)
    returns (r: Result<Settings>)
    ensures r.Err? <==> FirstReadError(props, READ_ORDER).Some?
    ensures r.Err? ==> r.code == FirstReadError(props, READ_ORDER).value
    ensures r.Ok? ==> SettingsFit(r.value, display, props, hasLedGpios)
  {
    ReadOrderUnfolded(props);
    var fps := if display.fps == 0 then DEFAULT_FPS else display.fps;
    var bpp := if display.bpp == 0 then DEFAULT_BPP else display.bpp;

    var v := PropertyUnsigned(props, Width, display.width);
    if v.Err? { return Err(v.code); }
    var width := v.value;
    v := PropertyUnsigned(props, Height, display.height);
    if v.Err? { return Err(v.code); }
    var height := v.value;
    v := PropertyUnsigned(props, Regwidth, display.regwidth);
    if v.Err? { return Err(v.code); }
    var regwidth := v.value;
    v := PropertyUnsigned(props, Buswidth, display.buswidth);
    if v.Err? { return Err(v.code); }
    var buswidth := v.value;
    v := PropertyUnsigned(props, Backlight, display.backlight);
    if v.Err? { return Err(v.code); }
    var backlight := v.value;
    v := PropertyUnsigned(props, Bpp, bpp);
    if v.Err? { return Err(v.code); }
    bpp := v.value;
    v := PropertyUnsigned(props, Rotate, 0);
    if v.Err? { return Err(v.code); }
    var rotate := v.value;
    var bgr := Bgr in props;
    v := PropertyUnsigned(props, Txbuflen, 0);
    if v.Err? { return Err(v.code); }
    var propLen := v.value;
    v := PropertyUnsigned(props, Startbyte, 0);
    if v.Err? { return Err(v.code); }
    var startbyte := U8(v.value);
    var hasGamma := display.hasGamma;
    if Gamma in props {
      if props[Gamma].Unreadable? { return Err(props[Gamma].err); }
      hasGamma := true;
    }
    if hasLedGpios { backlight := 1; }
    var d := display.(width := width, height := height, regwidth := regwidth, buswidth := buswidth,
                      backlight := backlight, bpp := bpp, fps := fps, hasGamma := hasGamma);
    return Ok(Settings(d, rotate, bgr, propLen, startbyte));
  }

  /**
   * The hook setup of `fbtft_probe_common` on a freshly zeroed
   * `par->fbtftops`: the bus functions, the merge of the driver's hooks from
   * `d.ops`, then the init selection. Returns the new `par->fbtftops` and
   * the driver's table, which the DT branch writes.
   */
  method ConfigureOps(d: Display, hasInitProp: bool, isSpi: bool, spi9: bool)
    returns (warned: bool, bitsPerWord9: bool, ops: Ops, driverOps: Ops)
    ensures warned <==> !HasRegWriter(d.regwidth, d.buswidth, isSpi)
    ensures bitsPerWord9 <==> isSpi && d.buswidth == 9 && spi9
    ensures var merged := MergeOps(DefaultOps(d.regwidth, d.buswidth, d.backlight, isSpi, spi9), d.ops);
      ops == merged.(initDisplay := InitDisplayHook(merged.initDisplay, hasInitProp, d.hasInitSequence))
    ensures driverOps == if hasInitProp then d.ops.(initDisplay := Some(InitDisplayDt)) else d.ops
  {
    var t := new FbtftOps();
    warned, bitsPerWord9 := SelectBusOps(t, d.regwidth, d.buswidth, d.backlight, isSpi, spi9);
    t.Merge(d.ops);
    driverOps := d.ops;
    if hasInitProp {
      driverOps := driverOps.(initDisplay := Some(InitDisplayDt));
    } else if d.hasInitSequence {
      t.initDisplay := Some(InitDisplayFlat);
    }
    ops := t.Table();
  }

  /**
   * The configuration `fbtft_probe_common(display, ...)` sets up before it
   * allocates the framebuffer, or the error it returns first. `props` are
   * the device properties (`bgr` counts by presence only), `hasLedGpios`
   * and `hasInitProp` the `led-gpios` and `init` device-tree properties,
   * `isSpi` an SPI device (otherwise a platform device), `spi9` an SPI
   * controller with 9-bit words; `littleEndian`, `pageSize` and `gammaMax`
   * are `__LITTLE_ENDIAN`, `PAGE_SIZE` and `FBTFT_GAMMA_MAX_VALUES_TOTAL`.
   */
  method ProbeCommon(display: Display, props: map<PropName, Prop>, hasLedGpios: bool, hasInitProp: bool,
                     isSpi: bool, spi9: bool, littleEndian: bool, pageSize: u32, gammaMax: u32)
    returns (r: Result<Config>)
    ensures U32(display.gammaNum * display.gammaLen) > gammaMax ==> r == Err(-EINVAL)
    ensures U32(display.gammaNum * display.gammaLen) <= gammaMax && FirstReadError(props, READ_ORDER).Some?
      ==> r == Err(FirstReadError(props, READ_ORDER).value)
    ensures (U32(display.gammaNum * display.gammaLen) <= gammaMax && FirstReadError(props, READ_ORDER).None?
             && PropOr(props, Buswidth, display.buswidth) == 0) ==> r == Err(-EINVAL)
    ensures r.Ok? <==>
      && U32(display.gammaNum * display.gammaLen) <= gammaMax
      && FirstReadError(props, READ_ORDER).None?
      && PropOr(props, Buswidth, display.buswidth) != 0
    ensures r.Ok? ==> ConfigFits(r.value, display, props, hasLedGpios, hasInitProp,
                                 isSpi, spi9, littleEndian, pageSize)
  {
    if U32(display.gammaNum * display.gammaLen) > gammaMax {
      return Err(-EINVAL);
    }
    var s := ReadProperties(display, props, hasLedGpios);
    if s.Err? {
      return Err(s.code);
    }
    var d := s.value.display;
    if d.buswidth == 0 {
      return Err(-EINVAL);
    }

    var txbuflen := TxBufLen(s.value.propLen, d.txbuflen, d.width, d.height, d.bpp, littleEndian, pageSize);

    var warned, bitsPerWord9, ops, driverOps := ConfigureOps(d, hasInitProp, isSpi, spi9);
    var extraLen: Option<nat> := None;
    if isSpi && d.buswidth == 9 && !bitsPerWord9 {
      extraLen := Some(ExtraBufLen(txbuflen));
    }
    d := d.(ops := driverOps);
    r := Ok(Config(d, s.value.rotate, s.value.bgr, s.value.startbyte, txbuflen, extraLen,
                   bitsPerWord9, warned, ops));
    assert SettingsFit(s.value, display, props, hasLedGpios);
    assert ConfigFits(r.value, display, props, hasLedGpios, hasInitProp, isSpi, spi9, littleEndian, pageSize);
  }

  /**
   * What a successful probe configures: each property overrides the
   * driver's value (after the `fps`/`bpp` defaults), `led-gpios` forces a
   * backlight, the transmit buffer follows `TxBufFor`, the extra buffer is
   * there exactly for emulated 9-bit SPI, `par->fbtftops` is the generic
   * table overridden by the driver's hooks with the init interpreter chosen
   * by `InitDisplayHook`, and only the DT branch writes the driver's table.
   */
  predicate ConfigFits(c: Config, display: Display, props: map<PropName, Prop>, hasLedGpios: bool,
                       hasInitProp: bool, isSpi: bool, spi9: bool, littleEndian: bool, pageSize: u32)
  {
    var d := c.display;
    var base := if hasInitProp then d.(ops := display.ops) else d;
    && SettingsFit(Settings(base, c.rotate, c.bgr, PropOr(props, Txbuflen, 0), c.startbyte),
                   display, props, hasLedGpios)
    && d.ops == (if hasInitProp then display.ops.(initDisplay := Some(InitDisplayDt)) else display.ops)
    && c.txbufLen == TxBufFor(PropOr(props, Txbuflen, 0), display.txbuflen, d.width, d.height, d.bpp,
                              littleEndian, pageSize)
    && c.extraLen == (if Emulates9Bit(d.buswidth, isSpi, spi9) then Some(ExtraBufLen(c.txbufLen)) else None)
    && c.bitsPerWord9 == (isSpi && d.buswidth == 9 && spi9)
    && c.warnedNoRegWriter == !HasRegWriter(d.regwidth, d.buswidth, isSpi)
    && var merged := MergeOps(DefaultOps(d.regwidth, d.buswidth, d.backlight, isSpi, spi9), display.ops);
       c.ops == merged.(initDisplay := InitDisplayHook(merged.initDisplay, hasInitProp, display.hasInitSequence))
  }
}
