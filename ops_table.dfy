/**
 * The `struct fbtft_ops` hook table and `fbtft_merge_fbtftops`. A hook is
 * either unset (a NULL pointer) or names the function it points to.
 */
module OpsTable {
  import opened Common

  /**
   * The functions a hook can point to: the generic ones of fbtft-core, named
   * by what they do and the bus they drive, and `Driver(id)` for a function
   * the panel driver supplies itself.
   */
  datatype Fn =
    | WriteSpi                                  // fbtft_write_spi
    | ReadSpi                                   // fbtft_read_spi
    | WriteSpiEmulate9                          // fbtft_write_spi_emulate_9
    | WriteGpioWr(bus: int)                     // fbtft_write_gpio{8,16}_wr
    | WriteVmem16(bus: int)                     // fbtft_write_vmem16_bus{8,9,16}
    | WriteRegBus(regwidth: int, bus: int)      // fbtft_write_reg{8,16}_bus{8,9,16}
    | GenericSetAddrWin                         // fbtft_set_addr_win
    | GenericReset                              // fbtft_reset
    | GenericRegisterBacklight                  // fbtft_register_backlight
    | InitDisplayFlat                           // fbtft_init_display
    | InitDisplayDt                             // fbtft_init_display_dt
    | Driver(id: int)

  /** The twelve hooks `fbtft_merge_fbtftops` copies, in the order it copies them. */
  datatype Hook =
    | Write | Read | WriteVmem | WriteRegister | SetAddrWin | Reset
    | InitDisplay | Blank | RegisterBacklight | UnregisterBacklight | SetVar | SetGamma

  /** A value of `struct fbtft_ops`. */
  datatype Ops = Ops(
    write: Option<Fn>, read: Option<Fn>, writeVmem: Option<Fn>, writeRegister: Option<Fn>,
    setAddrWin: Option<Fn>, reset: Option<Fn>, initDisplay: Option<Fn>, blank: Option<Fn>,
    registerBacklight: Option<Fn>, unregisterBacklight: Option<Fn>, setVar: Option<Fn>,
    setGamma: Option<Fn>)

  /** The zero-filled table: every hook NULL. */
  const NoOps: Ops := Ops(None, None, None, None, None, None, None, None, None, None, None, None)

  /** The hook `h` of `o`. */
  function Get(o: Ops, h: Hook): Option<Fn> {
    match h
    case Write => o.write
    case Read => o.read
    case WriteVmem => o.writeVmem
    case WriteRegister => o.writeRegister
    case SetAddrWin => o.setAddrWin
    case Reset => o.reset
    case InitDisplay => o.initDisplay
    case Blank => o.blank
    case RegisterBacklight => o.registerBacklight
    case UnregisterBacklight => o.unregisterBacklight
    case SetVar => o.setVar
    case SetGamma => o.setGamma
  }

  /** Two tables with the same hooks are the same table. */
  lemma SameHooks(a: Ops, b: Ops)
    requires forall h :: Get(a, h) == Get(b, h)
    ensures a == b
  {
    assert Get(a, Hook.Write) == Get(b, Hook.Write) && Get(a, Hook.Read) == Get(b, Hook.Read);
    assert Get(a, Hook.WriteVmem) == Get(b, Hook.WriteVmem);
    assert Get(a, Hook.WriteRegister) == Get(b, Hook.WriteRegister);
    assert Get(a, Hook.SetAddrWin) == Get(b, Hook.SetAddrWin);
    assert Get(a, Hook.Reset) == Get(b, Hook.Reset);
    assert Get(a, Hook.InitDisplay) == Get(b, Hook.InitDisplay) && Get(a, Hook.Blank) == Get(b, Hook.Blank);
    assert Get(a, Hook.RegisterBacklight) == Get(b, Hook.RegisterBacklight);
    assert Get(a, Hook.UnregisterBacklight) == Get(b, Hook.UnregisterBacklight);
    assert Get(a, Hook.SetVar) == Get(b, Hook.SetVar) && Get(a, Hook.SetGamma) == Get(b, Hook.SetGamma);
  }

  /** One line of the merge, `if (src->h) dst->h = src->h;`: the override when it is set. */
  function Override(d: Option<Fn>, s: Option<Fn>): Option<Fn> {
    if s.Some? then s else d
  }

  /** `fbtft_merge_fbtftops(dst, src)` on values: every hook `src` sets wins. */
  function MergeOps(dst: Ops, src: Ops): Ops {
    Ops(Override(dst.write, src.write), Override(dst.read, src.read),
        Override(dst.writeVmem, src.writeVmem), Override(dst.writeRegister, src.writeRegister),
        Override(dst.setAddrWin, src.setAddrWin), Override(dst.reset, src.reset),
        Override(dst.initDisplay, src.initDisplay), Override(dst.blank, src.blank),
        Override(dst.registerBacklight, src.registerBacklight),
        Override(dst.unregisterBacklight, src.unregisterBacklight),
        Override(dst.setVar, src.setVar), Override(dst.setGamma, src.setGamma))
  }

  /** After a merge every hook is the override when that is set, and the old hook otherwise. */
  lemma OverrideWins(dst: Ops, src: Ops)
    ensures forall h :: Get(MergeOps(dst, src), h) == if Get(src, h).Some? then Get(src, h) else Get(dst, h)
  {
    forall h ensures Get(MergeOps(dst, src), h) == if Get(src, h).Some? then Get(src, h) else Get(dst, h) {
      match h
      case Write =>
      case Read =>
      case WriteVmem =>
      case WriteRegister =>
      case SetAddrWin =>
      case Reset =>
      case InitDisplay =>
      case Blank =>
      case RegisterBacklight =>
      case UnregisterBacklight =>
      case SetVar =>
      case SetGamma =>
    }
  }

  /** Merging the same overrides twice is merging them once. */
  lemma MergeIdempotent(dst: Ops, src: Ops)
    ensures MergeOps(MergeOps(dst, src), src) == MergeOps(dst, src)
  {
    OverrideWins(dst, src);
    OverrideWins(MergeOps(dst, src), src);
    SameHooks(MergeOps(MergeOps(dst, src), src), MergeOps(dst, src));
  }

  /** An all-NULL table overrides nothing, and overriding an all-NULL table copies the overrides. */
  lemma MergeUnits(o: Ops)
    ensures MergeOps(o, NoOps) == o
    ensures MergeOps(NoOps, o) == o
  {
    OverrideWins(o, NoOps);
    OverrideWins(NoOps, o);
    assert forall h :: Get(NoOps, h).None?;
    SameHooks(MergeOps(o, NoOps), o);
    SameHooks(MergeOps(NoOps, o), o);
  }

  /** Merging `b` and then `c` is merging `b` overridden by `c`. */
  lemma MergeAssociative(a: Ops, b: Ops, c: Ops)
    ensures MergeOps(MergeOps(a, b), c) == MergeOps(a, MergeOps(b, c))
  {
    OverrideWins(a, b);
    OverrideWins(MergeOps(a, b), c);
    OverrideWins(b, c);
    OverrideWins(a, MergeOps(b, c));
    SameHooks(MergeOps(MergeOps(a, b), c), MergeOps(a, MergeOps(b, c)));
  }

  /** `par->fbtftops`: the hook table probe fills in place. */
  class FbtftOps {
    var write: Option<Fn>
    var read: Option<Fn>
    var writeVmem: Option<Fn>
    var writeRegister: Option<Fn>
    var setAddrWin: Option<Fn>
    var reset: Option<Fn>
    var initDisplay: Option<Fn>
    var blank: Option<Fn>
    var registerBacklight: Option<Fn>
    var unregisterBacklight: Option<Fn>
    var setVar: Option<Fn>
    var setGamma: Option<Fn>

    /** The table as a value. */
    function Table(): Ops
      reads this
    {
      Ops(write, read, writeVmem, writeRegister, setAddrWin, reset, initDisplay, blank,
          registerBacklight, unregisterBacklight, setVar, setGamma)
    }

    /** A zero-filled table, as `devm_kzalloc` leaves it. */
    constructor ()
      ensures Table() == NoOps
    {
      write, read, writeVmem, writeRegister := None, None, None, None;
      setAddrWin, reset, initDisplay, blank := None, None, None, None;
      registerBacklight, unregisterBacklight, setVar, setGamma := None, None, None, None;
    }

    /** `fbtft_merge_fbtftops(this, src)`: copy every hook `src` sets. */
    method Merge(src: Ops)
      modifies this
      ensures Table() == MergeOps(old(Table()), src)
    {
      MergeBus(src);
      MergeRest(src);
    }

    /** The bus half of the merge: `write` to `reset`. */
    method MergeBus(src: Ops)
      modifies this
      ensures write == Override(old(write), src.write)
      ensures read == Override(old(read), src.read)
      ensures writeVmem == Override(old(writeVmem), src.writeVmem)
      ensures writeRegister == Override(old(writeRegister), src.writeRegister)
      ensures setAddrWin == Override(old(setAddrWin), src.setAddrWin)
      ensures reset == Override(old(reset), src.reset)
      ensures initDisplay == old(initDisplay) && blank == old(blank) && registerBacklight == old(registerBacklight) && unregisterBacklight == old(unregisterBacklight) && setVar == old(setVar) && setGamma == old(setGamma)
    {
      write := Override(write, src.write);
      read := Override(read, src.read);
      writeVmem := Override(writeVmem, src.writeVmem);
      writeRegister := Override(writeRegister, src.writeRegister);
      setAddrWin := Override(setAddrWin, src.setAddrWin);
      reset := Override(reset, src.reset);
    }

    /** The rest of the merge: `init_display` to `set_gamma`. */
    method MergeRest(src: Ops)
      modifies this
      ensures initDisplay == Override(old(initDisplay), src.initDisplay)
      ensures blank == Override(old(blank), src.blank)
      ensures registerBacklight == Override(old(registerBacklight), src.registerBacklight)
      ensures unregisterBacklight == Override(old(unregisterBacklight), src.unregisterBacklight)
      ensures setVar == Override(old(setVar), src.setVar)
      ensures setGamma == Override(old(setGamma), src.setGamma)
      ensures write == old(write) && read == old(read) && writeVmem == old(writeVmem) && writeRegister == old(writeRegister) && setAddrWin == old(setAddrWin) && reset == old(reset)
    {
      initDisplay := Override(initDisplay, src.initDisplay);
      blank := Override(blank, src.blank);
      registerBacklight := Override(registerBacklight, src.registerBacklight);
      unregisterBacklight := Override(unregisterBacklight, src.unregisterBacklight);
      setVar := Override(setVar, src.setVar);
      setGamma := Override(setGamma, src.setGamma);
    }
  }
}
