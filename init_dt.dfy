/**
 * `fbtft_init_display_dt`: the interpreter of the device-tree `init`
 * property, a sequence of 32-bit words. A word carrying the command flag
 * starts a register write: its low 16 bits are the register, and each
 * following word whose upper 16 bits are clear is one more value. A word
 * carrying the delay flag sleeps for its low 16 bits in milliseconds. The two
 * flags (`FBTFT_OF_INIT_CMD`, `FBTFT_OF_INIT_DELAY`) are parameters here.
 */
module InitDt {
  import opened Common
  import opened InitProgram
  import InitFlat

  /** A word that continues a register write: upper 16 bits clear (`!(val & 0xFFFF0000)`). */
  predicate IsData(w: u32) {
    w < TWO_16
  }

  /** The test `val & flag` of the interpreter, for the single-bit flag `BIT(bit)`. */
  predicate HasFlag(w: u32, bit: nat) {
    (w / Pow2(bit)) % 2 == 1
  }

  /** `val & 0xFFFF`. */
  function Low16(w: u32): int {
    w % TWO_16
  }

  /** The end of the run of data words that starts at `i`: the next non-data word, or the end. */
  function DataEnd(w: seq<u32>, i: nat): (r: nat)
    requires i <= |w|
    ensures i <= r <= |w|
    ensures forall j :: i <= j < r ==> IsData(w[j])
    ensures r < |w| ==> !IsData(w[r])
    decreases |w| - i
  {
    if i == |w| || !IsData(w[i]) then i else DataEnd(w, i + 1)
  }

  /** The run of data words from `i` ends at `e` when the words before `e` are data and `e` is not. */
  lemma {:induction false} DataEndAt(w: seq<u32>, i: nat, e: nat)
    requires i <= e <= |w|
    requires forall j :: i <= j < e ==> IsData(w[j])
    requires e == |w| || !IsData(w[e])
    ensures DataEnd(w, i) == e
    decreases e - i
  {
    if i < e {
      DataEndAt(w, i + 1, e);
    }
  }

  /** The values of the register write whose command word is at `c` and whose run ends at `e`. */
  function DtValues(w: seq<u32>, c: nat, e: nat): (r: seq<int>)
    requires c <= e <= |w|
    ensures |r| == e - c
  {
    seq(e - c, m requires 0 <= m < e - c => if m == 0 then Low16(w[c]) else w[c + m])
  }

  /** The commands the interpreter executes from word `p` on. */
  function DtFrom(w: seq<u32>, cmdBit: nat, delayBit: nat, p: nat): Parse
    requires p <= |w|
    decreases |w| - p
  {
    if p == |w| then Parse(true, [])
    else if HasFlag(w[p], cmdBit) then
      var e := DataEnd(w, p + 1);
      if e - p > MAX_REG_VALUES then Parse(false, [])
      else Prepend(WriteCmd(DtValues(w, p, e)), DtFrom(w, cmdBit, delayBit, e))
    else if HasFlag(w[p], delayBit) then
      Prepend(DelayCmd(Low16(w[p])), DtFrom(w, cmdBit, delayBit, p + 1))
    else Parse(false, [])                             // illegal init value
  }

  /**
   * The return code and the calls of `fbtft_init_display_dt`: `hasNode` says
   * whether the device has a device-tree node, `init` is its `init` property
   * (`None` when absent).
   */
  function InitDisplayDtSpec(hasNode: bool, init: Option<seq<u32>>, cmdBit: nat, delayBit: nat, cs: int): InitOutcome {
    if !hasNode || init.None? || init.value == [] then InitOutcome(-EINVAL, [])
    else RunOutcome(DtFrom(init.value, cmdBit, delayBit, 0), cs)
  }

  lemma DtValuesSnoc(w: seq<u32>, c: nat, e: nat)
    requires c <= e < |w|
    ensures DtValues(w, c, e + 1) == DtValues(w, c, e) + [if e == c then Low16(w[c]) else w[e]]
  {
  }

  /**
   * The inner loop of a register write: gathers into `buf` the register
   * (the low half of the command word at `c`) and the data words after it,
   * refusing more than 64 values. On success `p` is the word after the run
   * and `i` the number of values gathered.
   */
  method CopyDataRun(w: seq<u32>, c: nat, buf: array<int>) returns (ok: bool, p: nat, i: nat)
    requires c < |w| && buf.Length == MAX_REG_VALUES
    modifies buf
    ensures ok <==> DataEnd(w, c + 1) - c <= MAX_REG_VALUES
    ensures ok ==> p == DataEnd(w, c + 1) && i == p - c && buf[..i] == DtValues(w, c, p)
  {
    var val: u32 := Low16(w[c]);
    p := c;
    i := 0;
    while p < |w| && IsData(val)
      invariant c <= p <= |w| && i == p - c && i <= MAX_REG_VALUES
      invariant p < |w| ==> val == if p == c then Low16(w[c]) else w[p]
      invariant forall m :: c < m < p ==> IsData(w[m])
      invariant buf[..i] == DtValues(w, c, p)
      decreases |w| - p
    {
      if i > 63 {
        assert DataEnd(w, c + 1) > p;
        return false, p, i;
      }
      buf[i] := val;
      DtValuesSnoc(w, c, p);
      assert buf[..i + 1] == buf[..i] + [buf[i]];
      i := i + 1;
      p := p + 1;
      if p < |w| {
        val := w[p];
      }
    }
    assert p > c;
    assert DataEnd(w, c + 1) == p;
    return true, p, i;
  }

  /** One register write decoded. */
  lemma DtFromWrite(w: seq<u32>, cmdBit: nat, delayBit: nat, p: nat)
    requires p < |w| && HasFlag(w[p], cmdBit) && DataEnd(w, p + 1) - p <= MAX_REG_VALUES
    ensures DtFrom(w, cmdBit, delayBit, p)
         == Prepend(WriteCmd(DtValues(w, p, DataEnd(w, p + 1))), DtFrom(w, cmdBit, delayBit, DataEnd(w, p + 1)))
  {
  }

  /** One delay decoded. */
  lemma DtFromDelay(w: seq<u32>, cmdBit: nat, delayBit: nat, p: nat)
    requires p < |w| && !HasFlag(w[p], cmdBit) && HasFlag(w[p], delayBit)
    ensures DtFrom(w, cmdBit, delayBit, p) == Prepend(DelayCmd(Low16(w[p])), DtFrom(w, cmdBit, delayBit, p + 1))
  {
  }

  /** The positions at which decoding ends without another command. */
  lemma DtFromNoCmds(w: seq<u32>, cmdBit: nat, delayBit: nat, p: nat)
    requires p <= |w|
    ensures p == |w| ==> DtFrom(w, cmdBit, delayBit, p) == Parse(true, [])
    ensures p < |w| && HasFlag(w[p], cmdBit) && DataEnd(w, p + 1) - p > MAX_REG_VALUES
        ==> DtFrom(w, cmdBit, delayBit, p) == Parse(false, [])
    ensures p < |w| && !HasFlag(w[p], cmdBit) && !HasFlag(w[p], delayBit)
        ==> DtFrom(w, cmdBit, delayBit, p) == Parse(false, [])
  {
  }

  /** A run that stops at `p` reports the commands executed before `p`. */
  lemma DtStoppedOutcome(w: seq<u32>, cmdBit: nat, delayBit: nat, p: nat, done: seq<InitCmd>, cs: int)
    requires p <= |w|
    requires DtFrom(w, cmdBit, delayBit, 0) == Cat(done, DtFrom(w, cmdBit, delayBit, p))
    requires DtFrom(w, cmdBit, delayBit, p).cmds == []
    ensures RunOutcome(DtFrom(w, cmdBit, delayBit, 0), cs)
         == InitOutcome(if DtFrom(w, cmdBit, delayBit, p).ok then 0 else -EINVAL, Prologue(cs) + Events(done))
  {
    assert done + [] == done;
  }

  /** The loop of `fbtft_init_display_dt` over a non-empty `init` property. */
  method RunDtProgram(w: seq<u32>, cmdBit: nat, delayBit: nat, cs: int) returns (ret: int, trace: seq<Event>)
    requires w != []
    ensures InitOutcome(ret, trace) == RunOutcome(DtFrom(w, cmdBit, delayBit, 0), cs)
  {
    trace := [Reset];
    if cs != -1 {
      trace := trace + [CsLow];
    }

    var buf := new int[MAX_REG_VALUES];
    ghost var done: seq<InitCmd> := [];
    var p := 0;
    var val := w[0];
    while p < |w|
      invariant 0 <= p <= |w|
      invariant p < |w| ==> val == w[p]
      invariant DtFrom(w, cmdBit, delayBit, 0) == Cat(done, DtFrom(w, cmdBit, delayBit, p))
      invariant trace == Prologue(cs) + Events(done)
      decreases |w| - p
    {
      if HasFlag(val, cmdBit) {
        ghost var c := p;
        var ok, i;
        ok, p, i := CopyDataRun(w, p, buf);
        if !ok {
          DtFromNoCmds(w, cmdBit, delayBit, c);
          DtStoppedOutcome(w, cmdBit, delayBit, c, done, cs);
          return -EINVAL, trace;
        }
        var cmd := WriteCmd(buf[..i]);
        DtFromWrite(w, cmdBit, delayBit, c);
        Advance(DtFrom(w, cmdBit, delayBit, 0), done, DtFrom(w, cmdBit, delayBit, c), cmd, DtFrom(w, cmdBit, delayBit, p), cs);
        trace := trace + [WriteReg(buf[..i])];
        done := done + [cmd];
        if p < |w| {
          val := w[p];
        }
      } else if HasFlag(val, delayBit) {
        var cmd := DelayCmd(Low16(val));
        DtFromDelay(w, cmdBit, delayBit, p);
        Advance(DtFrom(w, cmdBit, delayBit, 0), done, DtFrom(w, cmdBit, delayBit, p), cmd, DtFrom(w, cmdBit, delayBit, p + 1), cs);
        trace := trace + [Delay(Low16(val))];
        done := done + [cmd];
        p := p + 1;
        if p < |w| {
          val := w[p];
        }
      } else {
        DtFromNoCmds(w, cmdBit, delayBit, p);
        DtStoppedOutcome(w, cmdBit, delayBit, p, done, cs);
        return -EINVAL, trace;
      }
    }
    DtFromNoCmds(w, cmdBit, delayBit, p);
    DtStoppedOutcome(w, cmdBit, delayBit, p, done, cs);
    return 0, trace;
  }

  /**
   * `fbtft_init_display_dt(par)`: without a device-tree node, or with an
   * absent or empty `init` property, it fails before touching the panel.
   */
  method InitDisplayDt(hasNode: bool, init: Option<seq<u32>>, cmdBit: nat, delayBit: nat, cs: int)
    returns (ret: int, trace: seq<Event>)
    ensures InitOutcome(ret, trace) == InitDisplayDtSpec(hasNode, init, cmdBit, delayBit, cs)
    ensures ret == 0 || ret == -EINVAL
    ensures (!hasNode || init.None? || init.value == []) ==> ret == -EINVAL && trace == []
  {
    if !hasNode {
      return -EINVAL, [];
    }
    if init.None? || init.value == [] {
      return -EINVAL, [];
    }
    ret, trace := RunDtProgram(init.value, cmdBit, delayBit, cs);
  }

  /**
   * Flag bits that make every encoding readable: both in the upper half of
   * the word, and distinct.
   */
  predicate FlagsOk(cmdBit: nat, delayBit: nat) {
    16 <= cmdBit < 32 && 16 <= delayBit < 32 && cmdBit != delayBit
  }

  /** Commands the device-tree encoding can express: 16-bit values, 1..64 per write, 16-bit delays. */
  predicate DtWellFormed(cmds: seq<InitCmd>) {
    forall i :: 0 <= i < |cmds| ==>
      match cmds[i]
      case WriteCmd(values) =>
        1 <= |values| <= MAX_REG_VALUES && forall j :: 0 <= j < |values| ==> 0 <= values[j] < TWO_16
      case DelayCmd(ms) => 0 <= ms < TWO_16
  }

  /** A flag bit in the upper half: `BIT(n) == 0x10000 * BIT(n - 16)`, with `BIT(n - 16) <= 0x8000`. */
  lemma Pow2Large(n: nat)
    requires 16 <= n < 32
    ensures Pow2(n) == TWO_16 * Pow2(n - 16) && 1 <= Pow2(n - 16) <= 0x8000
  {
    Pow2Split(n - 16, 16);
    assert Pow2(16) == TWO_16;
    Pow2Mono(n - 16, 15);
    assert Pow2(15) == 0x8000;
  }

  /** The tag word `BIT(bit) | v` of a command or delay. */
  function Tagged(bit: nat, v: int): (r: u32)
    requires 16 <= bit < 32 && 0 <= v < TWO_16
  {
    Pow2Large(bit);
    TWO_16 * Pow2(bit - 16) + v
  }

  /** A tag word carries its own flag, not the other one, is no data word, and keeps `v` in its low half. */
  lemma TaggedWord(bit: nat, other: nat, v: int)
    requires FlagsOk(bit, other) && 0 <= v < TWO_16
    ensures HasFlag(Tagged(bit, v), bit)
    ensures !HasFlag(Tagged(bit, v), other)
    ensures !IsData(Tagged(bit, v))
    ensures Low16(Tagged(bit, v)) == v
  {
    OwnFlag(bit, v);
    TagLowHalf(bit, v);
    if other > bit {
      HigherFlagClear(bit, other, v);
    } else {
      LowerFlagClear(bit, other, v);
    }
  }

  lemma OwnFlag(bit: nat, v: int)
    requires 16 <= bit < 32 && 0 <= v < TWO_16
    ensures HasFlag(Tagged(bit, v), bit)
  {
    Pow2Large(bit);
    DivUnique(Tagged(bit, v), Pow2(bit), 1);
  }

  lemma HigherFlagClear(bit: nat, other: nat, v: int)
    requires 16 <= bit < other < 32 && 0 <= v < TWO_16
    ensures !HasFlag(Tagged(bit, v), other)
  {
    var t, b := Tagged(bit, v), Pow2(bit);
    Pow2Large(bit);
    assert t == b + v && v < b;
    Pow2Mono(bit + 1, other);
    assert Pow2(bit + 1) == 2 * b;
    var d := Pow2(other);
    assert 0 <= t < d;
    DivUnique(t, d, 0);
  }

  lemma LowerFlagClear(bit: nat, other: nat, v: int)
    requires 16 <= other < bit < 32 && 0 <= v < TWO_16
    ensures !HasFlag(Tagged(bit, v), other)
  {
    Pow2Large(bit);
    Pow2Large(other);
    var d := Pow2(other);
    var h := Pow2(bit - other);
    Pow2Split(bit - other, other);
    assert Pow2(bit) == h * d;
    Pow2Split(1, bit - other - 1);
    assert h == 2 * Pow2(bit - other - 1);
    assert d * h <= Tagged(bit, v) < d * h + d;
    DivUnique(Tagged(bit, v), d, h);
  }

  lemma TagLowHalf(bit: nat, v: int)
    requires 16 <= bit < 32 && 0 <= v < TWO_16
    ensures !IsData(Tagged(bit, v)) && Low16(Tagged(bit, v)) == v
  {
    Pow2Large(bit);
    var k := Pow2(bit - 16);
    assert Tagged(bit, v) == TWO_16 * k + v;
    DivUnique(Tagged(bit, v), TWO_16, k);
  }

  /** The device-tree encoding of a well-formed command sequence. */
  function EncodeDt(cmds: seq<InitCmd>, cmdBit: nat, delayBit: nat): (r: seq<u32>)
    requires FlagsOk(cmdBit, delayBit) && DtWellFormed(cmds)
    decreases |cmds|
  {
    if cmds == [] then []
    else
      assert DtWellFormed(cmds[1..]) by {
        forall i | 0 <= i < |cmds[1..]| ensures cmds[1..][i] == cmds[i + 1] { }
      }
      (match cmds[0]
       case WriteCmd(values) => [Tagged(cmdBit, values[0])] + values[1..]
       case DelayCmd(ms) => [Tagged(delayBit, ms)]) + EncodeDt(cmds[1..], cmdBit, delayBit)
  }

  /** Where an encoded register write of `values` sits in `w`, and where its data words end. */
  lemma EncodedDtWrite(w: seq<u32>, cmdBit: nat, delayBit: nat, p: nat, values: seq<int>, enc: seq<u32>)
    returns (e: nat)
    requires FlagsOk(cmdBit, delayBit) && 1 <= |values| <= MAX_REG_VALUES
    requires forall j :: 0 <= j < |values| ==> 0 <= values[j] < TWO_16
    requires p <= |w| && w[p..] == [Tagged(cmdBit, values[0])] + values[1..] + enc
    requires enc != [] ==> !IsData(enc[0])
    ensures e == p + |values| && e <= |w| && w[e..] == enc
    ensures DtFrom(w, cmdBit, delayBit, p) == Prepend(WriteCmd(values), DtFrom(w, cmdBit, delayBit, e))
  {
    var head := Tagged(cmdBit, values[0]);
    e := p + |values|;
    TaggedWord(cmdBit, delayBit, values[0]);
    assert w[p] == w[p..][0] == head;
    forall j | p + 1 <= j < e ensures w[j] == values[j - p] {
      assert w[j] == w[p..][j - p];
    }
    assert w[e..] == enc;
    assert e < |w| ==> w[e] == enc[0];
    DataEndAt(w, p + 1, e);
    assert DtValues(w, p, e) == values;
    DtFromWrite(w, cmdBit, delayBit, p);
  }

  /** Decoding from `p` reads back exactly the commands encoded there. */
  lemma {:induction false} DtFromEncoded(w: seq<u32>, cmdBit: nat, delayBit: nat, p: nat, cmds: seq<InitCmd>)
    requires FlagsOk(cmdBit, delayBit) && DtWellFormed(cmds)
    requires p <= |w| && w[p..] == EncodeDt(cmds, cmdBit, delayBit)
    ensures DtFrom(w, cmdBit, delayBit, p) == Parse(true, cmds)
    decreases |cmds|
  {
    if cmds == [] {
      assert |w[p..]| == 0;
    } else {
      var tail := cmds[1..];
      assert DtWellFormed(tail) by {
        forall i | 0 <= i < |tail| ensures tail[i] == cmds[i + 1] { }
      }
      var enc := EncodeDt(tail, cmdBit, delayBit);
      assert enc != [] ==> !IsData(enc[0]) by {
        if enc != [] {
          match tail[0]
          case WriteCmd(values) =>
            assert 0 <= values[0] < TWO_16;
            TaggedWord(cmdBit, delayBit, values[0]);
          case DelayCmd(ms) =>
            TaggedWord(delayBit, cmdBit, ms);
        }
      }
      match cmds[0]
      case WriteCmd(values) =>
        assert 1 <= |values| <= MAX_REG_VALUES;
        assert forall j :: 0 <= j < |values| ==> 0 <= values[j] < TWO_16;
        var e := EncodedDtWrite(w, cmdBit, delayBit, p, values, enc);
        DtFromEncoded(w, cmdBit, delayBit, e, tail);
      case DelayCmd(ms) =>
        var head := Tagged(delayBit, ms);
        assert w[p..] == [head] + enc;
        TaggedWord(delayBit, cmdBit, ms);
        assert w[p] == head;
        assert w[p + 1..] == enc;
        DtFromEncoded(w, cmdBit, delayBit, p + 1, tail);
    }
  }

  /**
   * Round trip: a non-empty well-formed command sequence, encoded as an `init`
   * property, runs to completion: return 0, reset, chip-select, then exactly
   * those commands.
   */
  lemma DtRoundTrip(cmds: seq<InitCmd>, cmdBit: nat, delayBit: nat, cs: int)
    requires FlagsOk(cmdBit, delayBit) && DtWellFormed(cmds) && cmds != []
    ensures EncodeDt(cmds, cmdBit, delayBit) != []
    ensures InitDisplayDtSpec(true, Some(EncodeDt(cmds, cmdBit, delayBit)), cmdBit, delayBit, cs)
         == InitOutcome(0, Prologue(cs) + Events(cmds))
  {
    var w := EncodeDt(cmds, cmdBit, delayBit);
    assert w[0..] == w;
    DtFromEncoded(w, cmdBit, delayBit, 0, cmds);
  }

  /**
   * Whatever decodes is well-formed: every write carries 1 to 64 values, all
   * 16-bit, and every delay is 16-bit.
   */
  lemma {:induction false} DtFromWellFormed(w: seq<u32>, cmdBit: nat, delayBit: nat, p: nat)
    requires p <= |w|
    ensures DtWellFormed(DtFrom(w, cmdBit, delayBit, p).cmds)
    decreases |w| - p
  {
    var r := DtFrom(w, cmdBit, delayBit, p);
    if p < |w| {
      if HasFlag(w[p], cmdBit) {
        var e := DataEnd(w, p + 1);
        if e - p <= MAX_REG_VALUES {
          DtFromWellFormed(w, cmdBit, delayBit, e);
          var rest := DtFrom(w, cmdBit, delayBit, e).cmds;
          var vals := DtValues(w, p, e);
          forall j | 0 <= j < |vals| ensures 0 <= vals[j] < TWO_16 {
            if j > 0 { assert IsData(w[p + j]); }
          }
          forall m | 0 <= m < |r.cmds|
            ensures match r.cmds[m]
              case WriteCmd(values) =>
                1 <= |values| <= MAX_REG_VALUES && forall j :: 0 <= j < |values| ==> 0 <= values[j] < TWO_16
              case DelayCmd(ms) => 0 <= ms < TWO_16
          {
            if m > 0 { assert r.cmds[m] == rest[m - 1]; }
          }
        }
      } else if HasFlag(w[p], delayBit) {
        DtFromWellFormed(w, cmdBit, delayBit, p + 1);
        var rest := DtFrom(w, cmdBit, delayBit, p + 1).cmds;
        forall m | 0 <= m < |r.cmds|
          ensures match r.cmds[m]
            case WriteCmd(values) =>
              1 <= |values| <= MAX_REG_VALUES && forall j :: 0 <= j < |values| ==> 0 <= values[j] < TWO_16
            case DelayCmd(ms) => 0 <= ms < TWO_16
        {
          if m > 0 { assert r.cmds[m] == rest[m - 1]; }
        }
      }
    }
  }

  /** The device-tree well-formedness is the stricter one. */
  lemma DtWellFormedIsFlat(cmds: seq<InitCmd>)
    requires DtWellFormed(cmds)
    ensures InitFlat.FlatWellFormed(cmds)
  {
    forall i | 0 <= i < |cmds|
      ensures match cmds[i]
        case WriteCmd(values) => 1 <= |values| <= MAX_REG_VALUES && forall j :: 0 <= j < |values| ==> values[j] >= 0
        case DelayCmd(ms) => ms >= 0
    {
      match cmds[i]
      case WriteCmd(values) =>
      case DelayCmd(ms) =>
    }
  }

  /**
   * The two interpreters agree: a non-empty command sequence both encodings
   * can express makes the same calls and returns 0 either way.
   */
  lemma InterpretersAgree(cmds: seq<InitCmd>, maxInit: nat, cmdBit: nat, delayBit: nat, cs: int)
    requires FlagsOk(cmdBit, delayBit) && DtWellFormed(cmds) && cmds != []
    requires |InitFlat.EncodeFlat(cmds)| < maxInit
    ensures InitFlat.InitDisplaySpec(Some(InitFlat.EncodeFlat(cmds) + [-3]), maxInit, cs)
         == InitDisplayDtSpec(true, Some(EncodeDt(cmds, cmdBit, delayBit)), cmdBit, delayBit, cs)
  {
    DtWellFormedIsFlat(cmds);
    InitFlat.FlatRoundTrip(cmds, [], maxInit, cs);
    assert InitFlat.EncodeFlat(cmds) + [-3] + [] == InitFlat.EncodeFlat(cmds) + [-3];
    DtRoundTrip(cmds, cmdBit, delayBit, cs);
  }

  /** The empty `init` property fails before reset, unlike the flat program `-3`. */
  lemma EmptyDtProgramFails(cmdBit: nat, delayBit: nat, cs: int, maxInit: nat)
    requires maxInit >= 1
    ensures InitDisplayDtSpec(true, Some([]), cmdBit, delayBit, cs) == InitOutcome(-EINVAL, [])
    ensures InitFlat.InitDisplaySpec(Some([-3]), maxInit, cs) == InitOutcome(0, Prologue(cs))
  {
    InitFlat.FlatRoundTrip([], [], maxInit, cs);
    assert InitFlat.EncodeFlat([]) + [-3] + [] == [-3];
  }
}
