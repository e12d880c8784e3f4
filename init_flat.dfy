/**
 * `fbtft_init_display`: the interpreter of the flat `int` init program.
 * `-1, reg, d0, d1, ...` is a register write, `-2, ms` a delay, `-3` the end.
 * The program must hold a `-3` within its first `FBTFT_MAX_INIT_SEQUENCE`
 * entries; here that constant is the parameter `maxInit`.
 */
module InitFlat {
  import opened Common
  import opened InitProgram

  /** `k` is the position of the first `-3` of `s`. */
  predicate StopAt(s: seq<int>, k: nat) {
    k < |s| && s[k] == -3 && forall j :: 0 <= j < k ==> s[j] != -3
  }

  /**
   * The first `-3` at or after `i` among the first `n` entries of `s`. Entries
   * past the end of `s` are never read: a program that ends before a `-3`
   * counts as one without a stop marker.
   */
  function FirstStop(s: seq<int>, i: nat, n: nat): (r: Option<nat>)
    ensures r.None? <==> forall j :: i <= j < n && j < |s| ==> s[j] != -3
    ensures r.Some? ==> i <= r.value < n && r.value < |s| && s[r.value] == -3
    ensures r.Some? ==> forall j :: i <= j < r.value ==> s[j] != -3
    decreases n - i
  {
    if i >= n || i >= |s| then None
    else if s[i] == -3 then Some(i)
    else FirstStop(s, i + 1, n)
  }

  /** The end of the run of non-negative values that starts at `i`: the first negative entry. */
  function RunEnd(s: seq<int>, k: nat, i: nat): (r: nat)
    requires StopAt(s, k) && i <= k
    ensures i <= r <= k && s[r] < 0
    ensures forall j :: i <= j < r ==> s[j] >= 0
    decreases k - i
  {
    if s[i] < 0 then i else RunEnd(s, k, i + 1)
  }

  /** The commands the interpreter executes from position `i` up to the marker at `k`. */
  function FlatFrom(s: seq<int>, k: nat, i: nat): Parse
    requires StopAt(s, k) && i <= k
    decreases k - i
  {
    if s[i] == -3 then Parse(true, [])
    else if s[i] >= 0 then Parse(false, [])           // missing delimiter
    else if s[i + 1] < 0 then Parse(false, [])        // missing value after delimiter
    else if s[i] == -1 then
      var e := RunEnd(s, k, i + 1);
      if e - (i + 1) > MAX_REG_VALUES then Parse(false, [])
      else Prepend(WriteCmd(s[i + 1..e]), FlatFrom(s, k, e))
    else if s[i] == -2 then Prepend(DelayCmd(s[i + 1]), FlatFrom(s, k, i + 2))
    else Parse(false, [])                             // unknown delimiter
  }

  /** The return code and the calls of `fbtft_init_display`. */
  function InitDisplaySpec(prog: Option<seq<int>>, maxInit: nat, cs: int): InitOutcome {
    if prog.None? then InitOutcome(-EINVAL, [])
    else
      match FirstStop(prog.value, 0, maxInit)
      case None => InitOutcome(-EINVAL, [])
      case Some(k) => RunOutcome(FlatFrom(prog.value, k, 0), cs)
  }

  /** The positions at which decoding ends, cleanly or not, without another command. */
  lemma FlatFromNoCmds(s: seq<int>, k: nat, i: nat)
    requires StopAt(s, k) && i <= k
    ensures s[i] == -3 ==> FlatFrom(s, k, i) == Parse(true, [])
    ensures s[i] != -3 && (s[i] >= 0 || s[i + 1] < 0 || (s[i] != -1 && s[i] != -2)) ==> FlatFrom(s, k, i) == Parse(false, [])
    ensures s[i] == -1 && s[i + 1] >= 0 && RunEnd(s, k, i + 1) - (i + 1) > MAX_REG_VALUES ==> FlatFrom(s, k, i) == Parse(false, [])
  {
  }

  /** A run that stops at `i` reports the commands executed before `i`. */
  lemma StoppedOutcome(s: seq<int>, k: nat, i: nat, done: seq<InitCmd>, cs: int)
    requires StopAt(s, k) && i <= k
    requires FlatFrom(s, k, 0) == Cat(done, FlatFrom(s, k, i)) && FlatFrom(s, k, i).cmds == []
    ensures RunOutcome(FlatFrom(s, k, 0), cs)
         == InitOutcome(if FlatFrom(s, k, i).ok then 0 else -EINVAL, Prologue(cs) + Events(done))
  {
    assert done + [] == done;
  }

  /** One register write decoded. */
  lemma FlatFromWrite(s: seq<int>, k: nat, i: nat)
    requires StopAt(s, k) && i < k && s[i] == -1 && s[i + 1] >= 0
    requires RunEnd(s, k, i + 1) - (i + 1) <= MAX_REG_VALUES
    ensures FlatFrom(s, k, i) == Prepend(WriteCmd(s[i + 1..RunEnd(s, k, i + 1)]), FlatFrom(s, k, RunEnd(s, k, i + 1)))
  {
  }

  /** One delay decoded. */
  lemma FlatFromDelay(s: seq<int>, k: nat, i: nat)
    requires StopAt(s, k) && i < k && s[i] == -2 && s[i + 1] >= 0
    ensures i + 2 <= k
    ensures FlatFrom(s, k, i) == Prepend(DelayCmd(s[i + 1]), FlatFrom(s, k, i + 2))
  {
  }

  /**
   * The inner loop of a register write: copies the run of non-negative values
   * that starts at `start` into `buf`, refusing a run longer than the buffer.
   * On success `i` is the delimiter that ends the run and `j` the number of
   * values copied.
   */
  method CopyRun(s: seq<int>, k: nat, start: nat, buf: array<int>) returns (ok: bool, i: nat, j: nat)
    requires StopAt(s, k) && start <= k && buf.Length == MAX_REG_VALUES
    modifies buf
    ensures ok <==> RunEnd(s, k, start) - start <= MAX_REG_VALUES
    ensures ok ==> i == RunEnd(s, k, start) && j == i - start && buf[..j] == s[start..i]
  {
    i := start;
    j := 0;
    while s[i] >= 0
      invariant start <= i <= k && j == i - start && j <= MAX_REG_VALUES
      invariant forall m :: start <= m < i ==> s[m] >= 0
      invariant buf[..j] == s[start..i]
      decreases k - i
    {
      if j > 63 {
        assert RunEnd(s, k, start) > i;
        return false, i, j;
      }
      buf[j] := s[i];
      j := j + 1;
      i := i + 1;
      assert buf[..j] == buf[..j - 1] + [buf[j - 1]];
    }
    assert RunEnd(s, k, start) == i;
    return true, i, j;
  }

  /**
   * The `-1` case of the interpreter at position `i`: step past the
   * delimiter and copy the run that follows into `buf`. On success the
   * command decoded at `i` is the write of `values`, and decoding goes on at
   * `next`; on failure (a run longer than the buffer) decoding stops there.
   */
  method WriteCommand(s: seq<int>, k: nat, i: nat, buf: array<int>) returns (ok: bool, next: nat, values: seq<int>)
    requires StopAt(s, k) && i < k && s[i] == -1 && s[i + 1] >= 0 && buf.Length == MAX_REG_VALUES
    modifies buf
    ensures ok ==> i < next <= k && FlatFrom(s, k, i) == Prepend(WriteCmd(values), FlatFrom(s, k, next))
    ensures !ok ==> FlatFrom(s, k, i) == Parse(false, [])
  {
    var j;
    values := [];
    ok, next, j := CopyRun(s, k, i + 1, buf);
    if !ok {
      FlatFromNoCmds(s, k, i);
      return;
    }
    values := buf[..j];
    FlatFromWrite(s, k, i);
  }

  /**
   * The second half of `fbtft_init_display`: with the stop marker at `k`,
   * reset the panel, drive chip-select low and execute the program.
   */
  method RunProgram(s: seq<int>, k: nat, maxInit: nat, cs: int) returns (ret: int, trace: seq<Event>)
    requires StopAt(s, k) && k < maxInit
    ensures InitOutcome(ret, trace) == RunOutcome(FlatFrom(s, k, 0), cs)
  {
    trace := [Reset];
    if cs != -1 {
      trace := trace + [CsLow];
    }

    var buf := new int[MAX_REG_VALUES];
    ghost var done: seq<InitCmd> := [];
    var i := 0;
    while i < maxInit
      invariant 0 <= i <= k
      invariant FlatFrom(s, k, 0) == Cat(done, FlatFrom(s, k, i))
      invariant trace == Prologue(cs) + Events(done)
      decreases k - i
    {
      FlatFromNoCmds(s, k, i);
      if s[i] == -3 {
        StoppedOutcome(s, k, i, done, cs);
        return 0, trace;
      }
      if s[i] >= 0 {
        StoppedOutcome(s, k, i, done, cs);
        return -EINVAL, trace;
      }
      if s[i + 1] < 0 {
        StoppedOutcome(s, k, i, done, cs);
        return -EINVAL, trace;
      }
      if s[i] == -1 {
        var ok, next, values := WriteCommand(s, k, i, buf);
        if !ok {
          StoppedOutcome(s, k, i, done, cs);
          return -EINVAL, trace;
        }
        var cmd := WriteCmd(values);
        Advance(FlatFrom(s, k, 0), done, FlatFrom(s, k, i), cmd, FlatFrom(s, k, next), cs);
        trace := trace + [WriteReg(values)];
        done := done + [cmd];
        i := next;
      } else if s[i] == -2 {
        i := i + 1;
        var cmd := DelayCmd(s[i]);
        FlatFromDelay(s, k, i - 1);
        Advance(FlatFrom(s, k, 0), done, FlatFrom(s, k, i - 1), cmd, FlatFrom(s, k, i + 1), cs);
        trace := trace + [Delay(s[i])];
        done := done + [cmd];
        i := i + 1;
      } else {
        StoppedOutcome(s, k, i, done, cs);
        return -EINVAL, trace;
      }
    }
    assert false;
    return -EINVAL, trace;
  }

  /**
   * `fbtft_init_display(par)`, where `prog` is `par->init_sequence` (`None`
   * for NULL) and `cs` is `par->gpio.cs`.
   */
  method InitDisplay(prog: Option<seq<int>>, maxInit: nat, cs: int) returns (ret: int, trace: seq<Event>)
    ensures InitOutcome(ret, trace) == InitDisplaySpec(prog, maxInit, cs)
    ensures ret == 0 || ret == -EINVAL
    ensures (prog.None? || FirstStop(prog.value, 0, maxInit).None?) ==> ret == -EINVAL && trace == []
  {
    if prog.None? {
      return -EINVAL, [];
    }
    var s := prog.value;

    // make sure the stop marker exists
    var i := 0;
    while i < maxInit && i < |s| && s[i] != -3
      invariant 0 <= i <= maxInit && i <= |s|
      invariant FirstStop(s, i, maxInit) == FirstStop(s, 0, maxInit)
    {
      i := i + 1;
    }
    if i == maxInit || i == |s| {
      return -EINVAL, [];
    }
    ret, trace := RunProgram(s, i, maxInit, cs);
  }

  /** The flat encoding of a command sequence, without the final `-3`. */
  function EncodeFlat(cmds: seq<InitCmd>): seq<int>
    decreases |cmds|
  {
    if cmds == [] then []
    else
      (match cmds[0]
       case WriteCmd(values) => [-1] + values
       case DelayCmd(ms) => [-2, ms]) + EncodeFlat(cmds[1..])
  }

  /** Commands the flat encoding can express: writes of 1..64 non-negative values, non-negative delays. */
  predicate FlatWellFormed(cmds: seq<InitCmd>) {
    forall i :: 0 <= i < |cmds| ==>
      match cmds[i]
      case WriteCmd(values) => 1 <= |values| <= MAX_REG_VALUES && forall j :: 0 <= j < |values| ==> values[j] >= 0
      case DelayCmd(ms) => ms >= 0
  }

  /** A well-formed encoding holds no `-3`, and every entry is `-1`, `-2` or non-negative. */
  lemma {:induction false} EncodeFlatEntries(cmds: seq<InitCmd>)
    requires FlatWellFormed(cmds)
    ensures forall j :: 0 <= j < |EncodeFlat(cmds)| ==> EncodeFlat(cmds)[j] >= -2
    ensures cmds != [] ==> EncodeFlat(cmds)[0] < 0
    decreases |cmds|
  {
    if cmds != [] {
      assert FlatWellFormed(cmds[1..]) by {
        forall i | 0 <= i < |cmds[1..]| ensures cmds[1..][i] == cmds[i + 1] { }
      }
      EncodeFlatEntries(cmds[1..]);
      assert FlatWellFormed([cmds[0]]) by {
        forall i | 0 <= i < 1 ensures [cmds[0]][i] == cmds[0] { }
      }
    }
  }

  /** Where an encoded register write of `values` sits in `s`, and where its run ends. */
  lemma EncodedWrite(s: seq<int>, k: nat, i: nat, values: seq<int>, enc: seq<int>, tail: seq<InitCmd>)
    returns (e: nat)
    requires StopAt(s, k) && i <= k && s[i..k] == [-1] + values + enc
    requires 1 <= |values| && forall j :: 0 <= j < |values| ==> values[j] >= 0
    requires enc == EncodeFlat(tail) && (tail != [] ==> enc[0] < 0)
    ensures e == i + 1 + |values| && e <= k
    ensures s[i] == -1 && s[i + 1] >= 0 && RunEnd(s, k, i + 1) == e
    ensures s[i + 1..e] == values && s[e..k] == enc
  {
    e := i + 1 + |values|;
    assert s[i] == -1 && s[i + 1] == values[0];
    assert k - i == 1 + |values| + |enc|;
    forall j | 0 <= j < |values| ensures s[i + 1 + j] == values[j] {
      assert s[i + 1 + j] == s[i..k][1 + j];
    }
    assert s[i + 1..e] == values;
    assert s[e..k] == enc;
    assert s[e] < 0 by {
      if tail == [] { assert e == k; } else { assert s[e] == enc[0]; }
    }
    assert RunEnd(s, k, i + 1) == e by {
      forall j | i + 1 <= j < e ensures s[j] >= 0 { assert s[j] == values[j - (i + 1)]; }
    }
  }

  /** Decoding from `i` reads back exactly the commands encoded between `i` and the marker. */
  lemma {:induction false} FlatFromEncoded(s: seq<int>, k: nat, i: nat, cmds: seq<InitCmd>)
    requires StopAt(s, k) && i <= k
    requires FlatWellFormed(cmds) && s[i..k] == EncodeFlat(cmds)
    ensures FlatFrom(s, k, i) == Parse(true, cmds)
    decreases |cmds|
  {
    if cmds == [] {
      assert i == k;
    } else {
      var tail := cmds[1..];
      assert FlatWellFormed(tail) by {
        forall m | 0 <= m < |tail| ensures tail[m] == cmds[m + 1] { }
      }
      EncodeFlatEntries(tail);
      var enc := EncodeFlat(tail);
      match cmds[0]
      case WriteCmd(values) =>
        assert s[i..k] == [-1] + values + enc;
        assert 1 <= |values| <= MAX_REG_VALUES && forall j :: 0 <= j < |values| ==> values[j] >= 0;
        var e := EncodedWrite(s, k, i, values, enc, tail);
        FlatFromEncoded(s, k, e, tail);
        FlatFromWrite(s, k, i);
      case DelayCmd(ms) =>
        assert s[i..k] == [-2, ms] + enc;
        assert s[i] == s[i..k][0] && s[i + 1] == s[i..k][1];
        assert s[i + 2..k] == enc;
        assert i + 2 <= k;
        FlatFromEncoded(s, k, i + 2, tail);
    }
  }

  /** What decoding succeeds on is a well-formed encoding of the commands it returns. */
  lemma {:induction false} FlatFromDecodes(s: seq<int>, k: nat, i: nat)
    requires StopAt(s, k) && i <= k
    requires FlatFrom(s, k, i).ok
    ensures FlatWellFormed(FlatFrom(s, k, i).cmds)
    ensures EncodeFlat(FlatFrom(s, k, i).cmds) == s[i..k]
    decreases k - i
  {
    if s[i] == -3 {
      assert i == k;
    } else if s[i] == -1 {
      var e := RunEnd(s, k, i + 1);
      FlatFromDecodes(s, k, e);
      var c := WriteCmd(s[i + 1..e]);
      assert s[i..k] == [-1] + s[i + 1..e] + s[e..k];
      DecodedCons(c, FlatFrom(s, k, e).cmds);
    } else {
      FlatFromDecodes(s, k, i + 2);
      var c := DelayCmd(s[i + 1]);
      assert s[i..k] == [-2, s[i + 1]] + s[i + 2..k];
      DecodedCons(c, FlatFrom(s, k, i + 2).cmds);
    }
  }

  /** One well-formed command in front of a well-formed list, and its encoding. */
  lemma DecodedCons(c: InitCmd, rest: seq<InitCmd>)
    requires FlatWellFormed(rest) && FlatWellFormed([c])
    ensures FlatWellFormed([c] + rest)
    ensures EncodeFlat([c] + rest) == EncodeFlat([c]) + EncodeFlat(rest)
  {
    var t := [c] + rest;
    assert t[1..] == rest;
    assert [c][1..] == [];
    forall m | 0 <= m < |t|
      ensures match t[m]
        case WriteCmd(values) => 1 <= |values| <= MAX_REG_VALUES && forall j :: 0 <= j < |values| ==> values[j] >= 0
        case DelayCmd(ms) => ms >= 0
    {
      if m > 0 { assert t[m] == rest[m - 1]; } else { assert t[m] == [c][0]; }
    }
  }

  /**
   * Round trip: a well-formed command sequence, encoded, terminated by `-3`
   * within the first `maxInit` entries and followed by anything, runs to
   * completion: return 0, reset, chip-select, then exactly those commands.
   */
  lemma FlatRoundTrip(cmds: seq<InitCmd>, rest: seq<int>, maxInit: nat, cs: int)
    requires FlatWellFormed(cmds) && |EncodeFlat(cmds)| < maxInit
    ensures InitDisplaySpec(Some(EncodeFlat(cmds) + [-3] + rest), maxInit, cs)
         == InitOutcome(0, Prologue(cs) + Events(cmds))
  {
    var enc := EncodeFlat(cmds);
    var s := enc + [-3] + rest;
    var k := |enc|;
    EncodeFlatEntries(cmds);
    assert s[k] == -3;
    forall j | 0 <= j < k ensures s[j] != -3 { assert s[j] == enc[j]; }
    assert FirstStop(s, 0, maxInit) == Some(k);
    assert s[0..k] == enc;
    FlatFromEncoded(s, k, 0, cmds);
  }

  /**
   * Conversely, a run that returns 0 executed a well-formed command sequence
   * whose encoding is exactly the program up to its first `-3`.
   */
  lemma FlatSuccessDecodes(prog: seq<int>, maxInit: nat, cs: int)
    requires InitDisplaySpec(Some(prog), maxInit, cs).ret == 0
    ensures FirstStop(prog, 0, maxInit).Some?
    ensures var k := FirstStop(prog, 0, maxInit).value;
      var cmds := FlatFrom(prog, k, 0).cmds;
      && FlatWellFormed(cmds)
      && EncodeFlat(cmds) + [-3] == prog[..k + 1]
      && InitDisplaySpec(Some(prog), maxInit, cs).trace == Prologue(cs) + Events(cmds)
  {
    var k := FirstStop(prog, 0, maxInit).value;
    FlatFromDecodes(prog, k, 0);
    assert prog[..k + 1] == prog[0..k] + [-3];
  }

  /**
   * The example program `-1, 0xA, 0x1, 0x2, -2, 5, -1, 0xB, -3` resets the
   * panel, writes register 0xA with 1 and 2, sleeps 5 ms and writes register
   * 0xB with no data.
   */
  lemma FlatExample(maxInit: nat)
    requires maxInit >= 9
    ensures InitDisplaySpec(Some([-1, 0xA, 0x1, 0x2, -2, 5, -1, 0xB, -3]), maxInit, -1)
         == InitOutcome(0, [Reset, WriteReg([0xA, 0x1, 0x2]), Delay(5), WriteReg([0xB])])
  {
    var cmds := [WriteCmd([0xA, 0x1, 0x2]), DelayCmd(5), WriteCmd([0xB])];
    assert EncodeFlat(cmds[2..]) == [-1, 0xB];
    assert EncodeFlat(cmds[1..]) == [-2, 5, -1, 0xB];
    assert EncodeFlat(cmds) == [-1, 0xA, 0x1, 0x2, -2, 5, -1, 0xB];
    FlatRoundTrip(cmds, [], maxInit, -1);
    assert [-1, 0xA, 0x1, 0x2, -2, 5, -1, 0xB] + [-3] + [] == [-1, 0xA, 0x1, 0x2, -2, 5, -1, 0xB, -3];
  }

  /** A register write of 65 values is refused after reset, and nothing is written. */
  lemma FlatTooManyValues(maxInit: nat, cs: int)
    requires maxInit >= 67
    ensures var prog := [-1] + seq(65, _ => 0) + [-3];
      InitDisplaySpec(Some(prog), maxInit, cs) == InitOutcome(-EINVAL, Prologue(cs))
  {
    var prog := [-1] + seq(65, _ => 0) + [-3];
    assert FirstStop(prog, 0, maxInit) == Some(66) by {
      forall j | 0 <= j < 66 ensures prog[j] != -3 { }
    }
    assert RunEnd(prog, 66, 1) == 66 by {
      forall j | 1 <= j < 66 ensures prog[j] >= 0 { }
    }
  }
}
