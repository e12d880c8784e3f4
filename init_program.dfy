/**
 * What the two init-program interpreters of fbtft have in common: the
 * commands a program decodes to, the events those commands become, and the
 * result of a run (the return code and the calls made before returning).
 */
module InitProgram {
  import opened Common

  /** At most this many values (register included) go into one register write. */
  const MAX_REG_VALUES: int := 64

  /** One decoded command: a register write (register first) or a sleep. */
  datatype InitCmd = WriteCmd(values: seq<int>) | DelayCmd(ms: int)

  /** A decoded prefix of a program, and whether decoding reached a clean end. */
  datatype Parse = Parse(ok: bool, cmds: seq<InitCmd>)

  /** The return code of an interpreter and the calls it made, oldest first. */
  datatype InitOutcome = InitOutcome(ret: int, trace: seq<Event>)

  function Prepend(c: InitCmd, p: Parse): Parse {
    Parse(p.ok, [c] + p.cmds)
  }

  function Cat(done: seq<InitCmd>, p: Parse): Parse {
    Parse(p.ok, done + p.cmds)
  }

  lemma CatPrepend(done: seq<InitCmd>, c: InitCmd, p: Parse)
    ensures Cat(done, Prepend(c, p)) == Cat(done + [c], p)
  {
    assert done + ([c] + p.cmds) == done + [c] + p.cmds;
  }

  function ToEvent(c: InitCmd): Event {
    match c
    case WriteCmd(values) => WriteReg(values)
    case DelayCmd(ms) => Delay(ms)
  }

  /** The calls a sequence of commands makes, one per command, in order. */
  function Events(cmds: seq<InitCmd>): (r: seq<Event>)
    ensures |r| == |cmds|
    ensures forall i :: 0 <= i < |cmds| ==> r[i] == ToEvent(cmds[i])
  {
    if cmds == [] then [] else Events(cmds[..|cmds| - 1]) + [ToEvent(cmds[|cmds| - 1])]
  }

  lemma EventsSnoc(done: seq<InitCmd>, c: InitCmd)
    ensures Events(done + [c]) == Events(done) + [ToEvent(c)]
  {
    assert (done + [c])[..|done|] == done;
  }

  /**
   * One more command executed: if the whole program decodes to `done` and
   * then `here`, and `here` is `cmd` followed by `next`, the program decodes
   * to `done + [cmd]` and then `next`, and the trace grows by that command.
   */
  lemma Advance(whole: Parse, done: seq<InitCmd>, here: Parse, cmd: InitCmd, next: Parse, cs: int)
    requires whole == Cat(done, here) && here == Prepend(cmd, next)
    ensures whole == Cat(done + [cmd], next)
    ensures Prologue(cs) + Events(done) + [ToEvent(cmd)] == Prologue(cs) + Events(done + [cmd])
  {
    CatPrepend(done, cmd, next);
    EventsSnoc(done, cmd);
  }

  /**
   * The result of a run that has reset the panel and then executed the
   * decoded commands: 0 when decoding reached a clean end, -EINVAL otherwise.
   */
  function RunOutcome(p: Parse, cs: int): InitOutcome {
    InitOutcome(if p.ok then 0 else -EINVAL, Prologue(cs) + Events(p.cmds))
  }

  /** The calls before the first command: reset, then chip-select low when a `cs` line exists. */
  function Prologue(cs: int): seq<Event> {
    [Reset] + (if cs != -1 then [CsLow] else [])
  }
}
