/**
 * Shared vocabulary of the fbtft model: C integer widths, the kernel error
 * numbers the core returns, an Option/Result pair, and the events by which the
 * model records every call the core makes into the bus, the GPIO lines and the
 * clock.
 */
module Common {

  const TWO_16: int := 0x1_0000
  const TWO_31: int := 0x8000_0000
  const TWO_32: int := 0x1_0000_0000

  /** Values of a C `unsigned int` / `u32`. */
  type u32 = x: int | 0 <= x < TWO_32

  /** Values of a C `unsigned short` / `u16`. */
  type u16 = x: int | 0 <= x < TWO_16

  /** Values of a C `u8`. */
  type u8 = x: int | 0 <= x < 0x100

  /** Values of a C `int` (32 bits, two's complement). */
  predicate IsCInt(x: int) {
    -TWO_31 <= x < TWO_31
  }

  /** Conversion of any integer to `unsigned int`: reduction modulo 2^32. */
  function U32(x: int): (r: u32)
    ensures 0 <= x < TWO_32 ==> r == x
    ensures (r - x) % TWO_32 == 0
  {
    x % TWO_32
  }

  /** Conversion of any integer to `u8`: the low eight bits. */
  function U8(x: int): (r: u8)
    ensures 0 <= x < 0x100 ==> r == x
    ensures (r - x) % 0x100 == 0
  {
    x % 0x100
  }

  /** Division by a positive number is monotonic. */
  lemma DivMonotonic(a: nat, b: nat, d: nat)
    requires a <= b && d >= 1
    ensures a / d <= b / d
  {
    var qa, qb := a / d, b / d;
    assert d * qa <= a;
    assert b < d * (qb + 1);
    MulCancelLt(qa, qb + 1, d);
  }

  /** A positive factor can be cancelled from a strict inequality. */
  lemma MulCancelLt(x: int, y: int, d: int)
    requires d >= 1 && d * x < d * y
    ensures x < y
  {
  }

  /** Division by a positive number does not increase a natural number. */
  lemma DivAtMost(a: nat, d: nat)
    requires d >= 1
    ensures a / d <= a
  {
  }

  /** `a <= b` implies `a * c <= b * c` for a non-negative `c`. */
  lemma MulMonotonic(a: int, b: int, c: nat)
    requires a <= b
    ensures a * c <= b * c
  {
    assert b * c - a * c == (b - a) * c;
  }

  /** Euclidean division is unique. */
  lemma DivUnique(x: int, d: int, q: int)
    requires d > 0 && d * q <= x < d * q + d
    ensures x / d == q
  {
    var q' := x / d;
    assert d * q' <= x < d * q' + d;
    if q' < q {
      MulMonotonic(q' + 1, q, d);
    } else if q' > q {
      MulMonotonic(q + 1, q', d);
    }
  }

  /** 2^n. */
  function Pow2(n: nat): (r: nat)
    ensures r >= 1
  {
    if n == 0 then 1 else 2 * Pow2(n - 1)
  }

  lemma Pow2Split(a: nat, b: nat)
    ensures Pow2(a + b) == Pow2(a) * Pow2(b)
    decreases a
  {
    if a > 0 {
      Pow2Split(a - 1, b);
    }
  }

  lemma Pow2Mono(a: nat, b: nat)
    requires a <= b
    ensures Pow2(a) <= Pow2(b)
    decreases b
  {
    if a < b {
      Pow2Mono(a, b - 1);
    }
  }

  lemma Pow2Sixteen()
    ensures Pow2(16) == TWO_16
  {
    Pow2Table();
  }

  /** The powers of two the model uses. */
  lemma Pow2Table()
    ensures Pow2(0) == 1 && Pow2(5) == 32 && Pow2(6) == 64 && Pow2(10) == 1024 && Pow2(11) == 2048
    ensures Pow2(15) == 0x8000 && Pow2(16) == TWO_16 && Pow2(32) == TWO_32
  {
    assert Pow2(5) == 32;
    assert Pow2(10) == 1024;
    assert Pow2(15) == 0x8000;
    assert Pow2(16) == TWO_16;
    Pow2Split(16, 16);
  }

  /** Bitwise OR of two naturals (`a | b`), bit by bit from the least significant end. */
  function BitOr(a: nat, b: nat): nat
    decreases a + b
  {
    if a == 0 then b
    else if b == 0 then a
    else 2 * BitOr(a / 2, b / 2) + (if a % 2 == 1 || b % 2 == 1 then 1 else 0)
  }

  /** OR keeps a value below 2^n. */
  lemma {:induction false} BitOrBound(a: nat, b: nat, n: nat)
    requires a < Pow2(n) && b < Pow2(n)
    ensures BitOr(a, b) < Pow2(n)
    decreases n
  {
    if n > 0 && a != 0 && b != 0 {
      BitOrBound(a / 2, b / 2, n - 1);
    }
  }

  /** OR of a multiple of 2^k and a value below 2^k is their sum: the bits do not meet. */
  lemma {:induction false} BitOrDisjoint(a: nat, m: nat, b: nat, k: nat)
    requires a == m * Pow2(k) && b < Pow2(k)
    ensures BitOr(a, b) == a + b
    decreases k
  {
    if k > 0 && a != 0 && b != 0 {
      assert a == 2 * (m * Pow2(k - 1));
      BitOrDisjoint(a / 2, m, b / 2, k - 1);
    }
  }

  /** Kernel error numbers; the core returns their negation (-EINVAL). */
  const EINVAL: int := 22
  const ENOMEM: int := 12

  datatype Option<+T> = None | Some(value: T)

  datatype Result<+T> = Ok(value: T) | Err(code: int)

  /**
   * One call made by the core into the outside world, in the order it is made.
   * `WriteReg(values)` is one call of the `write_register` hook: `values[0]` is
   * the register, the rest its data. `SetAddrWin` and `WriteVmem` are calls of
   * the hooks of the same names; `Reset` is the `reset` hook; `CsLow` drives
   * chip-select low; `Delay(ms)` is a sleep of `ms` milliseconds.
   */
  datatype Event =
    | Reset
    | CsLow
    | WriteReg(values: seq<int>)
    | Delay(ms: int)
    | SetAddrWin(xs: int, ys: int, xe: int, ye: int)
    | WriteVmem(offset: int, len: int)
}
