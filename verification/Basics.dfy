/** Machine integers, the clock and rounding, as the Rust code uses them. */
module Basics {

  datatype Option<+T> = None | Some(value: T)

  type I32 = n: int | -0x8000_0000 <= n < 0x8000_0000

  /** Clock readings, in nanoseconds. */
  type Time = int

  const MS: int := 1_000_000

  /** `Instant::elapsed`: never negative. */
  function Elapsed(now: Time, since: Time): nat {
    if now >= since then now - since else 0
  }

  /** The i32 a sum wraps around to. */
  function Wrap32(n: int): I32 {
    (n + 0x8000_0000) % 0x1_0000_0000 - 0x8000_0000
  }

  /** `f32 as i32` on an already rounded value. */
  function Saturate32(n: int): I32 {
    if n < -0x8000_0000 then -0x8000_0000 else if n > 0x7FFF_FFFF then 0x7FFF_FFFF else n
  }

  /** `i32 as u32`. */
  function AsU32(n: int): nat {
    n % 0x1_0000_0000
  }

  /** `f32::round`: to the nearest integer, half away from zero. */
  function Round(r: real): int {
    if r >= 0.0 then (r + 0.5).Floor else -((-r + 0.5).Floor)
  }

  function Max(a: nat, b: nat): nat {
    if a < b then b else a
  }

  lemma WrapInRange(n: int)
    requires -0x8000_0000 <= n < 0x8000_0000
    ensures Wrap32(n) == n
  {}

  lemma WrapNested(a: int, b: int)
    ensures Wrap32(a + Wrap32(b)) == Wrap32(a + b)
  {
    var q := (b + 0x8000_0000) / 0x1_0000_0000;
    assert Wrap32(b) == b - q * 0x1_0000_0000;
    assert a + Wrap32(b) + 0x8000_0000 == (a + b + 0x8000_0000) + (-q) * 0x1_0000_0000;
    ModShift(a + b + 0x8000_0000, -q);
  }

  lemma ModShift(n: int, q: int)
    ensures (n + q * 0x1_0000_0000) % 0x1_0000_0000 == n % 0x1_0000_0000
  {}

  /** Wrapping is odd except at the one value that has no negation. */
  lemma WrapOdd(n: int)
    requires Wrap32(n) != -0x8000_0000
    ensures Wrap32(-n) == -Wrap32(n)
  {
    var q := (n + 0x8000_0000) / 0x1_0000_0000;
    assert Wrap32(n) == n - q * 0x1_0000_0000;
    assert -n + 0x8000_0000 == (0x8000_0000 - Wrap32(n)) + (-q) * 0x1_0000_0000;
    ModShift(0x8000_0000 - Wrap32(n), -q);
  }

  lemma RoundNear(r: real)
    ensures -0.5 <= r - Round(r) as real <= 0.5
  {}

  /** The wrapped value differs by whole turns of 2^32. */
  lemma WrapTurns(n: int) returns (turns: int)
    ensures Wrap32(n) == n - turns * 0x1_0000_0000
  {
    turns := (n + 0x8000_0000) / 0x1_0000_0000;
  }

  /** The unsigned value is the value itself or one turn above it. */
  lemma UnsignedTurn(n: I32)
    ensures AsU32(n) == if n < 0 then n + 0x1_0000_0000 else n
  {}

  lemma RoundOdd(r: real)
    ensures Round(-r) == -Round(r)
  {}
}
