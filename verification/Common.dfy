/** Values and small facts shared by all parts of the model. */
module Common {

  datatype Option<+T> = None | Some(value: T)

  datatype Result<+T, +E> = Ok(value: T) | Err(error: E)

  /** A point in time, in nanoseconds. */
  type Time = int

  /** A length of time, in nanoseconds. */
  type Duration = nat

  const NANOS_PER_SEC: nat := 1_000_000_000
  const U32_MAX: nat := 0xFFFF_FFFF
  const U64_MAX: nat := 0xFFFF_FFFF_FFFF_FFFF
  const U128_MAX: nat := 0xFFFF_FFFF_FFFF_FFFF_FFFF_FFFF_FFFF_FFFF

  /** The longest duration: the largest u64 of seconds and 999_999_999 nanoseconds. */
  const DURATION_MAX: Duration := U64_MAX * NANOS_PER_SEC + 999_999_999

  /** The element with the given id of a sequence whose ids start at `base`. */
  function At<T>(s: seq<T>, base: nat, id: nat): T
    requires base <= id < base + |s|
  {
    s[id - base]
  }

  function Min(a: int, b: int): int { if a <= b then a else b }

  function Max(a: int, b: int): int { if a >= b then a else b }

  function Pow2(n: nat): (p: nat)
    ensures p >= 1
  {
    if n == 0 then 1 else 2 * Pow2(n - 1)
  }

  lemma {:induction false} Pow2Monotone(a: nat, b: nat)
    requires a <= b
    ensures Pow2(a) <= Pow2(b)
    decreases b
  {
    if a < b {
      Pow2Monotone(a, b - 1);
    }
  }

  lemma Pow2Of32()
    ensures Pow2(31) == 0x8000_0000
    ensures Pow2(32) == 0x1_0000_0000
  {
    assert Pow2(8) == 256;
    assert Pow2(16) == 65536;
    assert Pow2(24) == 0x100_0000;
  }
}
