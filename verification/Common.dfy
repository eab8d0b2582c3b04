/** Shared vocabulary: optional values, bytes, fixed-width integers and durations. */
module Common {

  datatype Option<+T> = None | Some(value: T)

  newtype byte = x: int | 0 <= x < 256

  /** A Rust `str` seen through `as_bytes`. */
  type Bytes = seq<byte>

  const U32_MAX: nat := 0xFFFF_FFFF
  const U64_MAX: nat := 0xFFFF_FFFF_FFFF_FFFF

  newtype u32 = x: int | 0 <= x <= 0xFFFF_FFFF
  newtype u64 = x: int | 0 <= x <= 0xFFFF_FFFF_FFFF_FFFF

  // Instants and durations are counted in nanoseconds.
  const MILLI: nat := 1_000_000
  const SECOND: nat := 1_000_000_000

  function Min(a: int, b: int): int {
    if a <= b then a else b
  }

  function Max(a: int, b: int): int {
    if a >= b then a else b
  }

  /** `Duration::from_secs`. */
  function FromSecs(secs: u64): nat {
    secs as nat * SECOND
  }

  /** `needle` occurs as a contiguous piece of `s`. */
  predicate Contains(s: Bytes, needle: Bytes) {
    exists i {:trigger OccursAt(s, needle, i)} :: 0 <= i <= |s| && OccursAt(s, needle, i)
  }

  predicate OccursAt(s: Bytes, needle: Bytes, i: int) {
    0 <= i && i + |needle| <= |s| && s[i..i + |needle|] == needle
  }

  lemma OccursByte(s: Bytes, needle: Bytes, i: int, k: int)
    requires OccursAt(s, needle, i) && 0 <= k < |needle|
    ensures s[i + k] == needle[k]
  {
  }
}
