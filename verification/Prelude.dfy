/** Machine integers and result types shared by every module. */
module Prelude {
  const U64_MAX: nat := 0xFFFF_FFFF_FFFF_FFFF
  const I64_MAX: nat := 0x7FFF_FFFF_FFFF_FFFF

  /** An unsigned 64-bit value. */
  type u64 = n: nat | n <= U64_MAX

  /** A non-negative value of a signed 64-bit field. */
  type i64nat = n: nat | n <= I64_MAX

  datatype Option<+T> = None | Some(value: T)

  datatype Result<+T, +E> = Ok(value: T) | Err(error: E)

  function Max(a: nat, b: nat): nat {
    if a < b then b else a
  }

  function Min(a: nat, b: nat): nat {
    if a < b then a else b
  }

  /** `u64::saturating_add`. */
  function SaturatingAdd(a: u64, b: u64): u64 {
    Min(a + b, U64_MAX)
  }

  /** `order` names each of `keys` once and nothing else. */
  ghost predicate Lists<K(!new)>(order: seq<K>, keys: set<K>) {
    && (forall k :: k in order <==> k in keys)
    && (forall i, j | 0 <= i < j < |order| :: order[i] != order[j])
  }
}
