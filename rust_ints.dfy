/**
 * The fixed-width unsigned integers of Rust that hash.rs computes with: `usize`,
 * modelled as 64 bits wide, and `u128`.
 *
 * Values are `nat`s with explicit upper bounds. An arithmetic operation that would
 * leave its type is an `Overflow` (the panic of a debug build) instead of a value.
 */
module RustInts {

  /** 2^64: one past the largest `usize`. */
  const USIZE_LIMIT: nat := 0x1_0000_0000_0000_0000

  /** 2^128: one past the largest `u128`. */
  const U128_LIMIT: nat := 0x1_0000_0000_0000_0000_0000_0000_0000_0000

  predicate IsUsize(n: nat) { n < USIZE_LIMIT }

  predicate IsU128(n: nat) { n < U128_LIMIT }

  /** The outcome of an overflow-checked operation. */
  datatype Checked = Overflow | Ok(value: nat)

  /** `a + b` on `usize`. */
  function AddUsize(a: nat, b: nat): (r: Checked)
    requires IsUsize(a) && IsUsize(b)
    ensures r.Ok? <==> IsUsize(a + b)
    ensures r.Ok? ==> r.value == a + b
  {
    if a + b < USIZE_LIMIT then Ok(a + b) else Overflow
  }

  /** `a * b` on `u128`. */
  function MulU128(a: nat, b: nat): (r: Checked)
    requires IsU128(a) && IsU128(b)
    ensures r.Ok? <==> IsU128(a * b)
    ensures r.Ok? ==> r.value == a * b
  {
    if a * b < U128_LIMIT then Ok(a * b) else Overflow
  }

  /** `n as u128` for a `usize` n: a widening cast, which keeps the value. */
  function UsizeAsU128(n: nat): (m: nat)
    requires IsUsize(n)
    ensures IsU128(m) && m == n
  {
    n
  }
}
