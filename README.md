# Poseidon hash bindings: domain, capacity and row-cost rules

This project models the mode-selection and cost-accounting layer of a circuit-friendly
Poseidon hash over a prime field (the `Hashable` and `MessageHashable` traits and their
binding for the BN254 scalar field `Fr`), in Dafny, and proves what that layer promises:

- **Pair hash** (2 field elements to 1, used for Merkle nodes). `hash_with_domain` hands
  the pair and the caller's domain to the constant-length sponge (`ConstantLength<2>`)
  unchanged. The deprecated `hash` is `hash_with_domain` with the domain `ZERO`.
- **Message hash** (a sequence of field elements). `hash_msg` gives the variable-length
  sponge the explicit capacity when one is passed. Otherwise it gives
  `len * HASHABLE_DOMAIN_SPEC`, where `HASHABLE_DOMAIN_SPEC` is 2^64 in the default build
  and 1 under the `legacy` feature. The model proves that this product never overflows
  `u128` for any `usize` length. It also proves that the length can be read back from the
  default capacity, so the default capacity is injective in the length. In the default
  build the default capacity of a non-empty message is a multiple of 2^64 that is at
  least 2^64, so it never equals an explicit capacity below 2^64. The legacy and default
  builds give the same default capacity only for the empty message.
- **Circuit rows per hash** (`hash_block_size`). The default formula is
  `1 + full_rounds() + (partial_rounds() + 1) / 2`; under the `short` feature it is
  `1 + full_rounds()`. The arithmetic is modelled in `usize` with overflow in Rust's
  evaluation order. The truncating `(R_P + 1) / 2` is matched against a reference count
  of rows, `PairedRows`, that packs two partial rounds per row and is proved to be
  ceil(R_P / 2). The short count is never larger than the default one, is at least 1,
  and equals it exactly when there are no partial rounds.

The sponge and permutation are defined in other files of the crate. Here they are two
opaque functions in a `Primitives<F>` value, over an abstract field type `F` with a
distinguished `zero`. The build features `legacy` and `short` are an explicit `Features`
argument. `usize` values are `nat`s below 2^64 and `u128` values are `nat`s below 2^128
(module `RustInts`). An operation that would overflow is an `Overflow` value, which
stands for the panic of a debug build.

Files: `rust_ints.dfy` (module `RustInts`) and `poseidon_hash.dfy` (module `PoseidonHash`,
which models `poseidon2/src/base/hash.rs`).

Two facts about the row count:

- `(R_P + 1) / 2` truncates, so the default count adds ceil(R_P/2) rows for the partial
  rounds: R_P/2 for an even R_P and R_P/2 + 1 for an odd one (`StandardBlockSizeRounding`).
- The `short` count adds no rows for partial rounds: it is `1 + R_F`.

## Model

| member | source | states |
|---|---|---|
| `RustInts.AddUsize` | poseidon2/src/base/hash.rs:43-47 | `usize` addition succeeds exactly when the sum is below 2^64, and then gives the sum; otherwise it overflows |
| `RustInts.MulU128` | poseidon2/src/base/hash.rs:86 | `u128` multiplication succeeds exactly when the product is below 2^128, and then gives the product; otherwise it overflows |
| `RustInts.UsizeAsU128` | poseidon2/src/base/hash.rs:86 | `msg.len() as u128` widens a `usize` to a `u128` and keeps its value |
| `PoseidonHash.HashWithDomain` | poseidon2/src/base/hash.rs:76-78 | the pair digest is the constant-length sponge applied to the caller's pair and the caller's domain, unchanged |
| `PoseidonHash.Hash` | poseidon2/src/base/hash.rs:33-35 | the deprecated pair hash calls the constant-length sponge with the field's zero as the domain, so `hash(inp)` equals `hash_with_domain(inp, ZERO)` for every pair |
| `PoseidonHash.HashableDomainSpec` | poseidon2/src/base/hash.rs:19-22 | the domain factor is 1 under `legacy` and 2^64 otherwise; either way it is a `u128` between 1 and 2^64 |
| `PoseidonHash.DefaultCapacityNeverOverflows` | poseidon2/src/base/hash.rs:86 | `len as u128 * HASHABLE_DOMAIN_SPEC` never overflows `u128` for any `usize` length, in either build |
| `PoseidonHash.MsgCapacity` | poseidon2/src/base/hash.rs:86 | the capacity is a `u128`; it is the explicit capacity when one is given, whatever the message length, and otherwise the length times the domain factor |
| `PoseidonHash.HashMsg` | poseidon2/src/base/hash.rs:84-87 | the message digest is the variable-length sponge on the message with the explicit capacity, or with `len * 2^64` (default build), or with `len` (legacy build) |
| `PoseidonHash.DefaultCapacityRecoversLength` | poseidon2/src/base/hash.rs:86 | dividing the default capacity by the domain factor gives back the message length, with no remainder |
| `PoseidonHash.DefaultCapacityInjective` | poseidon2/src/base/hash.rs:61-62 | two messages get the same default capacity if and only if they have the same length, in both builds |
| `PoseidonHash.StandardCapacityAboveSmallCapacities` | poseidon2/src/base/hash.rs:19-20 | in the default build the default capacity is a multiple of 2^64, at least 2^64 for a non-empty message, and never equal to an explicit capacity below 2^64 |
| `PoseidonHash.LegacyAndStandardCapacitiesDiverge` | poseidon2/src/base/hash.rs:18-22 | the legacy and default builds give the same default capacity if and only if the message is empty |
| `PoseidonHash.PairedRows` | poseidon2/src/base/hash.rs:47 | rows for n partial rounds packed two per row, counted pair by pair, is ceil(n/2): n <= 2*rows <= n+1 |
| `PoseidonHash.PairedRowsIsTruncatingHalf` | poseidon2/src/base/hash.rs:47 | the truncating `(n + 1) / 2` equals the paired row count |
| `PoseidonHash.HashBlockSize` | poseidon2/src/base/hash.rs:40-49 | the block size is `1 + R_F` (short) or `1 + R_F + ceil(R_P/2)` (default), at least 1 and a `usize`; it overflows exactly when `1 + R_F` does (short), or when `R_P + 1` or the sum does (default) |
| `PoseidonHash.ShortBlockSizeNeverLarger` | poseidon2/src/base/hash.rs:40-49 | the short count fits whenever the default one does, is between 1 and the default count, and equals it if and only if there are no partial rounds |
| `PoseidonHash.StandardBlockSizeRounding` | poseidon2/src/base/hash.rs:45-48 | in the default build an even R_P adds R_P/2 rows and an odd R_P adds (R_P/2)+1 rows |

## Left out

- The permutation (full and partial rounds, S-box, diffusion matrices), the round-constant tables, the compact/standard variant equivalence, and the sponge's absorb, pad and squeeze. They are defined in `primitives`, `p128pow5t3`, `p128pow5t3_compact` and `bn256`, which are not part of this model. The two sponge entry points are opaque functions (`Primitives.constantLength`, `Primitives.variableLength`).
- Properties stated at the level of digests, such as domain separation and length sensitivity of `hash_message`, depend on the opaque sponge. The model proves them at the level of what reaches the sponge: the domain and the capacity.
- `Hashable::hasher` and `MessageHashable::msg_hasher` only call `Hash::init` of the unseen sponge. They are folded into the two `Primitives` functions.
- Prime-field arithmetic and the `Fr`, `FromUniformBytes<64>` and `Ord` capabilities come from external libraries. The field is an abstract type parameter with a `zero`.
- The trait and type-alias wiring (`chip_long`, `Hashablebase`, `HashSpec`, the `SpecType` and `DomainType` associated types) carries no logic. `mod.rs` only declares modules and re-exports names.
- The `cfg(feature = ...)` plumbing is replaced by the `Features` argument. A deployment fixes it once.
- `PoseidonHash.HashBlockSize`: `usize` is modelled as 64 bits wide. On a 32-bit target the overflow bound would be 2^32 instead of 2^64, and that is not modelled.
- `PoseidonHash.HashBlockSize`: overflow is modelled as the panic of a debug build. Release builds wrap around instead, and that is not modelled. Neither happens for realistic round counts.
