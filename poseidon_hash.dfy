/**
 * The mode-selection and cost-accounting layer of the Poseidon hash binding for a
 * prime field (poseidon2/src/base/hash.rs):
 *
 *  - the pair hash (2 field elements to 1) with its domain rule: the deprecated `hash`
 *    uses the zero domain, `hash_with_domain` hands the caller's domain to the
 *    constant-length sponge unchanged;
 *  - the message hash with its capacity rule: an explicit capacity wins, otherwise
 *    the capacity is the message length times `HASHABLE_DOMAIN_SPEC`;
 *  - `hash_block_size`, the number of circuit rows one hash occupies.
 *
 * The permutation and the sponge live in other files of the crate; here they are
 * opaque functions carried in a `Primitives` value. The cargo features `legacy` and
 * `short` are an explicit `Features` argument.
 */
module PoseidonHash {
  import opened RustInts

  /** `HASHABLE_DOMAIN_SPEC` in the default build: 2^64. */
  const STANDARD_DOMAIN_SPEC: nat := 0x1_0000_0000_0000_0000

  /** `HASHABLE_DOMAIN_SPEC` under the `legacy` feature. */
  const LEGACY_DOMAIN_SPEC: nat := 1

  /** The two build features that hash.rs reads. */
  datatype Features = Features(legacy: bool, short: bool)

  /** Rust's `Option`, for the explicit capacity of `hash_msg`. */
  datatype Option<T> = None | Some(value: T)

  /**
   * What hash.rs calls into but does not define, for a field type F:
   *  - `zero`: the field's `ZERO`;
   *  - `constantLength`: `hash(inp, domain)` of the sponge built by `hasher()`,
   *    whose domain type is `ConstantLength<2>`;
   *  - `variableLength`: `hash_with_cap(msg, cap)` of the sponge built by
   *    `msg_hasher()`, whose domain type is `VariableLength`.
   */
  datatype Primitives<!F> = Primitives(
    zero: F,
    constantLength: ((F, F), F) -> F,
    variableLength: (seq<F>, nat) -> F)

  /** `full_rounds()` and `partial_rounds()` of the permutation spec, both `usize`. */
  datatype RoundCounts = RoundCounts(full: nat, partial: nat)
  {
    predicate Valid() { IsUsize(full) && IsUsize(partial) }
  }

  // ---------------------------------------------------------------------------
  // Pair hash (2 field elements to 1)
  // ---------------------------------------------------------------------------

  /** `hash_with_domain` of the field binding: one call of the constant-length sponge. */
  function HashWithDomain<F>(p: Primitives<F>, inp: (F, F), domain: F): (digest: F)
    ensures digest == p.constantLength(inp, domain)
  {
    p.constantLength(inp, domain)
  }

  /** The deprecated `hash`: the pair hash in the zero domain. */
  function Hash<F>(p: Primitives<F>, inp: (F, F)): (digest: F)
    ensures digest == p.constantLength(inp, p.zero)
  {
    HashWithDomain(p, inp, p.zero)
  }

  // ---------------------------------------------------------------------------
  // Message hash and its capacity rule
  // ---------------------------------------------------------------------------

  /** `HASHABLE_DOMAIN_SPEC`, the factor that turns a message length into a capacity. */
  function HashableDomainSpec(features: Features): (factor: nat)
    ensures features.legacy ==> factor == LEGACY_DOMAIN_SPEC
    ensures !features.legacy ==> factor == STANDARD_DOMAIN_SPEC
    ensures IsU128(factor) && 1 <= factor <= STANDARD_DOMAIN_SPEC
  {
    if features.legacy then LEGACY_DOMAIN_SPEC else STANDARD_DOMAIN_SPEC
  }

  /**
   * The default capacity `len as u128 * HASHABLE_DOMAIN_SPEC` never overflows
   * `u128`, whatever the `usize` length and whatever the build.
   */
  lemma DefaultCapacityNeverOverflows(features: Features, len: nat)
    requires IsUsize(len)
    ensures MulU128(UsizeAsU128(len), HashableDomainSpec(features)) == Ok(len * HashableDomainSpec(features))
    ensures IsU128(len * HashableDomainSpec(features))
  {
  }

  /**
   * The capacity `hash_msg` hands to the variable-length sponge for a message of
   * `len` elements: `cap.unwrap_or(len as u128 * HASHABLE_DOMAIN_SPEC)`. Rust evaluates
   * the argument of `unwrap_or` first, so the multiplication happens even when a
   * capacity is given; it cannot overflow (DefaultCapacityNeverOverflows).
   */
  function MsgCapacity(features: Features, len: nat, cap: Option<nat>): (c: nat)
    requires IsUsize(len)
    requires cap.Some? ==> IsU128(cap.value)
    ensures IsU128(c)
    ensures cap.Some? ==> c == cap.value
    ensures cap.None? ==> c == len * HashableDomainSpec(features)
  {
    DefaultCapacityNeverOverflows(features, len);
    var default := MulU128(UsizeAsU128(len), HashableDomainSpec(features));
    if cap.Some? then cap.value else default.value
  }

  /** `hash_msg` of the field binding. */
  function HashMsg<F>(p: Primitives<F>, features: Features, msg: seq<F>, cap: Option<nat>): (digest: F)
    requires IsUsize(|msg|)
    requires cap.Some? ==> IsU128(cap.value)
    ensures cap.Some? ==> digest == p.variableLength(msg, cap.value)
    ensures cap.None? && features.legacy ==> digest == p.variableLength(msg, |msg|)
    ensures cap.None? && !features.legacy ==> digest == p.variableLength(msg, |msg| * STANDARD_DOMAIN_SPEC)
  {
    p.variableLength(msg, MsgCapacity(features, |msg|, cap))
  }

  /** The message length can be read back from its default capacity. */
  lemma DefaultCapacityRecoversLength(features: Features, len: nat)
    requires IsUsize(len)
    ensures MsgCapacity(features, len, None) / HashableDomainSpec(features) == len
    ensures MsgCapacity(features, len, None) % HashableDomainSpec(features) == 0
  {
  }

  /**
   * The default capacity is injective in the message length, in both builds:
   * messages of different lengths never share a default domain.
   */
  lemma DefaultCapacityInjective(features: Features, len1: nat, len2: nat)
    requires IsUsize(len1) && IsUsize(len2)
    ensures MsgCapacity(features, len1, None) == MsgCapacity(features, len2, None) <==> len1 == len2
  {
  }

  /**
   * In the default build the default capacity is a multiple of 2^64, and at least
   * 2^64 for a non-empty message; so an explicit capacity below 2^64 never equals
   * the default capacity of a non-empty message.
   */
  lemma StandardCapacityAboveSmallCapacities(features: Features, len: nat, small: nat)
    requires !features.legacy
    requires IsUsize(len)
    requires small < STANDARD_DOMAIN_SPEC
    ensures MsgCapacity(features, len, None) % STANDARD_DOMAIN_SPEC == 0
    ensures len > 0 ==> MsgCapacity(features, len, None) >= STANDARD_DOMAIN_SPEC
    ensures len > 0 ==> MsgCapacity(features, len, None) != MsgCapacity(features, len, Some(small))
  {
  }

  /**
   * The legacy and the default build give the same default capacity exactly for the
   * empty message.
   */
  lemma LegacyAndStandardCapacitiesDiverge(legacy: Features, standard: Features, len: nat)
    requires legacy.legacy && !standard.legacy
    requires IsUsize(len)
    ensures MsgCapacity(legacy, len, None) == MsgCapacity(standard, len, None) <==> len == 0
  {
  }

  // ---------------------------------------------------------------------------
  // Circuit rows per hash
  // ---------------------------------------------------------------------------

  /**
   * The rows taken by n partial rounds when two partial rounds share a row: the
   * reference reading of the `(partial_rounds() + 1) / 2` term, counted round pair by
   * round pair. Its contract says it is ceil(n / 2).
   */
  function PairedRows(n: nat): (rows: nat)
    ensures n <= 2 * rows <= n + 1
  {
    if n <= 1 then n else 1 + PairedRows(n - 2)
  }

  /** The truncating `(n + 1) / 2` of the source counts the same rows as PairedRows. */
  lemma PairedRowsIsTruncatingHalf(n: nat)
    ensures PairedRows(n) == (n + 1) / 2
  {
  }

  /**
   * `hash_block_size`: `1 + full_rounds()` under the `short` feature, otherwise
   * `1 + full_rounds() + (partial_rounds() + 1) / 2`, in `usize`, evaluated left to
   * right as Rust does (`1 + full`, then `partial + 1`, then the sum).
   */
  function HashBlockSize(features: Features, rounds: RoundCounts): (size: Checked)
    requires rounds.Valid()
    ensures size.Ok? ==> 1 <= size.value && IsUsize(size.value)
    ensures size.Ok? ==> size.value == 1 + rounds.full + (if features.short then 0 else PairedRows(rounds.partial))
    ensures features.short ==> (size.Overflow? <==> rounds.full == USIZE_LIMIT - 1)
    ensures !features.short ==>
      (size.Overflow? <==>
        rounds.partial == USIZE_LIMIT - 1 || 1 + rounds.full + PairedRows(rounds.partial) >= USIZE_LIMIT)
  {
    PairedRowsIsTruncatingHalf(rounds.partial);
    match AddUsize(1, rounds.full)
    case Overflow => Overflow
    case Ok(head) =>
      if features.short then Ok(head)
      else
        match AddUsize(rounds.partial, 1)
        case Overflow => Overflow
        case Ok(partialPlusOne) => AddUsize(head, partialPlusOne / 2)
  }

  /**
   * The `short` accounting is never more than the default one and is at least 1; the
   * two agree exactly when there are no partial rounds. Whenever the default
   * accounting fits in `usize`, so does the short one.
   */
  lemma ShortBlockSizeNeverLarger(short: Features, standard: Features, rounds: RoundCounts)
    requires short.short && !standard.short
    requires rounds.Valid()
    requires HashBlockSize(standard, rounds).Ok?
    ensures HashBlockSize(short, rounds).Ok?
    ensures 1 <= HashBlockSize(short, rounds).value <= HashBlockSize(standard, rounds).value
    ensures HashBlockSize(short, rounds) == HashBlockSize(standard, rounds) <==> rounds.partial == 0
  {
  }

  /**
   * Without `short`, an even number of partial rounds adds exactly half of itself,
   * and an odd number is rounded up.
   */
  lemma StandardBlockSizeRounding(features: Features, rounds: RoundCounts)
    requires !features.short
    requires rounds.Valid()
    requires HashBlockSize(features, rounds).Ok?
    ensures rounds.partial % 2 == 0 ==> HashBlockSize(features, rounds).value == 1 + rounds.full + rounds.partial / 2
    ensures rounds.partial % 2 == 1 ==> HashBlockSize(features, rounds).value == 1 + rounds.full + rounds.partial / 2 + 1
  {
  }
}
