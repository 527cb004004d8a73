/** Selection of the latency store of the RAM benchmark: when the dense
    array histogram fits the array memory budget it is used, otherwise the
    sparse hash-map histogram (capped by its own budget) is used. The rule is
    evaluated once, when the benchmark is constructed. */
module LatencyStore {

  const INT_MAX: int := 0x7fff_ffff
  const LONG_MIN: int := -0x8000_0000_0000_0000
  const LONG_MAX: int := 0x7fff_ffff_ffff_ffff
  /** Bytes in a megabyte, the divisor `1024 * 1024` of the footprint. */
  const BYTES_PER_MB: int := 1024 * 1024

  /** The latency store handed to the reporting pipeline. */
  datatype Store =
    | ArrayStore(minLatency: int, maxLatency: int)
    | HashMapStore(minLatency: int, maxLatency: int, maxSizeMB: int)

  /** What the selection reads: the latency bounds of the logger, the two
      memory budgets of the RAM configuration, and the per-bucket value size
      (a build-time constant of the performance-logger configuration). */
  datatype WindowConfig = WindowConfig(
    minLatency: int,
    maxLatency: int,
    maxArraySizeMB: int,
    maxHashMapSizeMB: int,
    latencyValueSizeBytes: int)

  predicate FitsLong(x: int) {
    LONG_MIN <= x <= LONG_MAX
  }

  function LatencyRange(cfg: WindowConfig): int {
    cfg.maxLatency - cfg.minLatency
  }

  /** Bytes a dense array over the whole latency range would occupy. */
  function FootprintBytes(cfg: WindowConfig): int {
    LatencyRange(cfg) * cfg.latencyValueSizeBytes
  }

  /** The configurations on which the source's `long` arithmetic does not
      wrap around: the bounds, their difference and the footprint in bytes
      all fit in a Java `long`. */
  predicate WellFormed(cfg: WindowConfig) {
    && FitsLong(cfg.minLatency)
    && FitsLong(cfg.maxLatency)
    && FitsLong(LatencyRange(cfg))
    && FitsLong(FootprintBytes(cfg))
  }

  /** Java integer division, which truncates toward zero (Dafny's `/` is
      Euclidean and differs on negative dividends). */
  function JavaDiv(a: int, b: int): (q: int)
    requires b > 0
    ensures a >= 0 ==> 0 <= q && q * b <= a < (q + 1) * b
    ensures a < 0 ==> q <= 0 && (q - 1) * b < a <= q * b
  {
    if a >= 0 then
      DivBounds(a, b);
      a / b
    else
      DivBounds(-a, b);
      -((-a) / b)
  }

  /** Euclidean division of a non-negative dividend brackets it between two
      consecutive multiples of the divisor. */
  lemma DivBounds(a: int, b: int)
    requires a >= 0 && b > 0
    ensures 0 <= a / b && (a / b) * b <= a < (a / b + 1) * b
  {
    var q, r := a / b, a % b;
    assert a == q * b + r && 0 <= r < b;
    assert (q + 1) * b == q * b + b;
  }

  /** The dense footprint in whole megabytes, as the source computes it. */
  function FootprintMB(cfg: WindowConfig): int {
    JavaDiv(FootprintBytes(cfg), BYTES_PER_MB)
  }

  /** The selection rule of the store: the array store iff its footprint in
      whole megabytes is strictly below the array budget and the range is
      strictly below the largest Java `int`. */
  function SelectStore(cfg: WindowConfig): (s: Store)
    requires WellFormed(cfg)
    ensures s.minLatency == cfg.minLatency && s.maxLatency == cfg.maxLatency
    ensures s.HashMapStore? ==> s.maxSizeMB == cfg.maxHashMapSizeMB
    ensures LatencyRange(cfg) >= 0 && cfg.latencyValueSizeBytes >= 0 ==>
              (s.ArrayStore? <==>
                 FootprintBytes(cfg) < cfg.maxArraySizeMB * BYTES_PER_MB
                 && LatencyRange(cfg) < INT_MAX)
    ensures LatencyRange(cfg) < 0 && cfg.latencyValueSizeBytes >= 0 && cfg.maxArraySizeMB > 0 ==>
              s.ArrayStore?
    ensures LatencyRange(cfg) < 0 && cfg.latencyValueSizeBytes >= 0 ==>
              (s.ArrayStore? <==> FootprintBytes(cfg) <= (cfg.maxArraySizeMB - 1) * BYTES_PER_MB)
  {
    BelowBudgetInBytes(FootprintBytes(cfg), cfg.maxArraySizeMB);
    if FootprintMB(cfg) < cfg.maxArraySizeMB && LatencyRange(cfg) < INT_MAX then
      ArrayStore(cfg.minLatency, cfg.maxLatency)
    else
      HashMapStore(cfg.minLatency, cfg.maxLatency, cfg.maxHashMapSizeMB)
  }

  /** For a non-negative byte count, the whole-megabyte count is below a
      budget exactly when the byte count is below the budget in bytes. */
  lemma BelowBudgetInBytes(bytes: int, budgetMB: int)
    ensures bytes >= 0 ==>
              (JavaDiv(bytes, BYTES_PER_MB) < budgetMB <==> bytes < budgetMB * BYTES_PER_MB)
  {
  }

  /** The strict boundary: a dense footprint of exactly the budget selects
      the hash-map store. */
  lemma ExactBudgetSelectsHashMap(cfg: WindowConfig)
    requires WellFormed(cfg)
    requires FootprintBytes(cfg) == cfg.maxArraySizeMB * BYTES_PER_MB
    ensures SelectStore(cfg).HashMapStore?
  {
  }

  /** One byte under the budget (with a range that is a valid array size)
      selects the array store. */
  lemma ByteUnderBudgetSelectsArray(cfg: WindowConfig)
    requires WellFormed(cfg)
    requires cfg.maxArraySizeMB > 0
    requires FootprintBytes(cfg) == cfg.maxArraySizeMB * BYTES_PER_MB - 1
    requires LatencyRange(cfg) < INT_MAX
    ensures SelectStore(cfg).ArrayStore?
  {
  }

  /** The same boundary in whole megabytes: a footprint equal to the budget
      selects the hash map, one megabyte less selects the array. */
  lemma MegabyteBoundary(cfg: WindowConfig)
    requires WellFormed(cfg)
    ensures FootprintMB(cfg) == cfg.maxArraySizeMB ==> SelectStore(cfg).HashMapStore?
    ensures FootprintMB(cfg) == cfg.maxArraySizeMB - 1 && LatencyRange(cfg) < INT_MAX ==>
              SelectStore(cfg).ArrayStore?
  {
  }
}
