/**
 * Granule arithmetic shared by both backing strategies: the granule size,
 * size_t, and the `>> ZGranuleSizeShift` / `<< ZGranuleSizeShift`
 * conversions between byte counts and granule counts.
 */
module Granule {

  /** log2 of the granule size: granules are 2 MB. */
  const GranuleSizeShift: nat := 21
  /** `1 << GranuleSizeShift`; every shift below is written as multiplication or division by it. */
  const GranuleSize: nat := 0x20_0000
  /** One megabyte, the unit of the diagnostic messages. */
  const M: nat := 0x10_0000

  /** One more than the largest size_t value (size_t is 64 bits wide). */
  const SizeLimit: nat := 0x1_0000_0000_0000_0000
  /** Number of granules in the whole size_t range: `SizeLimit >> GranuleSizeShift`. */
  const MaxGranules: nat := 0x800_0000_0000

  /** size_t: an unsigned 64-bit byte count or offset. */
  type Size = x: nat | x < 0x1_0000_0000_0000_0000

  predicate IsAligned(x: nat) {
    x % GranuleSize == 0
  }

  /** `x >> ZGranuleSizeShift`: the number of whole granules in x (the granule index of offset x). */
  function ShiftRight(x: nat): (r: nat)
    ensures r * GranuleSize <= x < (r + 1) * GranuleSize
  {
    x / GranuleSize
  }

  /** `x << ZGranuleSizeShift` on size_t, which drops the bits shifted out beyond 64. */
  function ShiftLeft(x: nat): (r: Size)
    ensures x * GranuleSize < SizeLimit ==> r == x * GranuleSize
  {
    (x * GranuleSize) % SizeLimit
  }

  /**
   * The number of iterations of `for (size_t i = 0; i < size; i += ZGranuleSize)`:
   * `size` rounded up to whole granules. The loop visits that many granules
   * starting at the granule of the offset, so for an unaligned offset this
   * may be one fewer than the granules the byte range overlaps.
   */
  function GranuleCount(size: nat): (n: nat)
    ensures n * GranuleSize >= size
    ensures n == 0 || (n - 1) * GranuleSize < size
    ensures IsAligned(size) ==> n == ShiftRight(size)
  {
    (size + GranuleSize - 1) / GranuleSize
  }

  /** Stepping i by whole granules from offset steps the granule index by one per granule. */
  lemma ShiftRightAdvance(offset: nat, k: nat)
    ensures ShiftRight(offset + k * GranuleSize) == ShiftRight(offset) + k
  {
  }

  /**
   * A granule index below the size_t granule range comes from a byte
   * position that size_t can hold, so `offset + i` never wraps.
   */
  lemma GranuleOffsetFits(offset: nat, k: nat)
    requires ShiftRight(offset) + k < MaxGranules
    ensures offset + k * GranuleSize < SizeLimit
  {
  }

  /**
   * Converting a byte count to pages and back never overshoots, and gives
   * the count back exactly when it is granule-aligned.
   */
  lemma ShiftRoundTrip(x: Size)
    ensures ShiftLeft(ShiftRight(x)) <= x
    ensures ShiftLeft(ShiftRight(x)) == x <==> IsAligned(x)
  {
  }

  /**
   * A byte range inside [0, capacity) has its page slice inside the
   * `capacity >> shift` entries of a granule-indexed table, whatever its
   * alignment; when offset and size are aligned, so does its rounded-up
   * granule range.
   */
  lemma RangeWithinCapacity(offset: nat, size: nat, capacity: nat)
    requires offset + size <= capacity
    ensures ShiftRight(offset) + ShiftRight(size) <= ShiftRight(capacity)
    ensures IsAligned(offset) && IsAligned(size) ==>
              ShiftRight(offset) + GranuleCount(size) <= ShiftRight(capacity)
  {
  }
}
