/** Compile-time constants shared by the index structures (src/utils/settings.hpp). */
module Settings {
  /** Tolerance for comparing weights, and the largest maximum that is treated as zero. */
  const NEAR_ZERO: real := 0.000000001

  /** A block is compacted when this fraction of its entries is dead. */
  const COMPACTION_TOMBSTONE_RATIO: real := 0.1

  /** Slots the neighbour heuristic keeps free when it fills back rejected candidates. */
  const BACKFILL_BUFFER: nat := 4

  /** Steps below the acceptance bound after which a layer search gives up. */
  const EARLY_EXIT_BUFFER_INSERT: nat := 16
  const EARLY_EXIT_BUFFER_QUERY: nat := 8

  /** Number of values of a 32-bit and of a 16-bit unsigned integer. */
  const TWO_32: nat := 0x1_0000_0000
  const TWO_16: nat := 0x1_0000

  datatype Option<+T> = None | Some(value: T)
}
