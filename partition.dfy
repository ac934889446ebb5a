/**
 * The row partition used by the host-parallel matrix-vector products.
 * The products call `Partitioner.Create(0, rows)`, which refuses an empty
 * range (`rows <= 0`) with an `ArgumentOutOfRangeException`, and hand each
 * range `[lo, min(lo + grain, rows))` to a worker. The grain is chosen by the
 * runtime from the processor count, so the model takes it as a parameter;
 * every result below holds for every grain.
 */
module Partition {

  /** True when `Partitioner.Create(0, rows)` accepts the range. */
  predicate Accepts(rows: int) { rows > 0 }

  /** End of the worker range that starts at `lo`. */
  function ChunkEnd(lo: int, rows: int, grain: int): (hi: int)
    requires 0 <= lo < rows && grain >= 1
    ensures lo < hi <= rows
    ensures hi == rows || hi == lo + grain
  {
    if lo + grain < rows then lo + grain else rows
  }
}
