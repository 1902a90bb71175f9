/** Types and constants that several parts of the kernel share (src/types.h, src/param.h,
    src/mmu.h). */
module Params {
  const PGSIZE := 4096
  const NPTENTRIES := 1024
  const MAXOPBLOCKS := 10
  /** Unsigned numbers are below this. */
  const UINT := 0x1_0000_0000

  newtype byte = x: int | 0 <= x < 256
  type Page = seq<byte>

  datatype Option<+T> = None | Some(value: T)
}
