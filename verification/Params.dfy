/** What several parts of the model share (kernel/param.h, kernel/fs.h). */
module Params {
  /** Blocks one file-system operation may log. */
  const MAXOPBLOCKS: nat := 10
  /** Bytes of a disk block. */
  const BSIZE: nat := 1024

  type Byte = b: nat | b < 256

  datatype Option<+T> = None | Some(value: T)
}
