/** Constants that several parts of the kernel share (kernel/param.h, kernel/fs.h, kernel/riscv.h,
    kernel/memlayout.h). */
module Params {

  const MAXOPBLOCKS: nat := 10               // blocks one file system operation may write
  const LOGBLOCKS: nat := MAXOPBLOCKS * 3    // blocks in the log
  const NBUF: nat := MAXOPBLOCKS * 3         // buffers in the cache
  const BSIZE: nat := 1024                   // bytes in a disk block
  const ROOTINO: nat := 1                    // the root directory

  const PGSIZE: nat := 4096
  const MAXVA: nat := 0x40_0000_0000         // 1 << 38
  const TRAMPOLINE: nat := MAXVA - PGSIZE
  const TRAPFRAME: nat := TRAMPOLINE - PGSIZE
}
