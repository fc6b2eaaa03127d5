/** Disk blocks as bytes: the 32-bit little-endian words of an indirect block and the bits of
    a bitmap block (kernel/fs.c, kernel/fs.h). */
module FsBytes {
  import opened Params

  const BPB: nat := BSIZE * 8
  const NINDIRECT: nat := BSIZE / 4

  type Byte = x: int | 0 <= x < 256
  type Block = b: seq<Byte> | |b| == BSIZE witness seq(BSIZE, _ => 0)

  function ZeroBlock(): (b: Block)
    ensures forall i :: 0 <= i < BSIZE ==> b[i] == 0
  {
    seq(BSIZE, _ => 0)
  }

  // ---------------------------------------------------------------- words

  function Compose(b0: Byte, b1: Byte, b2: Byte, b3: Byte): nat {
    (b0 as int) + 0x100 * (b1 as int) + 0x1_0000 * (b2 as int) + 0x100_0000 * (b3 as int)
  }

  /** The i-th byte of v, least significant first. */
  function ByteOf(v: nat, i: nat): Byte {
    if i == 0 then v % 0x100 else ByteOf(v / 0x100, i - 1)
  }

  lemma ComposeBytes(v: nat)
    requires v < 0x1_0000_0000
    ensures Compose(ByteOf(v, 0), ByteOf(v, 1), ByteOf(v, 2), ByteOf(v, 3)) == v
  {
    var q1 := v / 0x100;
    var q2 := q1 / 0x100;
    var q3 := q2 / 0x100;
    assert v == 0x100 * q1 + v % 0x100 && q1 == 0x100 * q2 + q1 % 0x100 && q2 == 0x100 * q3 + q2 % 0x100;
    assert ByteOf(v, 0) == v % 0x100 && ByteOf(v, 1) == ByteOf(q1, 0) == q1 % 0x100;
    assert ByteOf(v, 2) == ByteOf(q1, 1) == ByteOf(q2, 0) == q2 % 0x100;
    assert ByteOf(v, 3) == ByteOf(q1, 2) == ByteOf(q2, 1) == ByteOf(q3, 0) == q3;
  }

  /** ((uint *) b)[j]. */
  function Word(b: Block, j: nat): nat
    requires j < NINDIRECT
  {
    Compose(b[4 * j], b[4 * j + 1], b[4 * j + 2], b[4 * j + 3])
  }

  /** ((uint *) b)[j] = v. */
  function WithWord(b: Block, j: nat, v: nat): Block
    requires j < NINDIRECT
  {
    b[4 * j := ByteOf(v, 0)][4 * j + 1 := ByteOf(v, 1)][4 * j + 2 := ByteOf(v, 2)][4 * j + 3 := ByteOf(v, 3)]
  }

  lemma WordOf(b: Block, j: nat, v: nat, k: nat)
    requires j < NINDIRECT && k < NINDIRECT && v < 0x1_0000_0000
    ensures Word(WithWord(b, j, v), k) == if k == j then v else Word(b, k)
  {
    hide Compose, ByteOf;
    ComposeBytes(v);
  }

  lemma ZeroWord(j: nat)
    requires j < NINDIRECT
    ensures Word(ZeroBlock(), j) == 0
  {}

  // ----------------------------------------------------------------- bits

  /** x & (1 << k), as a truth value. */
  predicate HasBit(x: nat, k: nat) {
    if k == 0 then x % 2 == 1 else HasBit(x / 2, k - 1)
  }

  /** x | (1 << k). */
  function SetBit(x: nat, k: nat): nat {
    if k == 0 then x / 2 * 2 + 1 else SetBit(x / 2, k - 1) * 2 + x % 2
  }

  /** x & ~(1 << k). */
  function ClearBit(x: nat, k: nat): nat {
    if k == 0 then x / 2 * 2 else ClearBit(x / 2, k - 1) * 2 + x % 2
  }

  function Pow2(n: nat): nat { if n == 0 then 1 else 2 * Pow2(n - 1) }

  lemma {:induction false} BitBound(x: nat, k: nat, n: nat)
    requires k < n && x < Pow2(n)
    ensures SetBit(x, k) < Pow2(n) && ClearBit(x, k) < Pow2(n)
  {
    if k > 0 {
      BitBound(x / 2, k - 1, n - 1);
    }
  }

  lemma {:induction false} SetBitAt(x: nat, k: nat, j: nat)
    ensures HasBit(SetBit(x, k), j) == (j == k || HasBit(x, j))
  {
    if k > 0 && j > 0 {
      SetBitAt(x / 2, k - 1, j - 1);
    }
  }

  lemma {:induction false} ClearBitAt(x: nat, k: nat, j: nat)
    ensures HasBit(ClearBit(x, k), j) == (j != k && HasBit(x, j))
  {
    if k > 0 && j > 0 {
      ClearBitAt(x / 2, k - 1, j - 1);
    }
  }

  lemma ByteBits(x: Byte, k: nat)
    requires k < 8
    ensures SetBit(x, k) < 256 && ClearBit(x, k) < 256
  {
    assert Pow2(8) == 256 by { assert Pow2(4) == 16; assert Pow2(6) == 64; }
    BitBound(x, k, 8);
  }

  // --------------------------------------------------------- bitmap blocks

  /** bp->data[bi/8] & (1 << (bi % 8)). */
  predicate BitIn(b: Block, bi: nat)
    requires bi < BPB
  {
    HasBit(b[bi / 8], bi % 8)
  }

  function WithBit(b: Block, bi: nat, on: bool): Block
    requires bi < BPB
  {
    ByteBits(b[bi / 8], bi % 8);
    b[bi / 8 := if on then SetBit(b[bi / 8], bi % 8) else ClearBit(b[bi / 8], bi % 8)]
  }

  lemma BitOf(b: Block, bi: nat, on: bool, bj: nat)
    requires bi < BPB && bj < BPB
    ensures BitIn(WithBit(b, bi, on), bj) == if bi == bj then on else BitIn(b, bj)
  {
    SetBitAt(b[bi / 8], bi % 8, bj % 8);
    ClearBitAt(b[bi / 8], bi % 8, bj % 8);
    assert bi == bj <==> bi / 8 == bj / 8 && bi % 8 == bj % 8;
  }
}
