/** filewrite() of kernel/file.c against the space test of kernel/log.c. */
module LogRoom {
  import opened Params
  import opened FsBytes
  import opened FsVolume
  import opened FsFiles
  import opened LogSpace

  lemma SubsetSmall(a: set<nat>, b: set<nat>)
    requires a <= b
    ensures |a| <= |b|
  {
    assert b == a + (b - a);
  }

  /** Operation `i` has logged part of `chunk`. */
  ghost predicate PartOf(s: State, i: nat, chunk: set<nat>) { i < |s.ops| && s.ops[i] <= chunk }

  /** In any run of the log, an operation that has logged part of a chunk of at most 7 blocks may log more. */
  lemma ChunkFits(s: State, i: nat, chunk: set<nat>)
    requires Reachable(s) && PartOf(s, i, chunk) && |chunk| <= 7
    ensures !TooBig(s)
  {
    hide Reachable, TooBig;
    SubsetSmall(s.ops[i], chunk);
    NeverTooBig(s, i);
  }

  /** On a volume with one bitmap block no transaction of filewrite() can be too big, whatever other operations share
      the log and wherever in the transaction log_write() is called; and the transactions log every block that the
      write changes. */
  method WriteNeverTooBig(fs: FileSystem, f: OpenFile, data: seq<Byte>, supply: nat)
      returns (ret: int, ghost done: nat, ghost txns: seq<Txn>)
    requires fs.Locked(f.ip) && f.off < UINT && |data| < 0x8000_0000 && fs.g.size <= BPB
    modifies fs, f, f.ip
    ensures fs.Locked(f.ip) && done <= |data| && f.off == old(f.off) + done
    ensures ret == if done == |data| then |data| else -1
    ensures Progress(old(fs.Vol(f.ip)), fs.Vol(f.ip), f.ip.inum, old(f.off), data, done)
    ensures done < |data| ==> || supply < |data| || (forall b :: 0 <= b < fs.g.size ==> Bit(fs.g, fs.disk, b))
                              || old(f.off) > old(f.ip.size) || old(f.off) + |data| > MAXFILE * BSIZE
    ensures Chain(fs.g, old(fs.disk), old(fs.dinodes), txns, fs.disk, fs.dinodes)
    ensures forall s, i, k :: 0 <= k < |txns| && Reachable(s) && PartOf(s, i, txns[k].logged) ==> !TooBig(s)
  {
    hide Reachable, TooBig, PartOf, Chain, Progress;
    ret, done, txns := fs.Filewrite(f, data, supply);
    forall s, i, k | 0 <= k < |txns| && Reachable(s) && PartOf(s, i, txns[k].logged)
      ensures !TooBig(s)
    {
      ChunkFits(s, i, txns[k].logged);
    }
  }
}
