/** The file system over whole runs: any sequence of reads, writes and truncations behaves as on a list of byte
    sequences. */
module FsRuns {
  import opened FsLayout
  import opened FsOwner
  import opened FileSystem
  import opened FileContents

  // ----- runs -----

  datatype FileOp = Write(i: nat, off: nat, src: seq<byte>) | Read(i: nat, off: nat, n: nat) | Truncate(i: nat)

  /** What a call returns: writei's count, readi's bytes, or nothing. */
  datatype Out = Count(r: int) | Bytes(dst: seq<byte>) | Done

  /** The call names an inode, and its numbers fit the code's 32-bit arguments. */
  predicate Proper(op: FileOp, files: nat) {
    op.i < files && (op.Write? ==> IsWord(op.off) && IsWord(|op.src|)) && (op.Read? ==> IsWord(op.off) && IsWord(op.n))
  }

  ghost predicate AllProper(ops: seq<FileOp>, files: nat) {
    forall k :: 0 <= k < |ops| ==> Proper(ops[k], files)
  }

  /** The files after a call that returned out. */
  function After(files: seq<seq<byte>>, op: FileOp, out: Out): (after: seq<seq<byte>>)
    requires op.i < |files|
    ensures |after| == |files|
  {
    match op
    case Write(i, off, src) =>
      if out.Count? && 0 <= out.r <= |src| && off <= |files[i]| then
        files[i := Overwrite(files[i], off, src[..out.r])]
      else files
    case Read(_, _, _) => files
    case Truncate(i) => files[i := []]
  }

  /** What the call may return: a read the slice, a write -1 exactly for a bad offset or a too long file. */
  predicate Right(files: seq<seq<byte>>, op: FileOp, out: Out)
    requires op.i < |files|
  {
    match op
    case Write(i, off, src) =>
      out.Count? && (out.r == -1 <==> off > |files[i]| || off + |src| > MAXBYTES) && -1 <= out.r <= |src|
    case Read(i, off, n) =>
      out == Bytes(if off > |files[i]| || Wraps(off, n) then [] else files[i][off..Min(off + n, |files[i]|)])
    case Truncate(_) => out == Done
  }

  /** The files after a run. */
  ghost function Replay(files: seq<seq<byte>>, ops: seq<FileOp>, outs: seq<Out>): (after: seq<seq<byte>>)
    requires |outs| == |ops| && AllProper(ops, |files|)
    ensures |after| == |files|
    decreases |ops|
  {
    if ops == [] then files
    else After(Replay(files, ops[..|ops| - 1], outs[..|ops| - 1]), ops[|ops| - 1], outs[|ops| - 1])
  }

  /** Every call of a run returned what it may. */
  ghost predicate AllRight(files: seq<seq<byte>>, ops: seq<FileOp>, outs: seq<Out>)
    requires |outs| == |ops| && AllProper(ops, |files|)
    decreases |ops|
  {
    ops == [] ||
    var n := |ops| - 1;
    AllRight(files, ops[..n], outs[..n]) && Right(Replay(files, ops[..n], outs[..n]), ops[n], outs[n])
  }

  /** The disk holds these files. */
  ghost predicate Holds(s: Fs, files: seq<seq<byte>>) {
    && Sized(s) && |files| == |s.inodes|
    && forall i :: 0 <= i < |files| ==> files[i] == Content(s.disk, s.inodes[i])
  }

  /** Truncating one file leaves the bytes of all others. */
  lemma TruncateKeeps(sb: Super, s: Fs, t: Fs, i: nat, files: seq<seq<byte>>)
    requires Good(sb, s) && Holds(s, files) && i < |s.inodes| && SameData(sb, s.disk, t.disk)
    requires t.inodes == s.inodes[i := Inode(0, NoAddrs())]
    ensures Holds(t, files[i := []])
  {
    forall j | 0 <= j < |s.inodes| && j != i
      ensures MappedBelow(t.disk, t.inodes[j], t.inodes[j].size)
      ensures Content(t.disk, t.inodes[j]) == Content(s.disk, s.inodes[j])
    {
      SameBytes(sb, s, t, j);
    }
  }

  lemma SameBytes(sb: Super, s: Fs, t: Fs, j: nat)
    requires Good(sb, s) && Sized(s) && SameData(sb, s.disk, t.disk) && j < |s.inodes| == |t.inodes|
    requires t.inodes[j] == s.inodes[j]
    ensures MappedBelow(t.disk, t.inodes[j], t.inodes[j].size)
    ensures Content(t.disk, t.inodes[j]) == Content(s.disk, s.inodes[j])
  {
    forall k | 0 <= k < NSLOT ensures Ref(t.disk, t.inodes[j], k) == Ref(s.disk, s.inodes[j], k) {
      SameSlot(sb, s, t, j, k);
    }
    assert forall bn :: 0 <= bn < MAXFILE ==> FileBlock(t.disk, t.inodes[j], bn) == FileBlock(s.disk, s.inodes[j], bn);
    forall p | 0 <= p < s.inodes[j].size ensures ByteAt(t.disk, t.inodes[j], p) == ByteAt(s.disk, s.inodes[j], p) {
      SlotIsData(sb, s, j, SlotOf(p / BSIZE));
    }
  }

  lemma SlotIsData(sb: Super, s: Fs, j: nat, k: nat)
    requires Good(sb, s) && j < |s.inodes| && k < NSLOT
    ensures Ref(s.disk, s.inodes[j], k) == 0 || sb.dataStart <= Ref(s.disk, s.inodes[j], k) < |s.disk|
  {
  }

  lemma SameSlot(sb: Super, s: Fs, t: Fs, j: nat, k: nat)
    requires Good(sb, s) && SameData(sb, s.disk, t.disk) && j < |s.inodes| == |t.inodes| && t.inodes[j] == s.inodes[j]
    requires k < NSLOT
    ensures Ref(t.disk, t.inodes[j], k) == Ref(s.disk, s.inodes[j], k)
  {
    SlotIsData(sb, s, j, NDIRECT);
    assert |s.inodes[j].addrs| == NDIRECT + 1;
    assert Ref(s.disk, s.inodes[j], NDIRECT) == s.inodes[j].addrs[NDIRECT];
  }

  /** One call. */
  method Perform(fs: FileSys, op: FileOp, ghost files: seq<seq<byte>>) returns (out: Out)
    requires Good(fs.sb, fs.Snap()) && Holds(fs.Snap(), files) && Proper(op, |fs.inodes|)
    modifies fs
    ensures Good(fs.sb, fs.Snap()) && |fs.inodes| == |old(fs.inodes)|
    ensures Right(files, op, out) && Holds(fs.Snap(), After(files, op, out))
  {
    hide Good, SameData, Content, Overwrite, MappedBelow;
    ghost var s := fs.Snap();
    match op
    case Write(i, off, src) =>
      var r := Writei(fs, i, off, src);
      out := Count(r);
    case Read(i, off, n) =>
      var dst := Readi(fs, i, off, n);
      out := Bytes(dst);
    case Truncate(i) =>
      fs.Itrunc(i);
      TruncateKeeps(fs.sb, s, fs.Snap(), i, files);
      out := Done;
  }

  /** Any run: every read returns what the writes and truncations before it left, every write reports how much it wrote,
      and the blocks stay owned as the bitmap says. */
  method Run(fs: FileSys, ops: seq<FileOp>, ghost files: seq<seq<byte>>) returns (outs: seq<Out>)
    requires Good(fs.sb, fs.Snap()) && Holds(fs.Snap(), files) && AllProper(ops, |files|)
    modifies fs
    ensures |outs| == |ops| && |files| == |fs.inodes| == |old(fs.inodes)| && Good(fs.sb, fs.Snap())
    ensures AllRight(files, ops, outs) && Holds(fs.Snap(), Replay(files, ops, outs))
  {
    hide Good, Holds, Right, After;
    HoldsAll(fs.Snap(), files);
    outs := [];
    var k := 0;
    ghost var now := files;
    assert ops[..0] == [];
    while k < |ops|
      invariant 0 <= k <= |ops| && |outs| == k && |fs.inodes| == |old(fs.inodes)| == |files| == |now|
      invariant Good(fs.sb, fs.Snap()) && Holds(fs.Snap(), now)
      invariant AllRight(files, ops[..k], outs) && now == Replay(files, ops[..k], outs)
    {
      var out := Perform(fs, ops[k], now);
      assert ops[..k + 1][..k] == ops[..k] && (outs + [out])[..k] == outs;
      now := After(now, ops[k], out);
      outs := outs + [out];
      k := k + 1;
    }
    assert ops[..k] == ops;
  }

  lemma HoldsAll(s: Fs, files: seq<seq<byte>>)
    requires Holds(s, files)
    ensures |files| == |s.inodes|
  {
  }

  function NoFiles(n: nat): (files: seq<seq<byte>>)
    ensures |files| == n && forall i :: 0 <= i < n ==> files[i] == []
  {
    seq(n, _ => [])
  }

  /** A run from the image that mkfs makes. */
  method FromMkfs(sb: Super, ninodes: nat, ops: seq<FileOp>) returns (fs: FileSys, outs: seq<Out>)
    requires 1 <= sb.inodestart <= sb.bmapstart && sb.dataStart == sb.bmapstart + 1 <= sb.size <= BPB
    requires AllProper(ops, ninodes)
    ensures |outs| == |ops| && Good(fs.sb, fs.Snap())
    ensures AllRight(NoFiles(ninodes), ops, outs) && Holds(fs.Snap(), Replay(NoFiles(ninodes), ops, outs))
  {
    hide Good;
    fs := new FileSys.Mkfs(sb, ninodes);
    assert Holds(fs.Snap(), NoFiles(ninodes));
    outs := Run(fs, ops, NoFiles(ninodes));
  }
}
