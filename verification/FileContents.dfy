/** Files as byte sequences: readi, writei (kernel/fs.c:471-539) and filewrite's chunking loop
    (kernel/file.c:148-175). */
module FileContents {
  import opened FsLayout
  import opened FsOwner
  import opened FileSystem
  import LogLayout

  const MAXBYTES: int := 274432  // MAXFILE * BSIZE

  /** Byte p of a file. */
  function ByteAt(d: Disk, ino: Inode, p: nat): byte
    requires p < MAXBYTES
  {
    var b := FileBlock(d, ino, p / BSIZE);
    if 0 < b < |d| then d[b][p % BSIZE] else 0
  }

  function Content(d: Disk, ino: Inode): (c: seq<byte>)
    requires ino.size <= MAXBYTES
    ensures |c| == ino.size
  {
    seq(ino.size, p requires 0 <= p < ino.size => ByteAt(d, ino, p))
  }

  /** All file blocks that begin below `end` have a disk block. */
  ghost predicate MappedBelow(d: Disk, ino: Inode, end: int) {
    end <= MAXBYTES && forall bn :: 0 <= bn < MAXFILE && bn * BSIZE < end ==> FileBlock(d, ino, bn) != 0
  }

  ghost predicate Sized(s: Fs) {
    forall i :: 0 <= i < |s.inodes| ==> MappedBelow(s.disk, s.inodes[i], s.inodes[i].size)
  }

  /** src written over `was` at offset off, extending it if need be. */
  function Overwrite(was: seq<byte>, off: nat, src: seq<byte>): seq<byte>
    requires off <= |was|
  {
    was[..off] + src + (if off + |src| < |was| then was[off + |src|..] else [])
  }

  function Max(a: int, b: int): int {
    if a < b then b else a
  }

  /** Byte p after src has been written at off, if it is below the end. */
  function Expected(s: Fs, i: nat, off: nat, src: seq<byte>, p: nat): byte
    requires i < |s.inodes| && p < MAXBYTES
  {
    if off <= p < off + |src| then src[p - off] else ByteAt(s.disk, s.inodes[i], p)
  }

  /** State t is state s with `src` written into file i at off (the size not yet updated) and nothing else
      changed in any file. */
  ghost predicate Written(s: Fs, t: Fs, i: nat, off: nat, src: seq<byte>)
    requires i < |s.inodes| && Sized(s) && off <= s.inodes[i].size && off + |src| <= MAXBYTES
  {
    && |t.disk| == |s.disk| && |t.inodes| == |s.inodes|
    && (forall j :: 0 <= j < |s.inodes| ==> t.inodes[j].size == s.inodes[j].size)
    && (forall j :: 0 <= j < |s.inodes| && j != i ==> MappedBelow(t.disk, t.inodes[j], s.inodes[j].size))
    && (forall j, p :: 0 <= j < |s.inodes| && j != i && 0 <= p < s.inodes[j].size ==>
          ByteAt(t.disk, t.inodes[j], p) == ByteAt(s.disk, s.inodes[j], p))
    && var end := Max(s.inodes[i].size, off + |src|);
    && MappedBelow(t.disk, t.inodes[i], end)
    && (forall p :: 0 <= p < end ==> ByteAt(t.disk, t.inodes[i], p) == Expected(s, i, off, src, p))
  }

  lemma NothingWritten(s: Fs, i: nat, off: nat)
    requires i < |s.inodes| && Sized(s) && off <= s.inodes[i].size
    ensures Written(s, s, i, off, [])
  {
  }

  /** A mapped byte survives bmap. */
  lemma ByteSurvives(sb: Super, s: Fs, t: Fs, j: nat, p: nat)
    requires Good(sb, s) && Good(sb, t) && Grows(s.disk, s.inodes, s.owner, t.disk, t.inodes, t.owner)
    requires j < |s.inodes| && p < MAXBYTES && FileBlock(s.disk, s.inodes[j], p / BSIZE) != 0
    ensures FileBlock(t.disk, t.inodes[j], p / BSIZE) == FileBlock(s.disk, s.inodes[j], p / BSIZE)
    ensures ByteAt(t.disk, t.inodes[j], p) == ByteAt(s.disk, s.inodes[j], p)
  {
    var k := SlotOf(p / BSIZE);
    var b := Ref(s.disk, s.inodes[j], k);
    assert b in s.owner && s.owner[b] == Owner(j, k);
  }

  /** bmap changes no file. */
  lemma BmapKeepsWritten(sb: Super, s: Fs, m: Fs, t: Fs, i: nat, off: nat, src: seq<byte>)
    requires i < |s.inodes| && Sized(s) && off <= s.inodes[i].size && off + |src| <= MAXBYTES
    requires Written(s, m, i, off, src) && Good(sb, m) && Good(sb, t)
    requires Grows(m.disk, m.inodes, m.owner, t.disk, t.inodes, t.owner)
    ensures Written(s, t, i, off, src)
  {
    forall j, p | 0 <= j < |s.inodes| && j != i && 0 <= p < s.inodes[j].size
      ensures ByteAt(t.disk, t.inodes[j], p) == ByteAt(s.disk, s.inodes[j], p)
    {
      MappedByte(m.disk, m.inodes[j], s.inodes[j].size, p);
      ByteSurvives(sb, m, t, j, p);
    }
    var end := Max(s.inodes[i].size, off + |src|);
    forall p | 0 <= p < end ensures ByteAt(t.disk, t.inodes[i], p) == Expected(s, i, off, src, p) {
      MappedByte(m.disk, m.inodes[i], end, p);
      ByteSurvives(sb, m, t, i, p);
    }
    forall j | 0 <= j < |s.inodes|
      ensures MappedBelow(t.disk, t.inodes[j], if j == i then end else s.inodes[j].size)
    {
      GrowsKeepsMapped(m, t, j, if j == i then end else s.inodes[j].size);
    }
  }

  lemma MappedByte(d: Disk, ino: Inode, end: int, p: nat)
    requires MappedBelow(d, ino, end) && p < end
    ensures FileBlock(d, ino, p / BSIZE) != 0
  {
    assert p / BSIZE * BSIZE < end;
  }

  lemma GrowsKeepsMapped(m: Fs, t: Fs, j: nat, end: int)
    requires Grows(m.disk, m.inodes, m.owner, t.disk, t.inodes, t.owner) && j < |m.inodes|
    requires MappedBelow(m.disk, m.inodes[j], end)
    ensures MappedBelow(t.disk, t.inodes[j], end)
  {
    forall bn | 0 <= bn < MAXFILE && bn * BSIZE < end ensures FileBlock(t.disk, t.inodes[j], bn) != 0 {
      assert FileBlock(m.disk, m.inodes[j], bn) == Ref(m.disk, m.inodes[j], SlotOf(bn));
    }
  }

  // ----- copying into one block -----

  /** memmove of x into a block at offset o. */
  function Patch(b: Block, o: nat, x: seq<byte>): (r: Block)
    requires o + |x| <= BSIZE
    ensures forall q :: 0 <= q < BSIZE ==> r[q] == if o <= q < o + |x| then x[q - o] else b[q]
  {
    b[..o] + x + b[o + |x|..]
  }

  /** State m with x written into the disk block of byte p of file i. */
  function PatchFile(m: Fs, i: nat, p: nat, x: seq<byte>): Fs
    requires i < |m.inodes| && p < MAXBYTES && p % BSIZE + |x| <= BSIZE
  {
    var b := FileBlock(m.disk, m.inodes[i], p / BSIZE);
    if 0 < b < |m.disk| then
      m.(disk := m.disk[b := Patch(m.disk[b], p % BSIZE, x)], logged := m.logged + {b})
    else m
  }

  lemma PatchKeepsGood(sb: Super, m: Fs, i: nat, p: nat, x: seq<byte>)
    requires Good(sb, m) && i < |m.inodes| && p < MAXBYTES && p % BSIZE + |x| <= BSIZE
    requires FileBlock(m.disk, m.inodes[i], p / BSIZE) != 0
    ensures var t := PatchFile(m, i, p, x); var b := FileBlock(m.disk, m.inodes[i], p / BSIZE);
            && Good(sb, t) && t.inodes == m.inodes && t.owner == m.owner && sb.dataStart <= b < |m.disk|
            && t.disk == m.disk[b := Patch(m.disk[b], p % BSIZE, x)] && t.logged == m.logged + {b}
            && (forall j, bn :: 0 <= j < |m.inodes| && 0 <= bn < MAXFILE ==>
                  FileBlock(t.disk, t.inodes[j], bn) == FileBlock(m.disk, m.inodes[j], bn))
  {
    var k := SlotOf(p / BSIZE);
    var b := Ref(m.disk, m.inodes[i], k);
    assert b in m.owner && m.owner[b] == Owner(i, k);
    DataWriteKeeps(sb, m.disk, m.inodes, m.owner, {}, b, Patch(m.disk[b], p % BSIZE, x));
  }

  lemma BlockOwner(sb: Super, m: Fs, i: nat, bn: nat)
    requires Good(sb, m) && i < |m.inodes| && bn < MAXFILE && FileBlock(m.disk, m.inodes[i], bn) != 0
    ensures var b := FileBlock(m.disk, m.inodes[i], bn);
            0 < b < |m.disk| && b in m.owner && m.owner[b] == Owner(i, SlotOf(bn))
  {
  }

  /** Byte q lies among the n bytes from p of one block exactly when it does in that block. */
  lemma InBlock(p: nat, q: nat, n: nat)
    requires p % BSIZE + n <= BSIZE
    ensures p <= q < p + n <==> p / BSIZE == q / BSIZE && p % BSIZE <= q % BSIZE < p % BSIZE + n
    ensures p / BSIZE == q / BSIZE ==> q - p == q % BSIZE - p % BSIZE
  {
  }

  /** Exactly the bytes p .. p+|x| of file i change. */
  lemma PatchedByte(sb: Super, m: Fs, i: nat, p: nat, x: seq<byte>, j: nat, q: nat)
    requires Good(sb, m) && i < |m.inodes| && p < MAXBYTES && p % BSIZE + |x| <= BSIZE
    requires FileBlock(m.disk, m.inodes[i], p / BSIZE) != 0
    requires j < |m.inodes| && q < MAXBYTES && FileBlock(m.disk, m.inodes[j], q / BSIZE) != 0
    ensures var t := PatchFile(m, i, p, x);
            ByteAt(t.disk, m.inodes[j], q) ==
            if j == i && p <= q < p + |x| then x[q - p] else ByteAt(m.disk, m.inodes[j], q)
  {
    hide Good;
    PatchKeepsGood(sb, m, i, p, x);
    BlockOwner(sb, m, i, p / BSIZE);
    BlockOwner(sb, m, j, q / BSIZE);
    InBlock(p, q, |x|);
  }

  /** One round of writei's loop after bmap: the next piece x goes in. */
  lemma PatchKeepsWritten(sb: Super, s: Fs, m: Fs, i: nat, off: nat, src: seq<byte>, x: seq<byte>)
    requires i < |s.inodes| && Sized(s) && off <= s.inodes[i].size && off + |src| + |x| <= MAXBYTES && |x| > 0
    requires Written(s, m, i, off, src) && Good(sb, m)
    requires (off + |src|) % BSIZE + |x| <= BSIZE && FileBlock(m.disk, m.inodes[i], (off + |src|) / BSIZE) != 0
    ensures var t := PatchFile(m, i, off + |src|, x); Good(sb, t) && Written(s, t, i, off, src + x)
  {
    hide Good, FileBlock, PatchFile;
    var p := off + |src|;
    var t := PatchFile(m, i, p, x);
    PatchKeepsGood(sb, m, i, p, x);
    forall j, q | 0 <= j < |s.inodes| && j != i && 0 <= q < s.inodes[j].size
      ensures ByteAt(t.disk, t.inodes[j], q) == ByteAt(s.disk, s.inodes[j], q)
    {
      MappedByte(m.disk, m.inodes[j], s.inodes[j].size, q);
      PatchedByte(sb, m, i, p, x, j, q);
    }
    PatchedMapped(s, m, t, i, off, src, x);
    var end := Max(s.inodes[i].size, p + |x|);
    forall q | 0 <= q < end ensures ByteAt(t.disk, t.inodes[i], q) == Expected(s, i, off, src + x, q) {
      MappedByte(t.disk, t.inodes[i], end, q);
      PatchedByte(sb, m, i, p, x, i, q);
    }
  }

  lemma PatchedMapped(s: Fs, m: Fs, t: Fs, i: nat, off: nat, src: seq<byte>, x: seq<byte>)
    requires i < |s.inodes| && Sized(s) && off <= s.inodes[i].size && off + |src| + |x| <= MAXBYTES && |x| > 0
    requires Written(s, m, i, off, src) && t.inodes == m.inodes
    requires (off + |src|) % BSIZE + |x| <= BSIZE && FileBlock(m.disk, m.inodes[i], (off + |src|) / BSIZE) != 0
    requires forall j, bn :: 0 <= j < |m.inodes| && 0 <= bn < MAXFILE ==>
               FileBlock(t.disk, t.inodes[j], bn) == FileBlock(m.disk, m.inodes[j], bn)
    ensures MappedBelow(t.disk, t.inodes[i], Max(s.inodes[i].size, off + |src| + |x|))
    ensures forall j :: 0 <= j < |s.inodes| && j != i ==> MappedBelow(t.disk, t.inodes[j], s.inodes[j].size)
  {
  }

  // ----- the end of writei -----

  function WithSize(m: Fs, i: nat, size: nat): Fs
    requires i < |m.inodes|
  {
    m.(inodes := m.inodes[i := m.inodes[i].(size := size)])
  }

  lemma ResizedBytes(m: Fs, i: nat, size: nat, j: nat)
    requires i < |m.inodes| && j < |m.inodes|
    ensures forall k :: 0 <= k < NSLOT ==> Ref(m.disk, WithSize(m, i, size).inodes[j], k) == Ref(m.disk, m.inodes[j], k)
    ensures forall p :: 0 <= p < MAXBYTES ==>
              ByteAt(m.disk, WithSize(m, i, size).inodes[j], p) == ByteAt(m.disk, m.inodes[j], p)
    ensures forall end :: MappedBelow(m.disk, m.inodes[j], end) ==>
              MappedBelow(m.disk, WithSize(m, i, size).inodes[j], end)
  {
    var ino := WithSize(m, i, size).inodes[j];
    assert forall bn :: 0 <= bn < MAXFILE ==> FileBlock(m.disk, ino, bn) == FileBlock(m.disk, m.inodes[j], bn);
  }

  /** The new size makes the file the old bytes with src written over them; no other file changed. */
  lemma FinishWrite(s: Fs, m: Fs, i: nat, off: nat, src: seq<byte>)
    requires i < |s.inodes| && Sized(s) && off <= s.inodes[i].size && off + |src| <= MAXBYTES
    requires Written(s, m, i, off, src)
    ensures var t := WithSize(m, i, Max(s.inodes[i].size, off + |src|));
            && Sized(t)
            && Content(t.disk, t.inodes[i]) == Overwrite(Content(s.disk, s.inodes[i]), off, src)
            && (forall j :: 0 <= j < |s.inodes| && j != i ==>
                  Content(t.disk, t.inodes[j]) == Content(s.disk, s.inodes[j]))
  {
    var end := Max(s.inodes[i].size, off + |src|);
    var t := WithSize(m, i, end);
    forall j | 0 <= j < |s.inodes|
      ensures MappedBelow(t.disk, t.inodes[j], t.inodes[j].size)
      ensures j != i ==> Content(t.disk, t.inodes[j]) == Content(s.disk, s.inodes[j])
    {
      ResizedBytes(m, i, end, j);
    }
    ResizedBytes(m, i, end, i);
    var want := Overwrite(Content(s.disk, s.inodes[i]), off, src);
    assert |want| == end;
    forall p | 0 <= p < end ensures ByteAt(t.disk, t.inodes[i], p) == want[p] {
    }
  }

  // ----- the log budget -----

  /** Number of blocks that n bytes at offset off touch. */
  function BlocksTouched(off: nat, n: nat): nat {
    if n == 0 then 0 else (off % BSIZE + n - 1) / BSIZE + 1
  }

  /** Blocks logged by `rounds` rounds of writei's loop: two a round (the block and its bitmap block), one less for
      an unaligned first block, which is mapped already; two more once the indirect block is logged. */
  ghost predicate Within(s: Fs, i: nat, base: nat, rounds: nat, unaligned: bool)
    requires i < |s.inodes|
  {
    var a := Ref(s.disk, s.inodes[i], NDIRECT);
    |s.logged| <= base + 2 * rounds - (if unaligned && rounds > 0 then 1 else 0)
      + (if a != 0 && a in s.logged then 2 else 0)
  }

  lemma AddSome(a: set<int>, b: set<int>)
    ensures |a + b| <= |a| + |b|
  {
  }

  /** One round stays within the budget: bmap's log writes and then the data block's own. */
  lemma RoundWithin(sb: Super, s: Fs, t: Fs, i: nat, bn: nat, base: nat, rounds: nat, unaligned: bool)
    requires i < |s.inodes| && bn < MAXFILE && Within(s, i, base, rounds, unaligned) && BlockMapped(sb, s, t, i, bn)
    requires unaligned && rounds == 0 ==> FileBlock(s.disk, s.inodes[i], bn) != 0
    requires Ref(s.disk, s.inodes[i], NDIRECT) >= 0 && Ref(t.disk, t.inodes[i], NDIRECT) >= 0
    ensures FileBlock(t.disk, t.inodes[i], bn) == 0 ==> Within(t, i, base, rounds, unaligned)
    ensures FileBlock(t.disk, t.inodes[i], bn) != 0 ==>
              Within(t.(logged := t.logged + {FileBlock(t.disk, t.inodes[i], bn)}), i, base, rounds + 1, unaligned)
  {
    var was, addr := FileBlock(s.disk, s.inodes[i], bn), FileBlock(t.disk, t.inodes[i], bn);
    var ind, a := Ref(s.disk, s.inodes[i], NDIRECT), Ref(t.disk, t.inodes[i], NDIRECT);
    AddSome(t.logged, {addr});
    if was == 0 {
      if addr == 0 { EmptyLogs(sb, s.logged, ind, a, bn); } else { FilledLogs(sb, s.logged, ind, a, bn, addr); }
    }
  }

  lemma FilledBehind(logged: set<int>, two: set<int>, b: int, a: int)
    requires |two| <= 2
    ensures |logged + (two + {b, a})| <= |logged| + 4
    ensures |logged + (two + {a})| <= |logged| + (if a in logged then 2 else 3)
  {
    AddSome(logged, two);
    AddSome(logged + two, {b, a});
    AddSome(logged + two, {a});
    assert logged + (two + {b, a}) == logged + two + {b, a};
    assert logged + (two + {a}) == logged + two + {a};
    assert a in logged ==> logged + two + {a} == logged + two;
  }

  /** How many blocks a round adds to the log when it maps a new block. */
  lemma FilledLogs(sb: Super, logged: set<int>, ind: int, a: int, bn: nat, addr: int)
    requires addr > 0 && (bn >= NDIRECT ==> a > 0)
    ensures var now := logged + BmapLogs(sb, ind, a, bn, 0, addr) + {addr};
            && (bn < NDIRECT ==> |now| <= |logged| + 2)
            && (bn >= NDIRECT ==>
                  a in now && |now| <= |logged| + (if ind == 0 then 4 else if a in logged then 2 else 3))
  {
    hide BmapLogs;
    LogsAre(sb, ind, a, bn, addr);
    var logs, two := BmapLogs(sb, ind, a, bn, 0, addr), {BitmapBlock(sb, addr), addr};
    assert logged + logs + {addr} == logged + (logs + {addr});
    AddSome(logged, two);
    if bn >= NDIRECT {
      FilledBehind(logged, two, BitmapBlock(sb, a), a);
    }
  }

  /** ... and when the disk is full, so that at most the indirect block was new. */
  lemma EmptyLogs(sb: Super, logged: set<int>, ind: int, a: int, bn: nat)
    ensures var now := logged + BmapLogs(sb, ind, a, bn, 0, 0);
            if bn >= NDIRECT && ind == 0 && a > 0 then a in now && |now| <= |logged| + 2 else now == logged
  {
    if bn >= NDIRECT && ind == 0 && a > 0 { AddSome(logged, {BitmapBlock(sb, a), a}); }
  }

  lemma LogsAre(sb: Super, ind: int, a: int, bn: nat, addr: int)
    requires addr > 0 && (bn >= NDIRECT ==> a > 0)
    ensures BmapLogs(sb, ind, a, bn, 0, addr) + {addr} ==
            {BitmapBlock(sb, addr), addr}
            + if bn < NDIRECT then {} else if ind == 0 then {BitmapBlock(sb, a), a} else {a}
  {
    if bn >= NDIRECT && ind == 0 {
      assert {BitmapBlock(sb, a), a} + {a} == {BitmapBlock(sb, a), a};
    }
  }

  // ----- the code -----

  function Min(a: int, b: int): int {
    if a < b then a else b
  }

  /** off + n in 32-bit unsigned arithmetic is below off. */
  predicate Wraps(off: int, n: int) {
    (off + n) % 0x1_0000_0000 < off
  }

  /** The file block of a slot. */
  function BlockOf(l: nat): int { if l < NDIRECT then l else l - 1 }

  /** Slot l of inode i is the indirect one or of a file block from lo to hi-1, and is empty. */
  predicate Fillable(s: Fs, i: nat, j: int, l: int, lo: int, hi: int)
    requires 0 <= j < |s.inodes| && 0 <= l < NSLOT
  {
    j == i && Ref(s.disk, s.inodes[j], l) == 0 && (l == NDIRECT || lo <= BlockOf(l) < hi)
  }

  /** From s to t every slot is kept, unless it is fillable. */
  ghost predicate SlotsKept(s: Fs, t: Fs, i: nat, lo: int, hi: int) {
    && |t.inodes| == |s.inodes|
    && (forall j, l :: 0 <= j < |s.inodes| && 0 <= l < NSLOT && !Fillable(s, i, j, l, lo, hi) ==>
          Ref(t.disk, t.inodes[j], l) == Ref(s.disk, s.inodes[j], l))
  }

  lemma NoSlots(s: Fs, i: nat, lo: int, hi: int)
    ensures SlotsKept(s, s, i, lo, hi)
  {
  }

  lemma SlotsAgain(s: Fs, m: Fs, t: Fs, i: nat, lo: int, hi: int)
    requires SlotsKept(s, m, i, lo, hi) && SlotsKept(m, t, i, lo, hi)
    ensures SlotsKept(s, t, i, lo, hi)
  {
    hide Ref;
    forall j, l | 0 <= j < |s.inodes| && 0 <= l < NSLOT && !Fillable(s, i, j, l, lo, hi)
      ensures Ref(t.disk, t.inodes[j], l) == Ref(s.disk, s.inodes[j], l)
    {
      assert Ref(m.disk, m.inodes[j], l) == Ref(s.disk, s.inodes[j], l);
    }
  }

  lemma SlotsWider(s: Fs, t: Fs, i: nat, lo: int, hi: int, lo': int, hi': int)
    requires SlotsKept(s, t, i, lo, hi) && lo' <= lo && hi <= hi'
    ensures SlotsKept(s, t, i, lo', hi')
  {
  }

  /** A new size changes no slot. */
  lemma ResizedSlots(s: Fs, t: Fs, i: nat, lo: int, hi: int)
    requires i < |s.inodes| == |t.inodes| && t.disk == s.disk
    requires t.inodes == s.inodes[i := s.inodes[i].(size := t.inodes[i].size)]
    ensures SlotsKept(s, t, i, lo, hi)
    ensures forall bn :: 0 <= bn < MAXFILE ==> FileBlock(t.disk, t.inodes[i], bn) == FileBlock(s.disk, s.inodes[i], bn)
  {
  }

  lemma SlotsSame(s: Fs, t: Fs, logged: set<int>, i: nat, lo: int, hi: int)
    requires SlotsKept(s, t, i, lo, hi)
    ensures SlotsKept(s, t.(logged := logged), i, lo, hi)
  {
  }

  lemma BmapSlots(sb: Super, m: Fs, t: Fs, i: nat, bn: nat)
    requires i < |m.inodes| && bn < MAXFILE && BlockMapped(sb, m, t, i, bn)
    ensures SlotsKept(m, t, i, bn, bn + 1)
  {
  }

  lemma PatchSlots(sb: Super, t: Fs, i: nat, p: nat, x: seq<byte>, lo: int, hi: int)
    requires Good(sb, t) && i < |t.inodes| && p < MAXBYTES && p % BSIZE + |x| <= BSIZE
    requires FileBlock(t.disk, t.inodes[i], p / BSIZE) != 0
    ensures SlotsKept(t, PatchFile(t, i, p, x), i, lo, hi)
  {
    var k := SlotOf(p / BSIZE);
    var b := Ref(t.disk, t.inodes[i], k);
    assert b in t.owner && t.owner[b] == Owner(i, k);
    DataWriteKeeps(sb, t.disk, t.inodes, t.owner, {}, b, Patch(t.disk[b], p % BSIZE, x));
  }

  /** One round of writei's loop: map the block, copy the piece x into it, log it. False: the disk is full. */
  method WriteRound(fs: FileSys, i: nat, p: nat, x: seq<byte>, ghost s: Fs, ghost off: nat, ghost src: seq<byte>,
                    ghost base: nat, ghost rounds: nat)
    returns (ok: bool)
    requires i < |s.inodes| && Sized(s) && off <= s.inodes[i].size && off + |src| + |x| <= MAXBYTES && p == off + |src|
    requires i < |fs.inodes| && |x| > 0 && p % BSIZE + |x| <= BSIZE
    requires Good(fs.sb, fs.Snap()) && Written(s, fs.Snap(), i, off, src)
    requires Within(fs.Snap(), i, base, rounds, off % BSIZE != 0) && (rounds == 0 <==> src == [])
    modifies fs
    ensures Good(fs.sb, fs.Snap()) && |fs.inodes| == |old(fs.inodes)|
    ensures ok ==> Written(s, fs.Snap(), i, off, src + x) && Within(fs.Snap(), i, base, rounds + 1, off % BSIZE != 0)
    ensures !ok ==> Written(s, fs.Snap(), i, off, src) && Within(fs.Snap(), i, base, rounds, off % BSIZE != 0)
    ensures !ok ==> Full(fs.sb, fs.disk) && FileBlock(fs.disk, fs.inodes[i], p / BSIZE) == 0
    ensures ChangesLogged(old(fs.disk), old(fs.logged), fs.disk, fs.logged)
    ensures SlotsKept(old(fs.Snap()), fs.Snap(), i, p / BSIZE, p / BSIZE + 1)
  {
    hide Good, Written, Within, BlockMapped, Full, Sized, ChangesLogged, SlotsKept, FileBlock;
    ghost var m := fs.Snap();
    var addr := fs.Bmap(i, p / BSIZE);
    ghost var t := fs.Snap();
    RoundFacts(fs.sb, s, m, t, i, off, src, x, base, rounds);
    BmapSlots(fs.sb, m, t, i, p / BSIZE);
    if addr == 0 { return false; }
    PatchSlots(fs.sb, t, i, p, x, p / BSIZE, p / BSIZE + 1);
    fs.LogWrite(addr, Patch(fs.disk[addr], p % BSIZE, x));
    LoggedAgain(m.disk, m.logged, t.disk, t.logged, fs.disk, fs.logged);
    SlotsAgain(m, t, fs.Snap(), i, p / BSIZE, p / BSIZE + 1);
    return true;
  }

  /** What a round establishes, on values: m is the state before bmap, t the state after it. */
  lemma RoundFacts(sb: Super, s: Fs, m: Fs, t: Fs, i: nat, off: nat, src: seq<byte>, x: seq<byte>, base: nat,
                   rounds: nat)
    requires i < |s.inodes| && i < |m.inodes| && Sized(s) && off <= s.inodes[i].size && off + |src| + |x| <= MAXBYTES
    requires Good(sb, m) && Good(sb, t) && Written(s, m, i, off, src) && |x| > 0 && (off + |src|) % BSIZE + |x| <= BSIZE
    requires BlockMapped(sb, m, t, i, (off + |src|) / BSIZE)
    requires Within(m, i, base, rounds, off % BSIZE != 0) && (rounds == 0 <==> src == [])
    ensures |t.inodes| == |m.inodes|
    ensures var p := off + |src|; var addr := FileBlock(t.disk, t.inodes[i], p / BSIZE);
            if addr == 0 then
              Full(sb, t.disk) && Written(s, t, i, off, src) && Within(t, i, base, rounds, off % BSIZE != 0)
            else
              && 0 < addr < |t.disk|
              && var u := PatchFile(t, i, p, x);
              && u == Fs(t.disk[addr := Patch(t.disk[addr], p % BSIZE, x)], t.inodes, t.owner, t.logged + {addr})
              && Good(sb, u) && Written(s, u, i, off, src + x) && Within(u, i, base, rounds + 1, off % BSIZE != 0)
  {
    hide Good, Written, Within, BlockMapped, Full, Sized, Grows, FileBlock, Ref;
    var p, unaligned := off + |src|, off % BSIZE != 0;
    AfterBmap(sb, m, t, i, p / BSIZE);
    if rounds == 0 && unaligned { UnalignedIsMapped(s, m, i, off); }
    BmapKeepsWritten(sb, s, m, t, i, off, src);
    IndirectRange(sb, m, i);
    IndirectRange(sb, t, i);
    RoundWithin(sb, m, t, i, p / BSIZE, base, rounds, unaligned);
    if FileBlock(t.disk, t.inodes[i], p / BSIZE) != 0 {
      PatchKeepsGood(sb, t, i, p, x);
      PatchKeepsWritten(sb, s, t, i, off, src, x);
      WithinPatched(sb, t, i, p, x, base, rounds + 1, unaligned);
    }
  }

  lemma AfterBmap(sb: Super, m: Fs, t: Fs, i: nat, bn: nat)
    requires i < |m.inodes| && bn < MAXFILE && BlockMapped(sb, m, t, i, bn)
    ensures |t.inodes| == |m.inodes| && Grows(m.disk, m.inodes, m.owner, t.disk, t.inodes, t.owner)
    ensures FileBlock(t.disk, t.inodes[i], bn) == 0 ==> Full(sb, t.disk)
  {
  }

  /** An offset inside a block lies in a block that is mapped. */
  lemma UnalignedIsMapped(s: Fs, m: Fs, i: nat, off: nat)
    requires i < |s.inodes| && i < |m.inodes| && Sized(s) && off <= s.inodes[i].size && off < MAXBYTES
    requires off % BSIZE != 0
    requires Written(s, m, i, off, [])
    ensures FileBlock(m.disk, m.inodes[i], off / BSIZE) != 0
  {
    MappedByte(m.disk, m.inodes[i], s.inodes[i].size, off - 1);
  }

  lemma IndirectRange(sb: Super, m: Fs, i: nat)
    requires Good(sb, m) && i < |m.inodes|
    ensures Ref(m.disk, m.inodes[i], NDIRECT) >= 0
  {
  }

  lemma WithinPatched(sb: Super, t: Fs, i: nat, p: nat, x: seq<byte>, base: nat, rounds: nat, unaligned: bool)
    requires Good(sb, t) && i < |t.inodes| && p < MAXBYTES && p % BSIZE + |x| <= BSIZE
    requires FileBlock(t.disk, t.inodes[i], p / BSIZE) != 0
    requires Within(t.(logged := t.logged + {FileBlock(t.disk, t.inodes[i], p / BSIZE)}), i, base, rounds, unaligned)
    ensures Within(PatchFile(t, i, p, x), i, base, rounds, unaligned)
  {
    PatchKeepsGood(sb, t, i, p, x);
  }

  /** writei's loop. */
  method WriteRounds(fs: FileSys, i: nat, off0: nat, src: seq<byte>) returns (tot: nat)
    requires Good(fs.sb, fs.Snap()) && Sized(fs.Snap()) && i < |fs.inodes| && IsWord(off0) && IsWord(|src|)
    requires off0 <= fs.inodes[i].size && off0 + |src| <= MAXBYTES
    modifies fs
    ensures tot <= |src| && i < |fs.inodes| == |old(fs.inodes)| && Good(fs.sb, fs.Snap())
    ensures Written(old(fs.Snap()), fs.Snap(), i, off0, src[..tot])
    ensures tot < |src| ==> Full(fs.sb, fs.disk) && FileBlock(fs.disk, fs.inodes[i], (off0 + tot) / BSIZE) == 0
    ensures |fs.logged| <=
            |old(fs.logged)| + 2 * BlocksTouched(off0, |src|) + 2 - (if off0 % BSIZE != 0 && src != [] then 1 else 0)
    ensures ChangesLogged(old(fs.disk), old(fs.logged), fs.disk, fs.logged)
    ensures SlotsKept(old(fs.Snap()), fs.Snap(), i, off0 / BSIZE, (off0 + |src| + BSIZE - 1) / BSIZE)
  {
    hide Good, Written, Within, Full, ChangesLogged, SlotsKept, FileBlock;
    NothingChanged(fs.disk, fs.logged);
    ghost var lo, hi := off0 / BSIZE, (off0 + |src| + BSIZE - 1) / BSIZE;
    NoSlots(fs.Snap(), i, lo, hi);
    var n := |src|;
    ghost var s, base, rounds := fs.Snap(), |fs.logged|, 0;
    NothingWritten(s, i, off0);
    StartWithin(s, i, off0 % BSIZE != 0);
    tot := 0;
    var off := off0;
    while tot < n
      invariant 0 <= tot <= n && off == off0 + tot && i < |fs.inodes| == |s.inodes|
      invariant Good(fs.sb, fs.Snap()) && Written(s, fs.Snap(), i, off0, src[..tot])
      invariant Within(fs.Snap(), i, base, rounds, off0 % BSIZE != 0) && (rounds == 0 <==> tot == 0)
      invariant tot > 0 && tot < n ==> off % BSIZE == 0
      invariant rounds == BlocksTouched(off0, tot)
      invariant ChangesLogged(s.disk, s.logged, fs.disk, fs.logged)
      invariant SlotsKept(s, fs.Snap(), i, lo, hi)
    {
      var m := Min(n - tot, BSIZE - off % BSIZE);
      assert src[..tot + m] == src[..tot] + src[tot..tot + m];
      ghost var h := fs.Snap();
      var ok := WriteRound(fs, i, off, src[tot..tot + m], s, off0, src[..tot], base, rounds);
      LoggedAgain(s.disk, s.logged, h.disk, h.logged, fs.disk, fs.logged);
      SlotsWider(h, fs.Snap(), i, off / BSIZE, off / BSIZE + 1, lo, hi);
      SlotsAgain(s, h, fs.Snap(), i, lo, hi);
      if !ok { break; }
      RoundCount(off0, tot, m);
      rounds := rounds + 1;
      tot, off := tot + m, off + m;
    }
    RoundsMonotone(off0, tot, n);
    WithinTotal(fs.Snap(), i, base, rounds, off0 % BSIZE != 0);
  }

  /** writei with a copy that succeeds. The file becomes the old bytes with the written prefix of src over them;
      a short count means the disk is full. */
  method Writei(fs: FileSys, i: nat, off0: nat, src: seq<byte>) returns (r: int)
    requires Good(fs.sb, fs.Snap()) && Sized(fs.Snap()) && i < |fs.inodes| && IsWord(off0) && IsWord(|src|)
    modifies fs
    ensures Good(fs.sb, fs.Snap()) && Sized(fs.Snap()) && |fs.inodes| == |old(fs.inodes)|
    ensures var size := old(fs.inodes)[i].size;
            r == -1 <==> off0 > size || off0 + |src| > MAXBYTES
    ensures r == -1 ==> fs.Snap() == old(fs.Snap())
    ensures r != -1 ==>
              && 0 <= r <= |src|
              && Content(fs.disk, fs.inodes[i]) == Overwrite(Content(old(fs.disk), old(fs.inodes)[i]), off0, src[..r])
              && (forall j :: 0 <= j < |fs.inodes| && j != i ==>
                    Content(fs.disk, fs.inodes[j]) == Content(old(fs.disk), old(fs.inodes)[j]))
    ensures -1 < r < |src| ==> Full(fs.sb, fs.disk) && FileBlock(fs.disk, fs.inodes[i], (off0 + r) / BSIZE) == 0
    ensures |fs.logged| <=
            |old(fs.logged)| + 2 * BlocksTouched(off0, |src|) + 3 - (if off0 % BSIZE != 0 && src != [] then 1 else 0)
    ensures ChangesLogged(old(fs.disk), old(fs.logged), fs.disk, fs.logged)
    ensures r != -1 ==> InodeBlock(fs.sb, i) in fs.logged
    ensures SlotsKept(old(fs.Snap()), fs.Snap(), i, off0 / BSIZE, (off0 + |src| + BSIZE - 1) / BSIZE)
  {
    hide Good, Written, Full, Content, Overwrite, ChangesLogged, SlotsKept, FileBlock;
    NothingChanged(fs.disk, fs.logged);
    ghost var lo, hi := off0 / BSIZE, (off0 + |src| + BSIZE - 1) / BSIZE;
    NoSlots(fs.Snap(), i, lo, hi);
    var n := |src|;
    if off0 > fs.inodes[i].size || Wraps(off0, n) { return -1; }
    if off0 + n > MAXBYTES { return -1; }
    ghost var s := fs.Snap();
    var tot := WriteRounds(fs, i, off0, src);
    ghost var h := fs.Snap();
    UpdateSize(fs, i, off0 + tot, s, off0, src[..tot]);
    ResizedSlots(h, fs.Snap(), i, lo, hi);
    SlotsAgain(s, h, fs.Snap(), i, lo, hi);
    LoggedMore(s.disk, s.logged, fs.disk, fs.logged, {InodeBlock(fs.sb, i)});
    SlotsSame(s, fs.Snap(), fs.logged + {InodeBlock(fs.sb, i)}, i, lo, hi);
    AddSome(fs.logged, {InodeBlock(fs.sb, i)});
    GoodLogged(fs.sb, fs.Snap(), fs.logged + {InodeBlock(fs.sb, i)});
    fs.Iupdate(i);
    return tot;
  }

  /** The end of writei: a larger size if the write went past the end. */
  method UpdateSize(fs: FileSys, i: nat, off: nat, ghost s: Fs, ghost off0: nat, ghost src: seq<byte>)
    requires i < |s.inodes| == |fs.inodes| && Sized(s) && off0 <= s.inodes[i].size && off0 + |src| <= MAXBYTES
    requires off == off0 + |src| && Good(fs.sb, fs.Snap()) && Written(s, fs.Snap(), i, off0, src)
    modifies fs`inodes
    ensures Good(fs.sb, fs.Snap()) && Sized(fs.Snap()) && |fs.inodes| == |s.inodes|
    ensures fs.inodes == old(fs.inodes)[i := old(fs.inodes)[i].(size := fs.inodes[i].size)]
    ensures Content(fs.disk, fs.inodes[i]) == Overwrite(Content(s.disk, s.inodes[i]), off0, src)
    ensures forall j :: 0 <= j < |s.inodes| && j != i ==> Content(fs.disk, fs.inodes[j]) == Content(s.disk, s.inodes[j])
  {
    FinishWrite(s, fs.Snap(), i, off0, src);
    SizeIsKept(s, fs.Snap(), i, off0, src);
    ghost var size := Max(s.inodes[i].size, off);
    GoodResized(fs.sb, fs.Snap(), i, size);
    if off > fs.inodes[i].size {
      fs.inodes := fs.inodes[i := fs.inodes[i].(size := off)];
    }
    assert fs.Snap() == WithSize(old(fs.Snap()), i, size);
  }

  lemma SizeIsKept(s: Fs, m: Fs, i: nat, off: nat, src: seq<byte>)
    requires i < |s.inodes| && Sized(s) && off <= s.inodes[i].size && off + |src| <= MAXBYTES
    requires Written(s, m, i, off, src)
    ensures i < |m.inodes| && m.inodes[i].size == s.inodes[i].size
  {
  }

  lemma GoodResized(sb: Super, m: Fs, i: nat, size: nat)
    requires Good(sb, m) && i < |m.inodes|
    ensures Good(sb, WithSize(m, i, size))
  {
    SizeKeeps(sb, m.disk, m.inodes, m.owner, i, size);
  }

  lemma GoodLogged(sb: Super, m: Fs, logged: set<int>)
    requires Good(sb, m)
    ensures Good(sb, m.(logged := logged))
  {
  }

  lemma StartWithin(s: Fs, i: nat, unaligned: bool)
    requires i < |s.inodes|
    ensures Within(s, i, |s.logged|, 0, unaligned)
  {
  }

  lemma WithinTotal(s: Fs, i: nat, base: nat, rounds: nat, unaligned: bool)
    requires i < |s.inodes| && Within(s, i, base, rounds, unaligned)
    ensures |s.logged| <= base + 2 * rounds + 2 - (if unaligned && rounds > 0 then 1 else 0)
  {
  }

  /** Every round fills its block to the end, except the last. */
  lemma RoundCount(off: nat, tot: nat, m: nat)
    requires m > 0 && (off + tot) % BSIZE + m <= BSIZE && (tot > 0 ==> (off + tot) % BSIZE == 0)
    ensures BlocksTouched(off, tot + m) == BlocksTouched(off, tot) + 1
  {
    var o := off % BSIZE;
    if tot == 0 {
      assert (o + m - 1) / BSIZE == 0;
    } else {
      var q := (o + tot) / BSIZE;
      assert o + tot == q * BSIZE;
      assert (q * BSIZE - 1) / BSIZE == q - 1;
      assert (q * BSIZE + (m - 1)) / BSIZE == q;
    }
  }

  lemma RoundsMonotone(off: nat, tot: nat, n: nat)
    requires tot <= n
    ensures BlocksTouched(off, tot) <= BlocksTouched(off, n)
    ensures n > 0 ==> BlocksTouched(off, n) >= 1
  {
  }

  /** readi with a copy that succeeds: a slice of the file, and nothing changes, because every block below the size
      is mapped. */
  method Readi(fs: FileSys, i: nat, off0: nat, n0: nat) returns (dst: seq<byte>)
    requires Good(fs.sb, fs.Snap()) && Sized(fs.Snap()) && i < |fs.inodes| && IsWord(off0) && IsWord(n0)
    modifies fs
    ensures fs.Snap() == old(fs.Snap())
    ensures var file := Content(fs.disk, fs.inodes[i]);
            dst == if off0 > |file| || Wraps(off0, n0) then [] else file[off0..Min(off0 + n0, |file|)]
  {
    hide Good, BlockMapped, Content, FileBlock;
    if off0 > fs.inodes[i].size || Wraps(off0, n0) { return []; }
    var n := n0;
    if off0 + n > fs.inodes[i].size { n := fs.inodes[i].size - off0; }
    ghost var s, file := fs.Snap(), Content(fs.disk, fs.inodes[i]);
    dst := [];
    var tot, off := 0, off0;
    while tot < n
      invariant 0 <= tot <= n && off == off0 + tot && fs.Snap() == s
      invariant dst == file[off0..off]
    {
      ReadMapped(fs.sb, s, i, off);
      var addr := fs.Bmap(i, off / BSIZE);
      MappedStays(fs.sb, s, fs.Snap(), i, off / BSIZE);
      var m := Min(n - tot, BSIZE - off % BSIZE);
      dst := dst + fs.disk[addr][off % BSIZE..off % BSIZE + m];
      Slice(fs.disk, fs.inodes[i], off, m);
      assert file[off0..off] + file[off..off + m] == file[off0..off + m];
      tot, off := tot + m, off + m;
    }
  }

  lemma ReadMapped(sb: Super, s: Fs, i: nat, p: nat)
    requires Good(sb, s) && Sized(s) && i < |s.inodes| && p < s.inodes[i].size
    ensures p < MAXBYTES && 0 < FileBlock(s.disk, s.inodes[i], p / BSIZE) < |s.disk|
  {
    MappedByte(s.disk, s.inodes[i], s.inodes[i].size, p);
    var k := SlotOf(p / BSIZE);
    assert Ref(s.disk, s.inodes[i], k) in s.owner;
  }

  lemma MappedStays(sb: Super, s: Fs, t: Fs, i: nat, bn: nat)
    requires i < |s.inodes| && bn < MAXFILE && BlockMapped(sb, s, t, i, bn) && FileBlock(s.disk, s.inodes[i], bn) != 0
    ensures t == s
  {
  }

  /** A piece of one block is a piece of the file. */
  lemma Slice(d: Disk, ino: Inode, p: nat, m: nat)
    requires ino.size <= MAXBYTES && p + m <= ino.size && m > 0 && p % BSIZE + m <= BSIZE
    requires 0 < FileBlock(d, ino, p / BSIZE) < |d|
    ensures d[FileBlock(d, ino, p / BSIZE)][p % BSIZE..p % BSIZE + m] == Content(d, ino)[p..p + m]
  {
    var piece, want := d[FileBlock(d, ino, p / BSIZE)][p % BSIZE..p % BSIZE + m], Content(d, ino)[p..p + m];
    forall q | 0 <= q < |piece| ensures piece[q] == want[q] {
      SameBlock(p, q);
    }
  }

  lemma SameBlock(p: nat, q: nat)
    requires p % BSIZE + q < BSIZE
    ensures (p + q) / BSIZE == p / BSIZE && (p + q) % BSIZE == p % BSIZE + q
  {
  }

  // ----- filewrite -----

  lemma OverwriteTwice(was: seq<byte>, off: nat, x: seq<byte>, y: seq<byte>)
    requires off <= |was|
    ensures Overwrite(Overwrite(was, off, x), off + |x|, y) == Overwrite(was, off, x + y)
  {
  }

  /** A chunk of which r bytes were written (none for r <= 0) extends the written prefix by r. */
  lemma ChunkStep(was: seq<byte>, off: nat, src: seq<byte>, i: nat, n1: nat, r: int, cur: seq<byte>, now: seq<byte>)
    requires off <= |was| && i + n1 <= |src| && -1 <= r <= n1 && cur == Overwrite(was, off, src[..i])
    requires r == -1 ==> now == cur
    requires r >= 0 ==> now == Overwrite(cur, off + i, src[i..i + n1][..r])
    ensures now == Overwrite(was, off, src[..i + if r > 0 then r else 0])
  {
    if r >= 0 {
      OverwriteTwice(was, off, src[..i], src[i..i + r]);
      assert src[i..i + n1][..r] == src[i..i + r] && src[..i] + src[i..i + r] == src[..i + r];
    }
  }

  /** filewrite's max. */
  const CHUNK: int := 3072  // ((MAXOPBLOCKS-1-1-2) / 2) * BSIZE

  /** A chunk logs at most MAXOPBLOCKS blocks, whatever its offset. */
  lemma ChunkFits(off: nat, n: nat)
    requires n <= CHUNK
    ensures CHUNK == (LogLayout.MAXOPBLOCKS - 1 - 1 - 2) / 2 * BSIZE
    ensures 2 * BlocksTouched(off, n) + 3 - (if off % BSIZE != 0 && n > 0 then 1 else 0) <= LogLayout.MAXOPBLOCKS
  {
    if n > 0 {
      assert off % BSIZE + n - 1 <= 4095;
      assert off % BSIZE == 0 ==> off % BSIZE + n - 1 <= 3071;
    }
  }

  /** filewrite on an inode: returns the count when all bytes were written, else -1. In both cases the file holds the
      written prefix, whose length is how far f->off moved, and no chunk logged more than its reservation. */
  method FileWrite(fs: FileSys, ino: nat, off0: nat, src: seq<byte>) returns (ret: int, off: nat, most: nat)
    requires Good(fs.sb, fs.Snap()) && Sized(fs.Snap()) && ino < |fs.inodes| && IsWord(off0) && |src| < 0x8000_0000
    modifies fs
    ensures Good(fs.sb, fs.Snap()) && Sized(fs.Snap()) && |fs.inodes| == |old(fs.inodes)|
    ensures off0 <= off <= off0 + |src| && most <= LogLayout.MAXOPBLOCKS
    ensures ret == (if off == off0 + |src| then |src| else -1)
    ensures off0 <= old(fs.inodes)[ino].size ==>
              Content(fs.disk, fs.inodes[ino]) ==
              Overwrite(Content(old(fs.disk), old(fs.inodes)[ino]), off0, src[..off - off0])
    ensures off0 > old(fs.inodes)[ino].size ==>
              off == off0 && Content(fs.disk, fs.inodes[ino]) == Content(old(fs.disk), old(fs.inodes)[ino])
    ensures forall j :: 0 <= j < |fs.inodes| && j != ino ==>
              Content(fs.disk, fs.inodes[j]) == Content(old(fs.disk), old(fs.inodes)[j])
  {
    hide Good, Overwrite, Content;
    var n, i := |src|, 0;
    off, most := off0, 0;
    ghost var was := Content(fs.disk, fs.inodes[ino]);
    if off0 <= |was| { OverwriteNothing(was, off0, src); }
    while i < n
      invariant 0 <= i <= n && off == off0 + i && most <= LogLayout.MAXOPBLOCKS
      invariant Good(fs.sb, fs.Snap()) && Sized(fs.Snap()) && |fs.inodes| == |old(fs.inodes)|
      invariant off0 <= |was| ==> off <= MAXBYTES && Content(fs.disk, fs.inodes[ino]) == Overwrite(was, off0, src[..i])
      invariant off0 > |was| ==> i == 0 && Content(fs.disk, fs.inodes[ino]) == was
      invariant forall j :: 0 <= j < |fs.inodes| && j != ino ==>
                  Content(fs.disk, fs.inodes[j]) == Content(old(fs.disk), old(fs.inodes)[j])
    {
      var n1 := Min(n - i, CHUNK);
      ghost var cur := Content(fs.disk, fs.inodes[ino]);
      GoodLogged(fs.sb, fs.Snap(), {});
      fs.logged := {};
      var r := Writei(fs, ino, off, src[i..i + n1]);
      ChunkFits(off, n1);
      if |fs.logged| > most { most := |fs.logged|; }
      if off0 <= |was| { ChunkStep(was, off0, src, i, n1, r, cur, Content(fs.disk, fs.inodes[ino])); }
      if r > 0 { off := off + r; }
      if r != n1 { break; }
      i := i + r;
    }
    ret := if i == n then n else -1;
  }

  lemma OverwriteNothing(was: seq<byte>, off: nat, src: seq<byte>)
    requires off <= |was|
    ensures Overwrite(was, off, src[..0]) == was
  {
  }
}
