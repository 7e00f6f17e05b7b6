/** Who owns which disk block: the bitmap, the direct and indirect slots of all inodes, and what keeps
    them in agreement (kernel/fs.c:61-105, kernel/fs.c:372-453). */
module FsOwner {
  import opened FsLayout

  /** size is sb.size; the bitmap starts at bmapstart; blocks below dataStart are boot block, super block,
      log, inode blocks and bitmap. */
  datatype Super = Super(size: nat, inodestart: nat, bmapstart: nat, dataStart: nat)

  /** The in-memory inode: size and addrs[NDIRECT+1]. */
  datatype Inode = Inode(size: nat, addrs: seq<int>)

  const NSLOT: int := 269  // NDIRECT + 1 + NINDIRECT

  ghost predicate SuperOk(sb: Super, d: Disk) {
    && sb.size == |d| && IsWord(sb.size)
    && 1 <= sb.inodestart <= sb.bmapstart
    && forall b :: 0 <= b < sb.size ==> sb.bmapstart <= BitmapBlock(sb, b) < sb.dataStart <= sb.size
  }

  /** BBLOCK */
  function BitmapBlock(sb: Super, b: nat): nat {
    b / BPB + sb.bmapstart
  }

  /** Is the bit of block b set? */
  predicate Used(sb: Super, d: Disk, b: nat)
    requires BitmapBlock(sb, b) < |d|
  {
    Bit(d[BitmapBlock(sb, b)][b % BPB / 8], b % BPB % 8)
  }

  ghost predicate Shaped(inodes: seq<Inode>) {
    forall i :: 0 <= i < |inodes| ==> |inodes[i].addrs| == NDIRECT + 1
  }

  /** The block number in slot k of an inode: 0..11 direct, 12 the indirect block itself, 13.. the entries of
      the indirect block. 0 means none. */
  function Ref(d: Disk, ino: Inode, k: nat): int
    requires k < NSLOT
  {
    if |ino.addrs| != NDIRECT + 1 then 0
    else if k <= NDIRECT then ino.addrs[k]
    else if 0 < ino.addrs[NDIRECT] < |d| then Word(d[ino.addrs[NDIRECT]], k - 13)
    else 0
  }

  datatype Owner = Owner(inode: nat, slot: nat)

  /** Every block in use belongs to exactly one slot of one inode, and the bitmap says the same. `spare`
      holds blocks just allocated and not yet put into a slot. */
  ghost predicate Owned(sb: Super, d: Disk, inodes: seq<Inode>, owner: map<int, Owner>, spare: set<int>) {
    && SuperOk(sb, d) && Shaped(inodes)
    && (forall b :: b in owner ==>
          && sb.dataStart <= b < sb.size && b !in spare
          && owner[b].inode < |inodes| && owner[b].slot < NSLOT
          && Ref(d, inodes[owner[b].inode], owner[b].slot) == b)
    && (forall i, k :: 0 <= i < |inodes| && 0 <= k < NSLOT && Ref(d, inodes[i], k) != 0 ==>
          Ref(d, inodes[i], k) in owner && owner[Ref(d, inodes[i], k)] == Owner(i, k))
    && (forall b :: b in spare ==> sb.dataStart <= b < sb.size)
    && (forall b :: 0 <= b < sb.size ==> (Used(sb, d, b) <==> b < sb.dataStart || b in owner || b in spare))
  }

  /** Two different slots never name the same block. */
  lemma NoSharing(sb: Super, d: Disk, inodes: seq<Inode>, owner: map<int, Owner>, spare: set<int>,
                  i: nat, k: nat, j: nat, l: nat)
    requires Owned(sb, d, inodes, owner, spare)
    requires i < |inodes| && j < |inodes| && k < NSLOT && l < NSLOT && (i != j || k != l)
    requires Ref(d, inodes[i], k) != 0
    ensures Ref(d, inodes[i], k) != Ref(d, inodes[j], l)
  {
  }

  /** Slots are read through the inode and its indirect block only. */
  lemma SameRefs(d: Disk, e: Disk, ino: Inode)
    requires |d| == |e| && |ino.addrs| == NDIRECT + 1
    requires 0 < ino.addrs[NDIRECT] < |d| ==> e[ino.addrs[NDIRECT]] == d[ino.addrs[NDIRECT]]
    ensures forall k :: 0 <= k < NSLOT ==> Ref(e, ino, k) == Ref(d, ino, k)
  {
  }

  /** An inode's indirect block is owned by its slot 12. */
  lemma IndirectOwner(sb: Super, d: Disk, inodes: seq<Inode>, owner: map<int, Owner>, spare: set<int>, i: nat)
    requires Owned(sb, d, inodes, owner, spare) && i < |inodes| && inodes[i].addrs[NDIRECT] != 0
    ensures var a := inodes[i].addrs[NDIRECT];
            a in owner && owner[a] == Owner(i, NDIRECT) && sb.dataStart <= a < sb.size
  {
    assert Ref(d, inodes[i], NDIRECT) == inodes[i].addrs[NDIRECT];
  }

  /** Writing a block that is no indirect block and no bitmap block keeps the agreement. */
  lemma DataWriteKeeps(sb: Super, d: Disk, inodes: seq<Inode>, owner: map<int, Owner>, spare: set<int>, b: int,
                       x: Block)
    requires Owned(sb, d, inodes, owner, spare) && sb.dataStart <= b < sb.size
    requires b in owner ==> owner[b].slot != NDIRECT
    ensures Owned(sb, d[b := x], inodes, owner, spare)
    ensures forall i, k :: 0 <= i < |inodes| && 0 <= k < NSLOT ==> Ref(d[b := x], inodes[i], k) == Ref(d, inodes[i], k)
  {
    var e := d[b := x];
    forall i | 0 <= i < |inodes|
      ensures forall k :: 0 <= k < NSLOT ==> Ref(e, inodes[i], k) == Ref(d, inodes[i], k)
    {
      if inodes[i].addrs[NDIRECT] != 0 { IndirectOwner(sb, d, inodes, owner, spare, i); }
      SameRefs(d, e, inodes[i]);
    }
    forall c | 0 <= c < sb.size ensures Used(sb, e, c) <==> Used(sb, d, c) {
      assert BitmapBlock(sb, c) != b;
    }
  }

  // ----- changing one bit of the bitmap -----

  /** bp->data[bi/8] = x in the bitmap block of block b, with bi = b % BPB. */
  function PutBitmapByte(sb: Super, d: Disk, b: nat, x: byte): (e: Disk)
    requires BitmapBlock(sb, b) < |d|
    ensures |e| == |d|
  {
    var m := BitmapBlock(sb, b);
    d[m := d[m][b % BPB / 8 := x]]
  }

  /** balloc's marking of a free block. */
  function MarkUsed(sb: Super, d: Disk, b: nat): (e: Disk)
    requires BitmapBlock(sb, b) < |d| && !Used(sb, d, b)
    ensures |e| == |d|
  {
    PutBitmapByte(sb, d, b, SetBit(d[BitmapBlock(sb, b)][b % BPB / 8], b % BPB % 8))
  }

  /** bfree's unmarking. */
  function MarkFree(sb: Super, d: Disk, b: nat): (e: Disk)
    requires BitmapBlock(sb, b) < |d| && Used(sb, d, b)
    ensures |e| == |d|
  {
    PutBitmapByte(sb, d, b, ClearBit(d[BitmapBlock(sb, b)][b % BPB / 8], b % BPB % 8))
  }

  lemma SameBit(b: nat, c: nat)
    requires b / BPB == c / BPB && b % BPB / 8 == c % BPB / 8 && b % BPB % 8 == c % BPB % 8
    ensures b == c
  {
    assert b % BPB == c % BPB;
  }

  /** Exactly one bit changes. */
  lemma OnlyOneBit(sb: Super, d: Disk, b: nat, c: nat)
    requires BitmapBlock(sb, b) < |d| && BitmapBlock(sb, c) < |d|
    ensures !Used(sb, d, b) ==> (Used(sb, MarkUsed(sb, d, b), c) <==> c == b || Used(sb, d, c))
    ensures Used(sb, d, b) ==> (Used(sb, MarkFree(sb, d, b), c) <==> c != b && Used(sb, d, c))
  {
    if b / BPB == c / BPB && b % BPB / 8 == c % BPB / 8 && b % BPB % 8 == c % BPB % 8 { SameBit(b, c); }
  }

  /** Changing a bitmap block leaves all slots alone. */
  lemma BitmapWriteKeepsRefs(sb: Super, d: Disk, inodes: seq<Inode>, owner: map<int, Owner>, spare: set<int>, b: nat,
                             x: byte)
    requires Owned(sb, d, inodes, owner, spare) && b < sb.size
    ensures var e := PutBitmapByte(sb, d, b, x);
            && SuperOk(sb, e)
            && (forall c :: sb.dataStart <= c < sb.size ==> e[c] == d[c])
            && (forall i, k :: 0 <= i < |inodes| && 0 <= k < NSLOT ==> Ref(e, inodes[i], k) == Ref(d, inodes[i], k))
  {
    var e := PutBitmapByte(sb, d, b, x);
    forall i | 0 <= i < |inodes|
      ensures forall k :: 0 <= k < NSLOT ==> Ref(e, inodes[i], k) == Ref(d, inodes[i], k)
    {
      if inodes[i].addrs[NDIRECT] != 0 { IndirectOwner(sb, d, inodes, owner, spare, i); }
      SameRefs(d, e, inodes[i]);
    }
  }

  /** After balloc's marking, block b is spare. */
  lemma MarkUsedKeeps(sb: Super, d: Disk, inodes: seq<Inode>, owner: map<int, Owner>, spare: set<int>, b: nat)
    requires Owned(sb, d, inodes, owner, spare) && b < sb.size && !Used(sb, d, b)
    ensures Owned(sb, MarkUsed(sb, d, b), inodes, owner, spare + {b})
    ensures sb.dataStart <= b && b !in owner
  {
    var e := MarkUsed(sb, d, b);
    BitmapWriteKeepsRefs(sb, d, inodes, owner, spare, b, SetBit(d[BitmapBlock(sb, b)][b % BPB / 8], b % BPB % 8));
    forall c | 0 <= c < sb.size ensures Used(sb, e, c) <==> c == b || Used(sb, d, c) {
      OnlyOneBit(sb, d, b, c);
    }
  }

  // ----- putting a spare block into a slot -----

  /** ip->addrs[k] = b, for a direct slot or the indirect slot. */
  lemma AssignAddrKeeps(sb: Super, d: Disk, inodes: seq<Inode>, owner: map<int, Owner>, spare: set<int>,
                        i: nat, k: nat, b: int)
    requires Owned(sb, d, inodes, owner, spare) && i < |inodes| && k <= NDIRECT
    requires inodes[i].addrs[k] == 0 && b in spare && (k == NDIRECT ==> d[b] == ZeroBlock())
    ensures var ino := inodes[i].(addrs := inodes[i].addrs[k := b]);
            && Owned(sb, d, inodes[i := ino], owner[b := Owner(i, k)], spare - {b})
            && (forall l :: 0 <= l < NSLOT && l != k ==> Ref(d, ino, l) == Ref(d, inodes[i], l))
            && Ref(d, ino, k) == b
  {
    var ino := inodes[i].(addrs := inodes[i].addrs[k := b]);
    if k == NDIRECT { ZeroWords(); }
    forall l | 0 <= l < NSLOT && l != k ensures Ref(d, ino, l) == Ref(d, inodes[i], l) {
    }
    AssignKeeps(sb, d, d, inodes, inodes[i := ino], owner, spare, i, k, b);
  }

  lemma ZeroWords()
    ensures forall j :: 0 <= j < NINDIRECT ==> Word(ZeroBlock(), j) == 0
  {
  }

  /** a[k-13] = b in the indirect block of inode i. */
  lemma AssignEntryKeeps(sb: Super, d: Disk, inodes: seq<Inode>, owner: map<int, Owner>, spare: set<int>,
                         i: nat, k: nat, b: int)
    requires Owned(sb, d, inodes, owner, spare) && i < |inodes| && 13 <= k < NSLOT
    requires inodes[i].addrs[NDIRECT] != 0 && Ref(d, inodes[i], k) == 0 && b in spare
    ensures var a := inodes[i].addrs[NDIRECT];
            && sb.dataStart <= a < sb.size
            && var e := d[a := PutWord(d[a], k - 13, b)];
            && Owned(sb, e, inodes, owner[b := Owner(i, k)], spare - {b})
            && (forall j, l :: 0 <= j < |inodes| && 0 <= l < NSLOT && (j != i || l != k) ==>
                  Ref(e, inodes[j], l) == Ref(d, inodes[j], l))
            && Ref(e, inodes[i], k) == b
  {
    IndirectOwner(sb, d, inodes, owner, spare, i);
    var a := inodes[i].addrs[NDIRECT];
    var e := d[a := PutWord(d[a], k - 13, b)];
    forall j | 0 <= j < |inodes|
      ensures forall l :: 0 <= l < NSLOT && (j != i || l != k) ==> Ref(e, inodes[j], l) == Ref(d, inodes[j], l)
    {
      if j != i {
        if inodes[j].addrs[NDIRECT] != 0 { IndirectOwner(sb, d, inodes, owner, spare, j); }
        SameRefs(d, e, inodes[j]);
      }
    }
    AssignKeeps(sb, d, e, inodes, inodes, owner, spare, i, k, b);
  }

  /** The common part: slot k of inode i was empty and now names the spare block b, and nothing else moved. */
  lemma AssignKeeps(sb: Super, d: Disk, e: Disk, inodes: seq<Inode>, after: seq<Inode>,
                    owner: map<int, Owner>, spare: set<int>, i: nat, k: nat, b: int)
    requires Owned(sb, d, inodes, owner, spare) && i < |inodes| && k < NSLOT && b in spare
    requires |e| == |d| && |after| == |inodes| && Shaped(after) && SuperOk(sb, e)
    requires Ref(d, inodes[i], k) == 0 && Ref(e, after[i], k) == b
    requires forall j, l :: 0 <= j < |inodes| && 0 <= l < NSLOT && (j != i || l != k) ==>
               Ref(e, after[j], l) == Ref(d, inodes[j], l)
    requires forall c :: 0 <= c < sb.size ==> (Used(sb, e, c) <==> Used(sb, d, c))
    ensures Owned(sb, e, after, owner[b := Owner(i, k)], spare - {b})
  {
    var now := owner[b := Owner(i, k)];
    forall c | c in now
      ensures && sb.dataStart <= c < sb.size && c !in spare - {b} && now[c].inode < |after| && now[c].slot < NSLOT
              && Ref(e, after[now[c].inode], now[c].slot) == c
    {
      if c != b { assert c in owner && owner[c] != Owner(i, k); }
    }
  }

  // ----- giving blocks back -----

  /** As Owned, while itrunc is at work: the blocks in `gone` are already free in the bitmap although a slot
      still names them. */
  ghost predicate Releasing(sb: Super, d: Disk, inodes: seq<Inode>, owner: map<int, Owner>, gone: set<int>) {
    && SuperOk(sb, d) && Shaped(inodes)
    && (forall b :: b in owner ==>
          && sb.dataStart <= b < sb.size
          && owner[b].inode < |inodes| && owner[b].slot < NSLOT
          && Ref(d, inodes[owner[b].inode], owner[b].slot) == b)
    && (forall i, k :: 0 <= i < |inodes| && 0 <= k < NSLOT && Ref(d, inodes[i], k) != 0 ==>
          Ref(d, inodes[i], k) in owner && owner[Ref(d, inodes[i], k)] == Owner(i, k))
    && (forall b :: b in gone ==> b in owner)
    && (forall b :: 0 <= b < sb.size ==> (Used(sb, d, b) <==> b < sb.dataStart || (b in owner && b !in gone)))
  }

  lemma MarkFreeKeeps(sb: Super, d: Disk, inodes: seq<Inode>, owner: map<int, Owner>, gone: set<int>, b: nat)
    requires Releasing(sb, d, inodes, owner, gone) && b in owner && b !in gone
    ensures Used(sb, d, b) && Releasing(sb, MarkFree(sb, d, b), inodes, owner, gone + {b})
    ensures forall c :: sb.dataStart <= c < sb.size ==> MarkFree(sb, d, b)[c] == d[c]
    ensures forall i, k :: 0 <= i < |inodes| && 0 <= k < NSLOT ==>
              Ref(MarkFree(sb, d, b), inodes[i], k) == Ref(d, inodes[i], k)
  {
    var e := MarkFree(sb, d, b);
    forall i | 0 <= i < |inodes|
      ensures forall k :: 0 <= k < NSLOT ==> Ref(e, inodes[i], k) == Ref(d, inodes[i], k)
    {
      assert Ref(d, inodes[i], NDIRECT) == inodes[i].addrs[NDIRECT];
      SameRefs(d, e, inodes[i]);
    }
    forall c | 0 <= c < sb.size ensures Used(sb, e, c) <==> c != b && Used(sb, d, c) {
      OnlyOneBit(sb, d, b, c);
    }
  }

  /** Once no slot names a gone block any more, the agreement is restored without them. */
  lemma ForgetKeeps(sb: Super, d: Disk, inodes: seq<Inode>, after: seq<Inode>, owner: map<int, Owner>, gone: set<int>)
    requires Releasing(sb, d, inodes, owner, gone) && |after| == |inodes| && Shaped(after)
    requires forall j, l :: 0 <= j < |inodes| && 0 <= l < NSLOT ==>
               Ref(d, after[j], l) == if Ref(d, inodes[j], l) in gone then 0 else Ref(d, inodes[j], l)
    ensures Owned(sb, d, after, owner - gone, {})
  {
  }
}
