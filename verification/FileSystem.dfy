/** kernel/fs.c: balloc, bfree, bmap, itrunc, readi and writei over the block contents that the log layer
    presents, and the chunking loop of filewrite (kernel/file.c). */
module FileSystem {
  import opened FsLayout
  import opened FsOwner

  /** A snapshot of the file system. */
  datatype Fs = Fs(disk: Disk, inodes: seq<Inode>, owner: map<int, Owner>, logged: set<int>)

  /** The bitmap and the slots agree about who owns what. */
  ghost predicate Good(sb: Super, s: Fs) {
    match s
    case Fs(d, inodes, owner, _) => Owned(sb, d, inodes, owner, {})
  }

  /** The slot of file block bn. */
  function SlotOf(bn: nat): (k: nat)
    requires bn < MAXFILE
    ensures k < NSLOT && k != NDIRECT
  {
    if bn < NDIRECT then bn else bn + 1
  }

  /** The disk block of file block bn, 0 if there is none. */
  function FileBlock(d: Disk, ino: Inode, bn: nat): int
    requires bn < MAXFILE
  {
    Ref(d, ino, SlotOf(bn))
  }

  /** Later states of the disk during bmap: nothing that was mapped moves or changes. */
  ghost predicate Grows(d: Disk, inodes: seq<Inode>, owner: map<int, Owner>,
                        e: Disk, after: seq<Inode>, now: map<int, Owner>) {
    && |e| == |d| && |after| == |inodes|
    && (forall i :: 0 <= i < |inodes| ==> after[i].size == inodes[i].size)
    && (forall i, k :: 0 <= i < |inodes| && 0 <= k < NSLOT && Ref(d, inodes[i], k) != 0 ==>
          Ref(e, after[i], k) == Ref(d, inodes[i], k))
    && (forall b :: b in owner ==> b in now && now[b] == owner[b])
    && (forall b :: 0 <= b < |d| && b in owner && owner[b].slot != NDIRECT ==> e[b] == d[b])
    && (forall b :: 0 <= b < |d| && b in now && b !in owner && now[b].slot != NDIRECT ==> e[b] == ZeroBlock())
  }

  lemma GrowsTransitive(d: Disk, inodes: seq<Inode>, owner: map<int, Owner>,
                        e: Disk, mid: seq<Inode>, half: map<int, Owner>,
                        f: Disk, after: seq<Inode>, now: map<int, Owner>)
    requires Grows(d, inodes, owner, e, mid, half) && Grows(e, mid, half, f, after, now)
    ensures Grows(d, inodes, owner, f, after, now)
  {
  }

  /** balloc, then storing the block in slot k of inode i. */
  lemma NewAddrGrows(sb: Super, d: Disk, inodes: seq<Inode>, owner: map<int, Owner>, i: nat, k: nat, r: nat)
    requires Owned(sb, d, inodes, owner, {}) && i < |inodes| && k <= NDIRECT && inodes[i].addrs[k] == 0
    requires r < sb.size && !Used(sb, d, r)
    requires Owned(sb, MarkUsed(sb, d, r)[r := ZeroBlock()], inodes, owner, {r})
    ensures var e := MarkUsed(sb, d, r)[r := ZeroBlock()];
            var after := inodes[i := inodes[i].(addrs := inodes[i].addrs[k := r])];
            && Owned(sb, e, after, owner[r := Owner(i, k)], {})
            && Grows(d, inodes, owner, e, after, owner[r := Owner(i, k)])
            && OnlySlot(d, inodes, e, after, i, k)
  {
    var e := MarkUsed(sb, d, r)[r := ZeroBlock()];
    MarkUsedKeeps(sb, d, inodes, owner, {}, r);
    BallocRefs(sb, d, inodes, owner, r);
    AssignAddrKeeps(sb, e, inodes, owner, {r}, i, k, r);
    assert {r} - {r} == {};
  }

  lemma AllShaped(sb: Super, d: Disk, inodes: seq<Inode>, owner: map<int, Owner>)
    requires Owned(sb, d, inodes, owner, {})
    ensures Shaped(inodes) && |d| == sb.size && forall b :: 0 <= b < sb.size ==> BitmapBlock(sb, b) < |d|
    ensures (forall b :: b in owner ==> sb.dataStart <= b < sb.size) && (sb.size > 0 ==> sb.dataStart > 0)
  {
    if sb.size > 0 { assert BitmapBlock(sb, 0) < sb.dataStart; }
  }

  /** balloc leaves every slot and every owned block alone. */
  lemma BallocRefs(sb: Super, d: Disk, inodes: seq<Inode>, owner: map<int, Owner>, r: nat)
    requires Owned(sb, d, inodes, owner, {}) && r < sb.size && !Used(sb, d, r)
    ensures var e := MarkUsed(sb, d, r)[r := ZeroBlock()];
            && (forall i, k :: 0 <= i < |inodes| && 0 <= k < NSLOT ==> Ref(e, inodes[i], k) == Ref(d, inodes[i], k))
            && (forall c :: sb.dataStart <= c < sb.size && c != r ==> e[c] == d[c])
  {
    MarkUsedKeeps(sb, d, inodes, owner, {}, r);
    BitmapWriteKeepsRefs(sb, d, inodes, owner, {}, r, SetBit(d[BitmapBlock(sb, r)][r % BPB / 8], r % BPB % 8));
    DataWriteKeeps(sb, MarkUsed(sb, d, r), inodes, owner, {} + {r}, r, ZeroBlock());
  }

  /** No slot but k of inode i may differ. */
  ghost predicate OnlySlot(d: Disk, inodes: seq<Inode>, e: Disk, after: seq<Inode>, i: nat, k: nat) {
    && |after| == |inodes|
    && forall j, l :: 0 <= j < |inodes| && 0 <= l < NSLOT && (j != i || l != k) ==>
        Ref(e, after[j], l) == Ref(d, inodes[j], l)
  }

  /** balloc, then storing the block in entry k-13 of the indirect block of inode i. */
  lemma NewEntryGrows(sb: Super, d: Disk, inodes: seq<Inode>, owner: map<int, Owner>, i: nat, k: nat, r: nat)
    requires Owned(sb, d, inodes, owner, {}) && i < |inodes| && 13 <= k < NSLOT
    requires inodes[i].addrs[NDIRECT] != 0 && Ref(d, inodes[i], k) == 0
    requires r < sb.size && !Used(sb, d, r)
    requires Owned(sb, MarkUsed(sb, d, r)[r := ZeroBlock()], inodes, owner, {r})
    ensures var e := MarkUsed(sb, d, r)[r := ZeroBlock()]; var a := inodes[i].addrs[NDIRECT];
            && sb.dataStart <= a < sb.size && e[a] == d[a]
            && var f := e[a := PutWord(e[a], k - 13, r)];
            && Owned(sb, f, inodes, owner[r := Owner(i, k)], {})
            && Grows(d, inodes, owner, f, inodes, owner[r := Owner(i, k)])
            && OnlySlot(d, inodes, f, inodes, i, k) && Ref(f, inodes[i], k) == r
  {
    hide Owned, Grows, Used;
    AllShaped(sb, d, inodes, owner);
    var e := MarkUsed(sb, d, r)[r := ZeroBlock()];
    MarkUsedKeeps(sb, d, inodes, owner, {}, r);
    BallocRefs(sb, d, inodes, owner, r);
    IndirectOwner(sb, d, inodes, owner, {}, i);
    AssignEntryKeeps(sb, e, inodes, owner, {r}, i, k, r);
    assert {r} - {r} == {};
    var a := inodes[i].addrs[NDIRECT];
    EntryGrows(sb, d, inodes, owner, i, k, r, e, e[a := PutWord(e[a], k - 13, r)]);
  }

  lemma EntryGrows(sb: Super, d: Disk, inodes: seq<Inode>, owner: map<int, Owner>, i: nat, k: nat, r: nat, e: Disk,
                   f: Disk)
    requires |e| == |f| == |d| == sb.size && i < |inodes| && 13 <= k < NSLOT && r !in owner && r < sb.size
    requires e[r] == ZeroBlock()
    requires |inodes[i].addrs| == NDIRECT + 1 && inodes[i].addrs[NDIRECT] in owner
    requires owner[inodes[i].addrs[NDIRECT]].slot == NDIRECT
    requires forall c :: c in owner ==> sb.dataStart <= c < sb.size
    requires forall c :: sb.dataStart <= c < sb.size && c != r ==> e[c] == d[c]
    requires forall c :: 0 <= c < sb.size && c != inodes[i].addrs[NDIRECT] ==> f[c] == e[c]
    requires OnlySlot(d, inodes, f, inodes, i, k) && Ref(d, inodes[i], k) == 0
    ensures Grows(d, inodes, owner, f, inodes, owner[r := Owner(i, k)])
  {
  }

  /** From disk d to e, with logged growing from l to m, every block that changed was passed to log_write. */
  ghost predicate ChangesLogged(d: Disk, l: set<int>, e: Disk, m: set<int>) {
    |e| == |d| && l <= m && forall b :: 0 <= b < |d| && e[b] != d[b] ==> b in m
  }

  lemma NothingChanged(d: Disk, l: set<int>)
    ensures ChangesLogged(d, l, d, l)
  {
  }

  lemma LoggedAgain(d: Disk, l: set<int>, e: Disk, m: set<int>, f: Disk, n: set<int>)
    requires ChangesLogged(d, l, e, m) && ChangesLogged(e, m, f, n)
    ensures ChangesLogged(d, l, f, n)
  {
    forall b | 0 <= b < |d| && f[b] != d[b] ensures b in n {
      if e[b] != d[b] { assert b in m; }
    }
  }

  lemma LoggedMore(d: Disk, l: set<int>, e: Disk, m: set<int>, more: set<int>)
    requires ChangesLogged(d, l, e, m)
    ensures ChangesLogged(d, l, e, m + more)
  {
  }

  class FileSys {
    const sb: Super
    var disk: Disk
    var inodes: seq<Inode>
    /** Blocks passed to log_write since the operation began. */
    var logged: set<int>
    ghost var owner: map<int, Owner>

    ghost function Snap(): Fs
      reads this
    {
      Fs(disk, inodes, owner, logged)
    }

    /** An image as it is found. */
    constructor Mount(sb: Super, disk: Disk, inodes: seq<Inode>, ghost owner: map<int, Owner>)
      ensures this.sb == sb && Snap() == Fs(disk, inodes, owner, {})
    {
      this.sb, this.disk, this.inodes, this.owner, this.logged := sb, disk, inodes, owner, {};
    }

    /** The image that mkfs makes, without files: its balloc sets the bits of the blocks before the data, which fit one
        bitmap block. */
    constructor Mkfs(sb: Super, ninodes: nat)
      requires 1 <= sb.inodestart <= sb.bmapstart && sb.dataStart == sb.bmapstart + 1 <= sb.size <= BPB
      ensures this.sb == sb && Good(sb, Snap()) && logged == {} && owner == map[]
      ensures |inodes| == ninodes && forall i :: 0 <= i < ninodes ==> inodes[i] == Inode(0, NoAddrs())
    {
      var buf := ZeroBlock();
      var i := 0;
      ZeroBits();
      while i < sb.dataStart
        invariant i <= sb.dataStart && forall j :: 0 <= j < BPB ==> (Bit(buf[j / 8], j % 8) <==> j < i)
      {
        buf := buf[i / 8 := SetBit(buf[i / 8], i % 8)];
        BitPlaces(i);
        i := i + 1;
      }
      this.sb := sb;
      disk := seq(sb.size, _ => ZeroBlock())[sb.bmapstart := buf];
      inodes := seq(ninodes, _ => Inode(0, NoAddrs()));
      logged, owner := {}, map[];
      new;
      MkfsGood(sb, disk, inodes, buf);
    }

    /** log_write of block b with new contents x. */
    method LogWrite(b: int, x: Block)
      requires 0 <= b < |disk|
      modifies `disk, `logged
      ensures disk == old(disk)[b := x] && logged == old(logged) + {b}
      ensures ChangesLogged(old(disk), old(logged), disk, logged)
    {
      disk := disk[b := x];
      logged := logged + {b};
    }

    /** balloc's lines for a free block r: mark it in its bitmap block, which becomes x, and zero it. */
    method Claim(r: nat, x: Block)
      requires Good(sb, Snap()) && r < sb.size && BitmapBlock(sb, r) < |disk| && !Used(sb, disk, r)
      requires disk[BitmapBlock(sb, r) := x] == MarkUsed(sb, disk, r)
      modifies `disk, `logged
      ensures 0 < sb.dataStart <= r && r !in owner && disk == MarkUsed(sb, old(disk), r)[r := ZeroBlock()]
      ensures logged == old(logged) + {BitmapBlock(sb, r), r} && Owned(sb, disk, inodes, owner, {r})
      ensures ChangesLogged(old(disk), old(logged), disk, logged)
    {
      hide ChangesLogged, Owned, Used, MarkUsed;
      AllShaped(sb, disk, inodes, owner);
      MarkUsedKeeps(sb, disk, inodes, owner, {}, r);
      LogWrite(BitmapBlock(sb, r), x);
      DataWriteKeeps(sb, disk, inodes, owner, {} + {r}, r, ZeroBlock());
      ghost var d, l := disk, logged;
      LogWrite(r, ZeroBlock());
      LoggedAgain(old(disk), old(logged), d, l, disk, logged);
      assert {} + {r} == {r};
    }

    /** balloc: the lowest free block, marked and zeroed; 0 when every bit is set. */
    method Balloc() returns (r: int)
      requires Good(sb, Snap())
      modifies `disk, `logged
      ensures r == 0 ==> disk == old(disk) && logged == old(logged)
      ensures r == 0 ==> forall b :: 0 <= b < sb.size ==> Used(sb, disk, b)
      ensures r != 0 ==>
                && sb.dataStart <= r < sb.size && r !in owner
                && !Used(sb, old(disk), r) && (forall b :: 0 <= b < r ==> Used(sb, old(disk), b))
                && disk == MarkUsed(sb, old(disk), r)[r := ZeroBlock()]
                && logged == old(logged) + {BitmapBlock(sb, r), r}
                && Owned(sb, disk, inodes, owner, {r})
      ensures ChangesLogged(old(disk), old(logged), disk, logged)
    {
      hide ChangesLogged, Owned;
      NothingChanged(disk, logged);
      AllShaped(sb, disk, inodes, owner);
      var b := 0;
      while b < sb.size
        invariant 0 <= b && b % BPB == 0 && disk == old(disk) && logged == old(logged)
        invariant forall c :: 0 <= c < b && c < sb.size ==> Used(sb, disk, c)
      {
        var bp := disk[BitmapBlock(sb, b)];
        var bi := 0;
        while bi < BPB && b + bi < sb.size
          invariant 0 <= bi <= BPB && disk == old(disk) && logged == old(logged)
          invariant forall c :: 0 <= c < b + bi && c < sb.size ==> Used(sb, disk, c)
        {
          SameBitmapBlock(sb, b, bi);
          if !Bit(bp[bi / 8], bi % 8) {
            r := b + bi;
            Claim(r, bp[bi / 8 := SetBit(bp[bi / 8], bi % 8)]);
            return;
          }
          bi := bi + 1;
        }
        b := b + BPB;
      }
      r := 0;
    }

    /** bfree: false is the panic "freeing free block". */
    method Bfree(b: nat) returns (ok: bool)
      requires BitmapBlock(sb, b) < |disk|
      modifies `disk, `logged
      ensures ok <==> Used(sb, old(disk), b)
      ensures ok ==> disk == MarkFree(sb, old(disk), b) && logged == old(logged) + {BitmapBlock(sb, b)}
      ensures !ok ==> disk == old(disk) && logged == old(logged)
      ensures ChangesLogged(old(disk), old(logged), disk, logged)
    {
      hide ChangesLogged;
      NothingChanged(disk, logged);
      var bp := disk[BitmapBlock(sb, b)];
      var bi := b % BPB;
      if !Bit(bp[bi / 8], bi % 8) { return false; }
      LogWrite(BitmapBlock(sb, b), bp[bi / 8 := ClearBit(bp[bi / 8], bi % 8)]);
      return true;
    }

    /** The pattern of bmap's lines on ip->addrs[k]: use the address, or allocate one. */
    method AddrOrAlloc(i: nat, k: nat) returns (addr: int)
      requires Good(sb, Snap()) && i < |inodes| && k <= NDIRECT
      modifies `disk, `logged, `inodes, `owner
      ensures Good(sb, Snap()) && |inodes| == |old(inodes)|
      ensures SlotFilled(sb, old(Snap()), Snap(), i, k, {}) && addr == Ref(disk, inodes[i], k)
      ensures ChangesLogged(old(disk), old(logged), disk, logged)
    {
      hide ChangesLogged;
      NothingChanged(disk, logged);
      addr := inodes[i].addrs[k];
      if addr == 0 {
        addr := Balloc();
        if addr == 0 { return; }
        NewAddrGrows(sb, old(disk), inodes, owner, i, k, addr);
        inodes := inodes[i := inodes[i].(addrs := inodes[i].addrs[k := addr])];
        owner := owner[addr := Owner(i, k)];
      }
    }

    /** bmap's second half: the entry of the indirect block, allocated if need be. */
    method EntryOrAlloc(i: nat, k: nat) returns (addr: int)
      requires Good(sb, Snap()) && i < |inodes| && 13 <= k < NSLOT && inodes[i].addrs[NDIRECT] != 0
      modifies `disk, `logged, `owner
      ensures Good(sb, Snap()) && SlotFilled(sb, old(Snap()), Snap(), i, k, {inodes[i].addrs[NDIRECT]})
      ensures addr == Ref(disk, inodes[i], k)
      ensures ChangesLogged(old(disk), old(logged), disk, logged)
    {
      hide ChangesLogged, SlotFilled, Owned, MarkUsed, Used;
      NothingChanged(disk, logged);
      AllShaped(sb, disk, inodes, owner);
      IndirectOwner(sb, disk, inodes, owner, {}, i);
      var a := inodes[i].addrs[NDIRECT];
      var bp := disk[a];
      addr := Word(bp, k - 13);
      if addr == 0 {
        addr := Balloc();
        if addr != 0 {
          EntryFilled(sb, old(Snap()), i, k, addr);
          ghost var d, l := disk, logged;
          LogWrite(a, PutWord(bp, k - 13, addr));
          LoggedAgain(old(disk), old(logged), d, l, disk, logged);
          owner := owner[addr := Owner(i, k)];
        } else {
          NothingFilled(sb, Snap(), i, k, {a});
        }
      } else {
        NothingFilled(sb, Snap(), i, k, {a});
      }
    }

    /** itrunc's loop body for a direct slot. */
    method FreeSlot(i: nat, k: nat)
      requires Good(sb, Snap()) && i < |inodes| && k < NDIRECT
      modifies `disk, `logged, `inodes, `owner
      ensures Good(sb, Snap()) && SameData(sb, old(disk), disk) && LostOnly(old(owner), owner, i)
      ensures inodes == old(inodes)[i := old(inodes)[i].(addrs := old(inodes)[i].addrs[k := 0])]
      ensures ChangesLogged(old(disk), old(logged), disk, logged)
    {
      hide ChangesLogged;
      NothingChanged(disk, logged);
      if inodes[i].addrs[k] != 0 {
        FreeDirect(sb, disk, inodes, owner, i, k);
        var b := inodes[i].addrs[k];
        var ok := Bfree(b);
        assert ok;
        inodes := inodes[i := inodes[i].(addrs := inodes[i].addrs[k := 0])];
        owner := owner - {b};
      } else {
        assert inodes[i].addrs[k := 0] == inodes[i].addrs;
      }
    }

    /** One round of itrunc's loop over the entries of the indirect block. */
    method FreeOneEntry(i: nat, bp: Block, j: nat)
      requires i < |inodes| && j < NINDIRECT && Shaped(inodes)
      requires 0 < inodes[i].addrs[NDIRECT] < |disk| && disk[inodes[i].addrs[NDIRECT]] == bp
      requires Releasing(sb, disk, inodes, owner, Entries(bp, j))
      modifies `disk, `logged
      ensures SameData(sb, old(disk), disk) && Releasing(sb, disk, inodes, owner, Entries(bp, j + 1))
      ensures ChangesLogged(old(disk), old(logged), disk, logged)
    {
      hide ChangesLogged, Releasing, Entries;
      NothingChanged(disk, logged);
      if Word(bp, j) != 0 {
        FreeEntry(sb, disk, inodes, owner, i, j);
        var ok := Bfree(Word(bp, j));
        assert ok;
      } else {
        NoEntry(bp, j);
      }
    }

    /** itrunc's loop over the entries of the indirect block. */
    method FreeEntries(i: nat)
      requires Good(sb, Snap()) && i < |inodes| && 0 < inodes[i].addrs[NDIRECT] < |disk|
      modifies `disk, `logged
      ensures SameData(sb, old(disk), disk) && disk[inodes[i].addrs[NDIRECT]] == old(disk)[inodes[i].addrs[NDIRECT]]
      ensures Releasing(sb, disk, inodes, owner, Entries(disk[inodes[i].addrs[NDIRECT]], NINDIRECT))
      ensures ChangesLogged(old(disk), old(logged), disk, logged)
    {
      hide ChangesLogged, Owned, Releasing, Entries;
      NothingChanged(disk, logged);
      StartReleasing(sb, disk, inodes, owner);
      assert Shaped(inodes) && sb.dataStart <= inodes[i].addrs[NDIRECT] by {
        IndirectOwner(sb, disk, inodes, owner, {}, i);
        AllShaped(sb, disk, inodes, owner);
      }
      var bp := disk[inodes[i].addrs[NDIRECT]];
      var j := 0;
      NoEntries(bp);
      while j < NINDIRECT
        invariant 0 <= j <= NINDIRECT
        invariant SameData(sb, old(disk), disk) && disk[inodes[i].addrs[NDIRECT]] == bp
        invariant Releasing(sb, disk, inodes, owner, Entries(bp, j))
        invariant ChangesLogged(old(disk), old(logged), disk, logged)
      {
        ghost var d, l := disk, logged;
        FreeOneEntry(i, bp, j);
        LoggedAgain(old(disk), old(logged), d, l, disk, logged);
        j := j + 1;
      }
    }

    /** itrunc's part for the indirect block. */
    method FreeIndirectPart(i: nat)
      requires Good(sb, Snap()) && i < |inodes|
      modifies `disk, `logged, `inodes, `owner
      ensures Good(sb, Snap()) && SameData(sb, old(disk), disk) && LostOnly(old(owner), owner, i)
      ensures inodes == old(inodes)[i := old(inodes)[i].(addrs := old(inodes)[i].addrs[NDIRECT := 0])]
      ensures ChangesLogged(old(disk), old(logged), disk, logged)
    {
      hide ChangesLogged, Owned, Releasing, Entries, MarkFree;
      NothingChanged(disk, logged);
      AllShaped(sb, disk, inodes, owner);
      if inodes[i].addrs[NDIRECT] == 0 {
        assert inodes[i].addrs[NDIRECT := 0] == inodes[i].addrs;
        return;
      }
      IndirectOwner(sb, disk, inodes, owner, {}, i);
      var a := inodes[i].addrs[NDIRECT];
      FreeEntries(i);
      ghost var gone := Entries(disk[a], NINDIRECT) + {a};
      FreeIndirect(sb, disk, inodes, owner, i);
      ghost var d, l := disk, logged;
      var ok := Bfree(a);
      assert ok;
      LoggedAgain(old(disk), old(logged), d, l, disk, logged);
      inodes := inodes[i := inodes[i].(addrs := inodes[i].addrs[NDIRECT := 0])];
      owner := owner - gone;
    }

    /** itrunc's loop over the direct slots. */
    method FreeDirectPart(i: nat)
      requires Good(sb, Snap()) && i < |inodes|
      modifies `disk, `logged, `inodes, `owner
      ensures Good(sb, Snap()) && SameData(sb, old(disk), disk) && LostOnly(old(owner), owner, i)
      ensures inodes == old(inodes)[i := old(inodes)[i].(addrs := Cleared(old(inodes)[i].addrs, NDIRECT))]
      ensures ChangesLogged(old(disk), old(logged), disk, logged)
    {
      hide Good, ChangesLogged, Cleared;
      NothingChanged(disk, logged);
      GoodShape(sb, Snap(), i);
      var k := 0;
      NoneCleared(inodes[i].addrs);
      while k < NDIRECT
        invariant 0 <= k <= NDIRECT && Good(sb, Snap()) && SameData(sb, old(disk), disk)
        invariant LostOnly(old(owner), owner, i)
        invariant inodes == old(inodes)[i := old(inodes)[i].(addrs := Cleared(old(inodes)[i].addrs, k))]
        invariant ChangesLogged(old(disk), old(logged), disk, logged)
      {
        ghost var d, l := disk, logged;
        FreeSlot(i, k);
        LoggedAgain(old(disk), old(logged), d, l, disk, logged);
        OneMoreCleared(old(inodes)[i].addrs, k);
        k := k + 1;
      }
    }

    /** itrunc: every block of inode i and of no other inode is freed; bfree's panic does not happen; every block it
        changes is logged. */
    method Itrunc(i: nat)
      requires Good(sb, Snap()) && i < |inodes|
      modifies `disk, `logged, `inodes, `owner
      ensures Good(sb, Snap()) && SameData(sb, old(disk), disk)
      ensures inodes == old(inodes)[i := Inode(0, NoAddrs())]
      ensures LostOnly(old(owner), owner, i) && forall b :: b in owner ==> owner[b].inode != i
      ensures ChangesLogged(old(disk), old(logged), disk, logged) && InodeBlock(sb, i) in logged
    {
      hide ChangesLogged, Owned, Cleared;
      GoodShape(sb, Snap(), i);
      FreeDirectPart(i);
      ghost var d, l := disk, logged;
      FreeIndirectPart(i);
      LoggedAgain(old(disk), old(logged), d, l, disk, logged);
      LoggedMore(old(disk), old(logged), disk, logged, {InodeBlock(sb, i)});
      AllCleared(old(inodes)[i].addrs);
      SizeKeeps(sb, disk, inodes, owner, i, 0);
      inodes := inodes[i := inodes[i].(size := 0)];
      Iupdate(i);
      EmptyOwnsNothing(sb, disk, inodes, owner, i);
    }

    /** iupdate: the inode's block is logged. */
    method Iupdate(i: nat)
      modifies `logged
      ensures logged == old(logged) + {InodeBlock(sb, i)}
    {
      logged := logged + {InodeBlock(sb, i)};
    }

    /** bmap for a block beyond the direct ones. */
    method BmapIndirect(i: nat, bn: nat) returns (addr: int)
      requires Good(sb, Snap()) && i < |inodes| && NDIRECT <= bn < MAXFILE
      modifies `disk, `logged, `inodes, `owner
      ensures Good(sb, Snap()) && BlockMapped(sb, old(Snap()), Snap(), i, bn) && addr == FileBlock(disk, inodes[i], bn)
      ensures ChangesLogged(old(disk), old(logged), disk, logged)
    {
      hide Good, SlotFilled, BlockMapped, ChangesLogged;
      ghost var s := Snap();
      var a := AddrOrAlloc(i, NDIRECT);
      ghost var m := Snap();
      GoodShape(sb, m, i);
      if a == 0 {
        IndirectFull(sb, s, m, i, bn);
        return 0;
      }
      addr := EntryOrAlloc(i, bn + 1);
      LoggedAgain(old(disk), old(logged), m.disk, m.logged, disk, logged);
      IndirectMapped(sb, s, m, Snap(), i, bn);
    }

    /** bmap: the disk block of file block bn, allocated if there was none; 0 when the disk is full. The range
        panic is the caller's obligation. */
    method Bmap(i: nat, bn: nat) returns (addr: int)
      requires Good(sb, Snap()) && i < |inodes| && bn < MAXFILE
      modifies `disk, `logged, `inodes, `owner
      ensures Good(sb, Snap()) && BlockMapped(sb, old(Snap()), Snap(), i, bn) && addr == FileBlock(disk, inodes[i], bn)
      ensures ChangesLogged(old(disk), old(logged), disk, logged)
    {
      hide Good, SlotFilled, BlockMapped, ChangesLogged;
      if bn < NDIRECT {
        addr := AddrOrAlloc(i, bn);
        DirectMapped(sb, old(Snap()), Snap(), i, bn);
      } else {
        addr := BmapIndirect(i, bn);
      }
    }
  }

  lemma ZeroBits()
    ensures forall j :: 0 <= j < BPB ==> !Bit(ZeroBlock()[j / 8], j % 8)
  {
    forall j | 0 <= j < BPB ensures !Bit(ZeroBlock()[j / 8], j % 8) { NoBits(j % 8); }
  }

  lemma {:induction false} NoBits(k: nat)
    ensures !Bit(0, k)
  {
    if k > 0 { NoBits(k - 1); }
  }

  /** Bit i % 8 of byte i / 8 belongs to i alone. */
  lemma BitPlaces(i: nat)
    ensures forall j: nat :: j / 8 == i / 8 && j % 8 == i % 8 ==> j == i
  {
  }

  lemma MkfsGood(sb: Super, d: Disk, inodes: seq<Inode>, buf: Block)
    requires 1 <= sb.inodestart <= sb.bmapstart && sb.dataStart == sb.bmapstart + 1 <= sb.size <= BPB
    requires |d| == sb.size && d[sb.bmapstart] == buf
    requires forall j :: 0 <= j < BPB ==> (Bit(buf[j / 8], j % 8) <==> j < sb.dataStart)
    requires forall i :: 0 <= i < |inodes| ==> inodes[i] == Inode(0, NoAddrs())
    ensures Owned(sb, d, inodes, map[], {})
  {
    forall b | 0 <= b < sb.size
      ensures BitmapBlock(sb, b) == sb.bmapstart && (Used(sb, d, b) <==> b < sb.dataStart)
    {
      assert b % BPB == b && b / BPB == 0;
    }
    forall i, k | 0 <= i < |inodes| && 0 <= k < NSLOT ensures Ref(d, inodes[i], k) == 0 { }
  }

  /** IBLOCK, with IPB = BSIZE / sizeof(struct dinode) = 16. */
  function InodeBlock(sb: Super, i: nat): int {
    i / 16 + sb.inodestart
  }

  function NoAddrs(): (r: seq<int>)
    ensures |r| == NDIRECT + 1
  {
    seq(NDIRECT + 1, _ => 0)
  }

  /** ip->size has no part in ownership. */
  lemma SizeKeeps(sb: Super, d: Disk, inodes: seq<Inode>, owner: map<int, Owner>, i: nat, size: nat)
    requires Owned(sb, d, inodes, owner, {}) && i < |inodes|
    ensures Owned(sb, d, inodes[i := inodes[i].(size := size)], owner, {})
  {
    var after := inodes[i := inodes[i].(size := size)];
    assert forall j, k :: 0 <= j < |inodes| && 0 <= k < NSLOT ==> Ref(d, after[j], k) == Ref(d, inodes[j], k);
  }

  // ----- truncation -----

  /** `now` lost only blocks of inode i. */
  ghost predicate LostOnly(owner: map<int, Owner>, now: map<int, Owner>, i: nat) {
    && (forall b :: b in now ==> b in owner && now[b] == owner[b])
    && (forall b :: b in owner && owner[b].inode != i ==> b in now)
  }

  /** An inode without blocks owns nothing. */
  lemma EmptyOwnsNothing(sb: Super, d: Disk, inodes: seq<Inode>, owner: map<int, Owner>, i: nat)
    requires Owned(sb, d, inodes, owner, {}) && i < |inodes|
    requires forall k :: 0 <= k <= NDIRECT ==> inodes[i].addrs[k] == 0
    ensures forall b :: b in owner ==> owner[b].inode != i
  {
    assert forall k :: 0 <= k < NSLOT ==> Ref(d, inodes[i], k) == 0;
  }

  /** Only bitmap blocks differ. */
  ghost predicate SameData(sb: Super, d: Disk, e: Disk) {
    |d| == |e| && forall c :: sb.dataStart <= c < |d| ==> e[c] == d[c]
  }

  lemma StartReleasing(sb: Super, d: Disk, inodes: seq<Inode>, owner: map<int, Owner>)
    requires Owned(sb, d, inodes, owner, {})
    ensures Releasing(sb, d, inodes, owner, {})
  {
  }

  lemma SlotCleared(sb: Super, e: Disk, inodes: seq<Inode>, owner: map<int, Owner>, gone: set<int>, i: nat, k: nat,
                    j: nat, l: nat)
    requires Releasing(sb, e, inodes, owner, gone) && i < |inodes| && k < NDIRECT && inodes[i].addrs[k] != 0
    requires j < |inodes| && l < NSLOT
    ensures var after := inodes[i := inodes[i].(addrs := inodes[i].addrs[k := 0])];
            Ref(e, after[j], l) == if Ref(e, inodes[j], l) == inodes[i].addrs[k] then 0 else Ref(e, inodes[j], l)
  {
    assert Ref(e, inodes[i], k) == inodes[i].addrs[k];
  }

  /** bfree of a direct block, then clearing its slot. */
  lemma FreeDirect(sb: Super, d: Disk, inodes: seq<Inode>, owner: map<int, Owner>, i: nat, k: nat)
    requires Owned(sb, d, inodes, owner, {}) && i < |inodes| && k < NDIRECT && inodes[i].addrs[k] != 0
    ensures var b := inodes[i].addrs[k];
            && b >= 0 && BitmapBlock(sb, b) < |d| && Used(sb, d, b)
            && SameData(sb, d, MarkFree(sb, d, b)) && b in owner && owner[b] == Owner(i, k)
            && Owned(sb, MarkFree(sb, d, b), inodes[i := inodes[i].(addrs := inodes[i].addrs[k := 0])], owner - {b}, {})
  {
    var b := inodes[i].addrs[k];
    assert Ref(d, inodes[i], k) == b;
    StartReleasing(sb, d, inodes, owner);
    MarkFreeKeeps(sb, d, inodes, owner, {}, b);
    var e := MarkFree(sb, d, b);
    var after := inodes[i := inodes[i].(addrs := inodes[i].addrs[k := 0])];
    assert {} + {b} == {b};
    forall j, l | 0 <= j < |inodes| && 0 <= l < NSLOT
      ensures Ref(e, after[j], l) == if Ref(e, inodes[j], l) in {b} then 0 else Ref(e, inodes[j], l)
    {
      SlotCleared(sb, e, inodes, owner, {b}, i, k, j, l);
    }
    hide Ref, Used, Releasing;
    ForgetKeeps(sb, e, inodes, after, owner, {b});
  }

  /** The nonzero entries among the first j of an indirect block. */
  ghost function Entries(bp: Block, j: nat): set<int>
    requires j <= NINDIRECT
  {
    set l | 0 <= l < j && Word(bp, l) != 0 :: Word(bp, l)
  }

  /** The addresses with the first k set to 0. */
  ghost function Cleared(addrs: seq<int>, k: nat): (r: seq<int>)
    requires k <= |addrs|
    ensures |r| == |addrs|
  {
    seq(k, j => 0) + addrs[k..]
  }

  lemma NoneCleared(addrs: seq<int>)
    ensures Cleared(addrs, 0) == addrs
  {
  }

  lemma AllCleared(addrs: seq<int>)
    requires |addrs| == NDIRECT + 1
    ensures Cleared(addrs, NDIRECT)[NDIRECT := 0] == NoAddrs()
  {
  }

  lemma OneMoreCleared(addrs: seq<int>, k: nat)
    requires k < |addrs|
    ensures Cleared(addrs, k)[k := 0] == Cleared(addrs, k + 1)
  {
  }

  lemma NoEntries(bp: Block)
    ensures Entries(bp, 0) == {}
  {
  }

  lemma NoEntry(bp: Block, j: nat)
    requires j < NINDIRECT && Word(bp, j) == 0
    ensures Entries(bp, j + 1) == Entries(bp, j)
  {
  }

  lemma OneMoreEntry(bp: Block, j: nat)
    requires j < NINDIRECT && Word(bp, j) != 0
    ensures Entries(bp, j + 1) == Entries(bp, j) + {Word(bp, j)}
  {
  }

  /** The entry to be freed next is owned, and no earlier entry is the same block. */
  lemma NextEntry(sb: Super, d: Disk, inodes: seq<Inode>, owner: map<int, Owner>, gone: set<int>, i: nat, j: nat)
    requires i < |inodes| && j < NINDIRECT && Shaped(inodes) && 0 < inodes[i].addrs[NDIRECT] < |d|
    requires var bp := d[inodes[i].addrs[NDIRECT]]; Releasing(sb, d, inodes, owner, gone) && Word(bp, j) != 0
    ensures var bp := d[inodes[i].addrs[NDIRECT]]; var b := Word(bp, j);
            && b in owner && sb.dataStart <= b < sb.size && b !in Entries(bp, j)
  {
    var bp := d[inodes[i].addrs[NDIRECT]];
    assert Ref(d, inodes[i], 13 + j) == Word(bp, j);
    forall l | 0 <= l < j ensures Word(bp, l) != Word(bp, j) {
      assert Ref(d, inodes[i], 13 + l) == Word(bp, l);
    }
  }

  /** One round of itrunc's loop over the indirect block. */
  lemma FreeEntry(sb: Super, d: Disk, inodes: seq<Inode>, owner: map<int, Owner>, i: nat, j: nat)
    requires i < |inodes| && j < NINDIRECT && Shaped(inodes) && 0 < inodes[i].addrs[NDIRECT] < |d|
    requires var bp := d[inodes[i].addrs[NDIRECT]]; Releasing(sb, d, inodes, owner, Entries(bp, j)) && Word(bp, j) != 0
    ensures var bp := d[inodes[i].addrs[NDIRECT]]; var b := Word(bp, j);
            && BitmapBlock(sb, b) < |d| && Used(sb, d, b) && SameData(sb, d, MarkFree(sb, d, b))
            && Releasing(sb, MarkFree(sb, d, b), inodes, owner, Entries(bp, j + 1))
  {
    hide Ref, Entries;
    var bp := d[inodes[i].addrs[NDIRECT]];
    var b := Word(bp, j);
    NextEntry(sb, d, inodes, owner, Entries(bp, j), i, j);
    MarkFreeKeeps(sb, d, inodes, owner, Entries(bp, j), b);
    OneMoreEntry(bp, j);
  }

  /** bfree of the indirect block, then clearing its slot: all its entries disappear with it. */
  lemma FreeIndirect(sb: Super, d: Disk, inodes: seq<Inode>, owner: map<int, Owner>, i: nat)
    requires i < |inodes| && Shaped(inodes) && 0 < inodes[i].addrs[NDIRECT] < |d|
    requires Releasing(sb, d, inodes, owner, Entries(d[inodes[i].addrs[NDIRECT]], NINDIRECT))
    ensures var a := inodes[i].addrs[NDIRECT]; var gone := Entries(d[a], NINDIRECT) + {a};
            && BitmapBlock(sb, a) < |d| && Used(sb, d, a) && SameData(sb, d, MarkFree(sb, d, a))
            && (forall b :: b in gone ==> b in owner && owner[b].inode == i)
            && Owned(sb, MarkFree(sb, d, a), inodes[i := inodes[i].(addrs := inodes[i].addrs[NDIRECT := 0])],
                     owner - gone, {})
  {
    var a := inodes[i].addrs[NDIRECT];
    var bp := d[a];
    assert Ref(d, inodes[i], NDIRECT) == a;
    assert forall l :: 0 <= l < NINDIRECT ==> Ref(d, inodes[i], 13 + l) == Word(bp, l);
    forall b | b in Entries(bp, NINDIRECT) ensures b in owner && owner[b].inode == i && owner[b].slot >= 13 {
      var l :| 0 <= l < NINDIRECT && Word(bp, l) == b;
      assert Ref(d, inodes[i], 13 + l) == b;
    }
    MarkFreeKeeps(sb, d, inodes, owner, Entries(bp, NINDIRECT), a);
    ForgetIndirect(sb, MarkFree(sb, d, a), inodes, owner, i, Entries(bp, NINDIRECT) + {a});
  }

  lemma ForgetIndirect(sb: Super, d: Disk, inodes: seq<Inode>, owner: map<int, Owner>, i: nat, gone: set<int>)
    requires i < |inodes| && Shaped(inodes) && 0 < inodes[i].addrs[NDIRECT] < |d|
    requires Releasing(sb, d, inodes, owner, gone)
    requires gone == Entries(d[inodes[i].addrs[NDIRECT]], NINDIRECT) + {inodes[i].addrs[NDIRECT]}
    ensures Owned(sb, d, inodes[i := inodes[i].(addrs := inodes[i].addrs[NDIRECT := 0])], owner - gone, {})
  {
    var a := inodes[i].addrs[NDIRECT];
    var after := inodes[i := inodes[i].(addrs := inodes[i].addrs[NDIRECT := 0])];
    assert forall l :: 13 <= l < NSLOT ==> Ref(d, inodes[i], l) == Word(d[a], l - 13);
    forall j, l | 0 <= j < |inodes| && 0 <= l < NSLOT
      ensures Ref(d, after[j], l) == if Ref(d, inodes[j], l) in gone then 0 else Ref(d, inodes[j], l)
    {
      var b := Ref(d, inodes[j], l);
      if b in gone { GoneIsMine(sb, d, inodes, owner, i, gone, j, l); }
    }
    ForgetKeeps(sb, d, inodes, after, owner, gone);
  }

  lemma GoneIsMine(sb: Super, d: Disk, inodes: seq<Inode>, owner: map<int, Owner>, i: nat, gone: set<int>, j: nat,
                   l: nat)
    requires i < |inodes| && j < |inodes| && l < NSLOT && Shaped(inodes) && 0 < inodes[i].addrs[NDIRECT] < |d|
    requires Releasing(sb, d, inodes, owner, gone)
    requires gone == Entries(d[inodes[i].addrs[NDIRECT]], NINDIRECT) + {inodes[i].addrs[NDIRECT]}
    requires Ref(d, inodes[j], l) in gone
    ensures j == i && l >= NDIRECT
  {
    var a, b := inodes[i].addrs[NDIRECT], Ref(d, inodes[j], l);
    assert Ref(d, inodes[i], NDIRECT) == a;
    if b != a {
      var m :| 0 <= m < NINDIRECT && Word(d[a], m) == b && b != 0;
      assert Ref(d, inodes[i], 13 + m) == b;
    }
  }

  ghost predicate Full(sb: Super, d: Disk) {
    forall b :: 0 <= b < sb.size ==> BitmapBlock(sb, b) < |d| && Used(sb, d, b)
  }

  /** Slot k of inode i was filled if it was empty and the disk was not full; nothing else moved. `also` is what
      filling it logs besides the block and its bitmap block. */
  ghost predicate SlotFilled(sb: Super, s: Fs, t: Fs, i: nat, k: nat, also: set<int>)
    requires i < |s.inodes| && k < NSLOT
  {
    match t
    case Fs(disk, inodes, owner, logged) =>
      && Grows(s.disk, s.inodes, s.owner, disk, inodes, owner)
      && OnlySlot(s.disk, s.inodes, disk, inodes, i, k)
      && var was, addr := Ref(s.disk, s.inodes[i], k), Ref(disk, inodes[i], k);
      && addr >= 0
      && (was != 0 || addr == 0 ==> t == s)
      && (addr == 0 ==> Full(sb, disk))
      && (was == 0 && addr > 0 ==> logged == s.logged + {BitmapBlock(sb, addr), addr} + also)
  }

  /** What bmap does: at most the slot of block bn and the indirect slot get filled. */
  ghost predicate BlockMapped(sb: Super, s: Fs, t: Fs, i: nat, bn: nat)
    requires i < |s.inodes| && bn < MAXFILE
  {
    match t
    case Fs(disk, inodes, owner, logged) =>
      && Grows(s.disk, s.inodes, s.owner, disk, inodes, owner)
      && (forall j, l ::
            0 <= j < |s.inodes| && 0 <= l < NSLOT && (j != i || (l != SlotOf(bn) && !(l == NDIRECT <= bn))) ==>
              Ref(disk, inodes[j], l) == Ref(s.disk, s.inodes[j], l))
      && var was, addr := FileBlock(s.disk, s.inodes[i], bn), FileBlock(disk, inodes[i], bn);
      && addr >= 0
      && (was != 0 ==> t == s)
      && (addr == 0 ==> Full(sb, disk))
      && logged == s.logged +
           BmapLogs(sb, Ref(s.disk, s.inodes[i], NDIRECT), Ref(disk, inodes[i], NDIRECT), bn, was, addr)
  }

  /** The blocks bmap passes to log_write when file block bn was `was` and is now `addr`, and the indirect block
      was `ind` and is now `a`. */
  ghost function BmapLogs(sb: Super, ind: int, a: int, bn: nat, was: int, addr: int): set<int> {
    if was != 0 then {}
    else
      (if bn >= NDIRECT && ind == 0 && a > 0 then {BitmapBlock(sb, a), a} else {})
      + (if addr > 0 then {BitmapBlock(sb, addr), addr} else {})
      + (if addr > 0 && bn >= NDIRECT then {a} else {})
  }

  lemma NothingFilled(sb: Super, s: Fs, i: nat, k: nat, also: set<int>)
    requires i < |s.inodes| && k < NSLOT && Owned(sb, s.disk, s.inodes, s.owner, {})
    requires Ref(s.disk, s.inodes[i], k) != 0 || Full(sb, s.disk)
    ensures SlotFilled(sb, s, s, i, k, also)
  {
  }

  /** The state after an entry of the indirect block has been filled with block r. */
  function FillEntry(sb: Super, s: Fs, i: nat, k: nat, r: nat): (t: Fs)
    requires i < |s.inodes| && 13 <= k < NSLOT && |s.inodes[i].addrs| == NDIRECT + 1 && IsWord(r)
    requires 0 < s.inodes[i].addrs[NDIRECT] < |s.disk| && BitmapBlock(sb, r) < |s.disk| && r < |s.disk|
    requires !Used(sb, s.disk, r)
  {
    var a := s.inodes[i].addrs[NDIRECT];
    var e := MarkUsed(sb, s.disk, r)[r := ZeroBlock()];
    Fs(e[a := PutWord(s.disk[a], k - 13, r)], s.inodes, s.owner[r := Owner(i, k)],
       s.logged + {BitmapBlock(sb, r), r} + {a})
  }

  lemma EntryFilled(sb: Super, s: Fs, i: nat, k: nat, r: nat)
    requires Good(sb, s) && i < |s.inodes| && 13 <= k < NSLOT && s.inodes[i].addrs[NDIRECT] != 0
    requires Ref(s.disk, s.inodes[i], k) == 0 && r < sb.size && !Used(sb, s.disk, r)
    requires Owned(sb, MarkUsed(sb, s.disk, r)[r := ZeroBlock()], s.inodes, s.owner, {r})
    ensures 0 < s.inodes[i].addrs[NDIRECT] < |s.disk| && IsWord(r)
    ensures var t := FillEntry(sb, s, i, k, r);
            && Good(sb, t) && SlotFilled(sb, s, t, i, k, {s.inodes[i].addrs[NDIRECT]})
            && Ref(t.disk, t.inodes[i], k) == r
  {
    IndirectOwner(sb, s.disk, s.inodes, s.owner, {}, i);
    NewEntryGrows(sb, s.disk, s.inodes, s.owner, i, k, r);
  }

  lemma DirectMapped(sb: Super, s: Fs, t: Fs, i: nat, bn: nat)
    requires i < |s.inodes| && bn < NDIRECT && SlotFilled(sb, s, t, i, bn, {})
    ensures BlockMapped(sb, s, t, i, bn)
  {
  }

  lemma IndirectFull(sb: Super, s: Fs, m: Fs, i: nat, bn: nat)
    requires i < |s.inodes| && i < |m.inodes| && NDIRECT <= bn < MAXFILE && Ref(m.disk, m.inodes[i], NDIRECT) == 0
    requires SlotFilled(sb, s, m, i, NDIRECT, {})
    ensures BlockMapped(sb, s, m, i, bn) && FileBlock(m.disk, m.inodes[i], bn) == 0
  {
  }

  lemma GoodShape(sb: Super, s: Fs, i: nat)
    requires Good(sb, s) && i < |s.inodes|
    ensures |s.inodes[i].addrs| == NDIRECT + 1
  {
  }

  lemma IndirectMapped(sb: Super, s: Fs, m: Fs, t: Fs, i: nat, bn: nat)
    requires i < |s.inodes| && i < |m.inodes| && NDIRECT <= bn < MAXFILE
    requires SlotFilled(sb, s, m, i, NDIRECT, {}) && Ref(m.disk, m.inodes[i], NDIRECT) != 0
    requires SlotFilled(sb, m, t, i, bn + 1, {Ref(m.disk, m.inodes[i], NDIRECT)})
    ensures BlockMapped(sb, s, t, i, bn)
  {
    GrowsTransitive(s.disk, s.inodes, s.owner, m.disk, m.inodes, m.owner, t.disk, t.inodes, t.owner);
    assert Ref(t.disk, t.inodes[i], NDIRECT) == Ref(m.disk, m.inodes[i], NDIRECT);
    assert Ref(m.disk, m.inodes[i], bn + 1) == Ref(s.disk, s.inodes[i], bn + 1);
  }

  lemma SameBitmapBlock(sb: Super, b: nat, bi: nat)
    requires b % BPB == 0 && bi < BPB
    ensures BitmapBlock(sb, b + bi) == BitmapBlock(sb, b) && (b + bi) % BPB == bi
  {
  }
}
