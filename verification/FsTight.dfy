/** The log budget of a chunk is attained: an image on which one call of writei with a chunk of filewrite logs exactly
    MAXOPBLOCKS blocks (kernel/file.c:149-160, kernel/fs.c:498-539). */
module FsTight {
  import opened FsLayout
  import opened FsOwner
  import opened FileSystem
  import opened FileContents
  import LogLayout

  // ----- four free blocks in four bitmap blocks -----

  /** File i has its twelve direct blocks and no indirect block; exactly the four blocks of `free` are free, each in a
      bitmap block of its own; they and the last block of file i are zero. */
  ghost predicate FourLeft(sb: Super, s: Fs, i: nat, free: seq<int>) {
    && Good(sb, s) && Sized(s) && i < |s.inodes| && InodeBlock(sb, i) < sb.bmapstart
    && s.inodes[i].size == NDIRECT * BSIZE && s.inodes[i].addrs[NDIRECT] == 0
    && |free| == 4 && (forall k :: 0 <= k < 4 ==> Spare(sb, s, free[k]))
    && (forall k, l :: 0 <= k < l < 4 ==> Apart(sb, free[k], free[l]))
    && (forall b :: 0 <= b < sb.size && b !in free ==> Used(sb, s.disk, b))
    && var b := FileBlock(s.disk, s.inodes[i], 11);
    && 0 < b < |s.disk| && s.disk[b] == ZeroBlock()
  }

  ghost predicate Spare(sb: Super, s: Fs, b: int) {
    && 0 <= b < sb.size && b < |s.disk| && BitmapBlock(sb, b) < |s.disk|
    && !Used(sb, s.disk, b) && s.disk[b] == ZeroBlock()
  }

  ghost predicate Apart(sb: Super, b: int, c: int) {
    b >= 0 && c >= 0 && BitmapBlock(sb, b) != BitmapBlock(sb, c)
  }

  ghost function Slot(t: Fs, i: nat, l: nat): int
    requires i < |t.inodes| && l < NSLOT
  {
    Ref(t.disk, t.inodes[i], l)
  }

  lemma EmptySlots(sb: Super, s: Fs, i: nat, free: seq<int>, l: nat)
    requires FourLeft(sb, s, i, free) && l < NSLOT
    ensures l < NDIRECT <==> Slot(s, i, l) != 0
  {
    if l < NDIRECT { assert FileBlock(s.disk, s.inodes[i], l) != 0; }
  }

  /** A block in use stays in the slot that had it. */
  lemma UsedStays(sb: Super, s: Fs, t: Fs, i: nat, b: int)
    requires Good(sb, s) && Good(sb, t) && SlotsKept(s, t, i, 11, 15) && b in s.owner
    ensures b in t.owner && t.owner[b] == s.owner[b]
  {
    var o := s.owner[b];
    assert Ref(s.disk, s.inodes[o.inode], o.slot) == b;
    assert Ref(t.disk, t.inodes[o.inode], o.slot) == b;
  }

  /** What fills one of the empty slots was free. */
  lemma NewWasFree(sb: Super, s: Fs, t: Fs, i: nat, free: seq<int>, l: nat)
    requires FourLeft(sb, s, i, free) && Good(sb, t) && SlotsKept(s, t, i, 11, 15) && NDIRECT <= l < NSLOT
    requires Slot(t, i, l) != 0
    ensures var b := Slot(t, i, l); b in free && sb.dataStart <= b < sb.size && Used(sb, t.disk, b)
  {
    var b := Slot(t, i, l);
    assert b in t.owner && t.owner[b] == Owner(i, l);
    EmptySlots(sb, s, i, free, l);
    if b in s.owner { UsedStays(sb, s, t, i, b); }
  }

  lemma OldIsUsed(sb: Super, s: Fs, free: seq<int>, j: nat, l: nat)
    requires Good(sb, s) && (forall b :: b in free ==> Spare(sb, s, b)) && j < |s.inodes| && l < NSLOT
    ensures Slot(s, j, l) != 0 ==> Slot(s, j, l) !in free
    ensures forall b :: b in free ==> b >= sb.dataStart
  {
  }

  /** A block that was free and is not any more is in one of the four new slots. */
  lemma FreeGoesNew(sb: Super, s: Fs, t: Fs, i: nat, free: seq<int>, b: int)
    requires FourLeft(sb, s, i, free) && Good(sb, t) && SlotsKept(s, t, i, 11, 15)
    requires b in free && Used(sb, t.disk, b)
    ensures exists l :: NDIRECT <= l <= 15 && Slot(t, i, l) == b
  {
    assert Spare(sb, s, b) && b in t.owner;
    var o := t.owner[b];
    assert Ref(t.disk, t.inodes[o.inode], o.slot) == b;
    OldIsUsed(sb, s, free, o.inode, o.slot);
    assert Fillable(s, i, o.inode, o.slot, 11, 15);
    EmptySlots(sb, s, i, free, o.slot);
    assert Slot(t, i, o.slot) == b;
  }

  /** So with one of them still empty the disk is not full. */
  lemma NotFull(sb: Super, s: Fs, t: Fs, i: nat, free: seq<int>, m: nat)
    requires FourLeft(sb, s, i, free) && Good(sb, t) && SlotsKept(s, t, i, 11, 15)
    requires 11 <= m <= 14 && FileBlock(t.disk, t.inodes[i], m) == 0
    ensures !Full(sb, t.disk)
  {
    hide Good, Full;
    FirstStays(sb, s, t, i, free);
    if Full(sb, t.disk) && m > 11 { AllTaken(sb, s, t, i, free, m + 1); }
  }

  lemma FirstStays(sb: Super, s: Fs, t: Fs, i: nat, free: seq<int>)
    requires FourLeft(sb, s, i, free) && SlotsKept(s, t, i, 11, 15)
    ensures Slot(t, i, 11) == Slot(s, i, 11) != 0
  {
    EmptySlots(sb, s, i, free, 11);
  }

  lemma AllTaken(sb: Super, s: Fs, t: Fs, i: nat, free: seq<int>, l: nat)
    requires FourLeft(sb, s, i, free) && Good(sb, t) && SlotsKept(s, t, i, 11, 15) && Full(sb, t.disk)
    requires NDIRECT <= l <= 15 && i < |t.inodes|
    ensures Slot(t, i, l) in free && Slot(t, i, l) > 0
  {
    hide Good, SlotsKept, Slot;
    forall k | 0 <= k < 4 ensures exists l :: NDIRECT <= l <= 15 && Slot(t, i, l) == free[k] {
      assert Spare(sb, s, free[k]);
      FreeGoesNew(sb, s, t, i, free, free[k]);
    }
    Pigeons(sb, free, Slot(t, i, 12), Slot(t, i, 13), Slot(t, i, 14), Slot(t, i, 15));
    FreeIsData(sb, s, i, free, Slot(t, i, l));
  }

  lemma FreeIsData(sb: Super, s: Fs, i: nat, free: seq<int>, b: int)
    requires FourLeft(sb, s, i, free) && b in free
    ensures 0 < sb.dataStart <= b < sb.size
  {
    assert Spare(sb, s, b);
  }

  lemma Pigeons(sb: Super, free: seq<int>, w: int, x: int, y: int, z: int)
    requires |free| == 4 && forall k, l :: 0 <= k < l < 4 ==> Apart(sb, free[k], free[l])
    requires forall k :: 0 <= k < 4 ==> free[k] in [w, x, y, z]
    ensures w in free && x in free && y in free && z in free
  {
    assert free[0] != free[1] && free[0] != free[2] && free[0] != free[3];
    assert free[1] != free[2] && free[1] != free[3] && free[2] != free[3];
  }

  // ----- what the write has changed -----

  /** The four slots that were empty are filled, the data in file blocks 11 to 14 are not zero, and every change is
      logged. */
  ghost predicate Wrote(sb: Super, s: Fs, t: Fs, i: nat) {
    && Good(sb, t) && SlotsKept(s, t, i, 11, 15) && i < |t.inodes|
    && ChangesLogged(s.disk, s.logged, t.disk, t.logged) && InodeBlock(sb, i) in t.logged
    && (forall l :: 11 <= l <= 15 ==> 0 < Slot(t, i, l) < |t.disk|)
    && (forall l :: 11 <= l <= 15 && l != NDIRECT ==> t.disk[Slot(t, i, l)] != ZeroBlock())
  }

  lemma NewIsLogged(sb: Super, s: Fs, t: Fs, i: nat, free: seq<int>, l: nat)
    requires FourLeft(sb, s, i, free) && Wrote(sb, s, t, i) && NDIRECT <= l <= 15
    ensures var b := Slot(t, i, l);
            && b in free && sb.dataStart <= b < sb.size && b in t.logged
            && BitmapBlock(sb, b) in t.logged && BitmapBlock(sb, b) < sb.dataStart && sb.bmapstart <= BitmapBlock(sb, b)
  {
    NewWasFree(sb, s, t, i, free, l);
    var b := Slot(t, i, l);
    assert Spare(sb, s, b);
    if l == NDIRECT { FilledIndirect(sb, t, i); }
    assert t.disk[b] != s.disk[b];
    assert t.disk[BitmapBlock(sb, b)] != s.disk[BitmapBlock(sb, b)];
  }

  /** An indirect block with an entry is not zero. */
  lemma FilledIndirect(sb: Super, t: Fs, i: nat)
    requires Good(sb, t) && i < |t.inodes| && 0 < Slot(t, i, NDIRECT) < |t.disk| && Slot(t, i, 13) != 0
    ensures t.disk[Slot(t, i, NDIRECT)] != ZeroBlock()
  {
    assert Slot(t, i, 13) == Word(t.disk[Slot(t, i, NDIRECT)], 0);
    assert Word(ZeroBlock(), 0) == 0;
  }

  lemma FirstIsLogged(sb: Super, s: Fs, t: Fs, i: nat, free: seq<int>)
    requires FourLeft(sb, s, i, free) && Wrote(sb, s, t, i)
    ensures var b := Slot(t, i, 11); b in t.logged && sb.dataStart <= b && b !in free
  {
    FirstStays(sb, s, t, i, free);
    assert Slot(s, i, 11) == FileBlock(s.disk, s.inodes[i], 11);
    OldIsUsed(sb, s, free, i, 11);
    assert Slot(s, i, 11) in s.owner;
  }

  lemma NewAreApart(sb: Super, s: Fs, t: Fs, i: nat, free: seq<int>, k: nat, l: nat)
    requires FourLeft(sb, s, i, free) && Wrote(sb, s, t, i) && NDIRECT <= k < l <= 15
    ensures Apart(sb, Slot(t, i, k), Slot(t, i, l))
  {
    NewIsLogged(sb, s, t, i, free, k);
    NewIsLogged(sb, s, t, i, free, l);
    NoSharing(sb, t.disk, t.inodes, t.owner, {}, i, k, i, l);
    TwoApart(sb, free, Slot(t, i, k), Slot(t, i, l));
  }

  lemma TwoApart(sb: Super, free: seq<int>, b: int, c: int)
    requires |free| == 4 && (forall k, l :: 0 <= k < l < 4 ==> Apart(sb, free[k], free[l]))
    requires b in free && c in free && b != c
    ensures Apart(sb, b, c)
  {
  }

  lemma Within(a: set<int>, b: set<int>)
    requires a <= b
    ensures |a| <= |b|
  {
    assert b == a + (b - a);
  }

  /** b is a logged data block, and so is its bitmap block. */
  ghost predicate Both(sb: Super, logged: set<int>, b: int) {
    && b >= sb.dataStart && b in logged && BitmapBlock(sb, b) in logged
    && sb.bmapstart <= BitmapBlock(sb, b) < sb.dataStart
  }

  lemma Five(v: int, w: int, x: int, y: int, z: int)
    requires v != w && v != x && v != y && v != z && w != x && w != y && w != z && x != y && x != z && y != z
    ensures |{v, w, x, y, z}| == 5
  {
    assert {v, w, x, y, z} == {v, w, x, y} + {z};
    assert {v, w, x, y} == {v, w, x} + {y};
  }

  lemma Ten(low: set<int>, high: set<int>, line: int)
    requires |low| == 5 && |high| == 5 && (forall b :: b in low ==> b < line) && (forall b :: b in high ==> line <= b)
    ensures |low + high| == 10
  {
    assert low !! high by {
      forall b | b in low ensures b !in high { assert b < line; }
    }
  }

  lemma TenIn(sb: Super, logged: set<int>, d0: int, a: int, d1: int, d2: int, d3: int, ino: int)
    requires Both(sb, logged, a) && Both(sb, logged, d1) && Both(sb, logged, d2) && Both(sb, logged, d3)
    requires Apart(sb, a, d1) && Apart(sb, a, d2) && Apart(sb, a, d3) && Apart(sb, d1, d2) && Apart(sb, d1, d3)
    requires Apart(sb, d2, d3) && ino in logged && ino < sb.bmapstart
    requires sb.dataStart <= d0 && d0 in logged && d0 != a && d0 != d1 && d0 != d2 && d0 != d3
    ensures |logged| >= LogLayout.MAXOPBLOCKS
  {
    var b, c, d, e := BitmapBlock(sb, a), BitmapBlock(sb, d1), BitmapBlock(sb, d2), BitmapBlock(sb, d3);
    Five(b, c, d, e, ino);
    Five(d0, a, d1, d2, d3);
    Ten({b, c, d, e, ino}, {d0, a, d1, d2, d3}, sb.dataStart);
    Within({b, c, d, e, ino} + {d0, a, d1, d2, d3}, logged);
  }

  lemma NewIsBoth(sb: Super, s: Fs, t: Fs, i: nat, free: seq<int>, l: nat)
    requires FourLeft(sb, s, i, free) && Wrote(sb, s, t, i) && NDIRECT <= l <= 15
    ensures Both(sb, t.logged, Slot(t, i, l)) && Slot(t, i, l) != Slot(t, i, 11)
  {
    NewIsLogged(sb, s, t, i, free, l);
    FirstIsLogged(sb, s, t, i, free);
  }

  /** Ten different blocks are logged: the first data block, four new blocks, their four bitmap blocks and the
      inode's. */
  lemma TenLogged(sb: Super, s: Fs, t: Fs, i: nat, free: seq<int>)
    requires FourLeft(sb, s, i, free) && Wrote(sb, s, t, i)
    ensures |t.logged| >= LogLayout.MAXOPBLOCKS
  {
    hide Slot, Both, Apart, SlotsKept, ChangesLogged, Good;
    FirstIsLogged(sb, s, t, i, free);
    forall l | NDIRECT <= l <= 15 ensures Both(sb, t.logged, Slot(t, i, l)) && Slot(t, i, l) != Slot(t, i, 11) {
      NewIsBoth(sb, s, t, i, free, l);
    }
    forall k, l | NDIRECT <= k < l <= 15 ensures Apart(sb, Slot(t, i, k), Slot(t, i, l)) {
      NewAreApart(sb, s, t, i, free, k, l);
    }
    TenIn(sb, t.logged, Slot(t, i, 11), Slot(t, i, 12), Slot(t, i, 13), Slot(t, i, 14), Slot(t, i, 15),
          InodeBlock(sb, i));
  }

  // ----- the call -----

  function Ones(): (r: seq<byte>)
    ensures |r| == CHUNK && forall k :: 0 <= k < |r| ==> r[k] == 1
  {
    seq(CHUNK, _ => 1)
  }

  /** A byte that is not zero stands in a block that is not zero. */
  lemma BlockOfByte(t: Fs, i: nat, p: nat)
    requires i < |t.inodes| && p < t.inodes[i].size <= MAXBYTES && Content(t.disk, t.inodes[i])[p] != 0
    ensures var b := FileBlock(t.disk, t.inodes[i], p / BSIZE); 0 < b < |t.disk| && t.disk[b] != ZeroBlock()
  {
    assert Content(t.disk, t.inodes[i])[p] == ByteAt(t.disk, t.inodes[i], p);
  }

  /** A full write of ones from byte 1 of file block 11 on. */
  lemma FullWrite(sb: Super, s: Fs, t: Fs, i: nat, free: seq<int>)
    requires FourLeft(sb, s, i, free) && Good(sb, t) && SlotsKept(s, t, i, 11, 15) && i < |t.inodes|
    requires ChangesLogged(s.disk, s.logged, t.disk, t.logged) && InodeBlock(sb, i) in t.logged
    requires t.inodes[i].size <= MAXBYTES
    requires Content(t.disk, t.inodes[i]) == Overwrite(Content(s.disk, s.inodes[i]), 11 * BSIZE + 1, Ones())
    ensures Wrote(sb, s, t, i)
  {
    hide Good, SlotsKept, ChangesLogged, Overwrite, Content, FileBlock;
    OldSize(sb, s, i, free);
    Overwritten(Content(s.disk, s.inodes[i]), 11 * BSIZE + 1, Ones());
    forall m | 11 <= m <= 14
      ensures var b := FileBlock(t.disk, t.inodes[i], m); 0 < b < |t.disk| && t.disk[b] != ZeroBlock()
    {
      BlockOfByte(t, i, m * BSIZE + if m == 11 then 1 else 0);
    }
    Behind(t, i);
  }

  lemma OldSize(sb: Super, s: Fs, i: nat, free: seq<int>)
    requires FourLeft(sb, s, i, free)
    ensures s.inodes[i].size <= MAXBYTES && |Content(s.disk, s.inodes[i])| == 12 * BSIZE
  {
  }

  lemma Overwritten(was: seq<byte>, off: nat, src: seq<byte>)
    requires off <= |was|
    ensures |Overwrite(was, off, src)| >= off + |src|
    ensures forall p :: off <= p < off + |src| ==> Overwrite(was, off, src)[p] == src[p - off]
  {
  }

  lemma Behind(t: Fs, i: nat)
    requires i < |t.inodes|
    requires forall m :: 11 <= m <= 14 ==>
               var b := FileBlock(t.disk, t.inodes[i], m); 0 < b < |t.disk| && t.disk[b] != ZeroBlock()
    ensures forall l :: 11 <= l <= 15 ==> 0 < Slot(t, i, l) < |t.disk|
    ensures forall l :: 11 <= l <= 15 && l != NDIRECT ==> t.disk[Slot(t, i, l)] != ZeroBlock()
  {
    forall l | 11 <= l <= 15 && l != NDIRECT
      ensures 0 < Slot(t, i, l) < |t.disk| && t.disk[Slot(t, i, l)] != ZeroBlock()
    {
      assert Slot(t, i, l) == FileBlock(t.disk, t.inodes[i], BlockOf(l));
    }
    assert Slot(t, i, 13) != 0;
  }

  lemma SizeFits(t: Fs, i: nat)
    requires Sized(t) && i < |t.inodes|
    ensures t.inodes[i].size <= MAXBYTES
  {
  }

  /** With four free blocks in four bitmap blocks, one write of a chunk logs exactly MAXOPBLOCKS blocks. */
  method WriteTen(fs: FileSys, i: nat, ghost free: seq<int>) returns (r: int)
    requires FourLeft(fs.sb, fs.Snap(), i, free) && fs.logged == {}
    modifies fs
    ensures r == CHUNK && |fs.logged| == LogLayout.MAXOPBLOCKS
  {
    hide Good, Sized, SlotsKept, ChangesLogged, Full, Content, Overwrite, FileBlock;
    ghost var s := fs.Snap();
    OldSize(fs.sb, s, i, free);
    r := Writei(fs, i, 11 * BSIZE + 1, Ones());
    if r < CHUNK {
      NotFull(fs.sb, s, fs.Snap(), i, free, (11 * BSIZE + 1 + r) / BSIZE);
      assert false;
    }
    assert Ones()[..r] == Ones();
    SizeFits(fs.Snap(), i);
    FullWrite(fs.sb, s, fs.Snap(), i, free);
    TenLogged(fs.sb, s, fs.Snap(), i, free);
  }

  // ----- such an image -----

  const IMAGE: Super := Super(32768, 32, 204, 208)

  predicate Left(b: int) { b % BPB == BPB - 1 }

  /** Block k of the file that begins at data block 12 * q; files are laid out one after the other. */
  function Laid(q: nat, k: nat): int {
    var b := 208 + 12 * q + k; if b < 32768 && !Left(b) then b else 0
  }

  function AddrsOf(q: nat): (r: seq<int>)
    ensures |r| == NDIRECT + 1 && r[NDIRECT] == 0 && forall k :: 0 <= k < NDIRECT ==> r[k] == Laid(q, k)
  {
    seq(NDIRECT, k requires 0 <= k => Laid(q, k)) + [0]
  }

  const FILES: nat := 2714

  function Files(): (r: seq<Inode>)
    ensures |r| == FILES && forall q :: 0 <= q < FILES ==> r[q] == Inode(if q == 0 then 12 * BSIZE else 0, AddrsOf(q))
  {
    seq(FILES, q requires 0 <= q => Inode(if q == 0 then 12 * BSIZE else 0, AddrsOf(q)))
  }

  /** A bitmap block with every bit set but the last. */
  function Bitmap(): (r: Block)
    ensures forall k :: 0 <= k < BSIZE ==> r[k] == if k == BSIZE - 1 then 127 else 255
  {
    seq(BSIZE, k => if k == BSIZE - 1 then 127 else 255)
  }

  function ImageBlock(b: nat): Block { if 204 <= b < 208 then Bitmap() else ZeroBlock() }

  function FirstBlocks(n: nat): (r: Disk)
    ensures |r| == n && forall b :: 0 <= b < n ==> r[b] == ImageBlock(b)
  {
    if n == 0 then [] else FirstBlocks(n - 1) + [ImageBlock(n - 1)]
  }

  function Image(): (r: Disk)
    ensures |r| == 32768
  {
    FirstBlocks(32768)
  }

  ghost function Owners(): (r: map<int, Owner>)
    ensures forall b :: b in r <==> 208 <= b < 32768 && !Left(b)
    ensures forall b :: b in r ==> r[b] == Owner((b - 208) / 12, (b - 208) % 12)
  {
    map b: int | 208 <= b < 32768 && !Left(b) :: Owner((b - 208) / 12, (b - 208) % 12)
  }

  ghost function Before(): Fs { Fs(Image(), Files(), Owners(), {}) }

  lemma {:induction false} OnesBelow(n: nat, k: nat)
    ensures Bit(Pow2(n) - 1, k) <==> k < n
  {
    if k > 0 {
      OnesBelow(if n == 0 then 0 else n - 1, k - 1);
      assert n > 0 ==> Pow2(n) - 1 == 2 * (Pow2(n - 1) - 1) + 1;
    }
  }

  lemma BitsOfBytes(k: nat)
    requires k < 8
    ensures Bit(255, k) && (Bit(127, k) <==> k < 7)
  {
    assert Pow2(4) == 16 && Pow2(7) == 128 && Pow2(8) == 256;
    OnesBelow(8, k);
    OnesBelow(7, k);
  }

  lemma UsedInImage(b: nat)
    requires b < 32768
    ensures BitmapBlock(IMAGE, b) < 32768 && (Used(IMAGE, Image(), b) <==> !Left(b))
  {
    assert 204 <= BitmapBlock(IMAGE, b) < 208;
    BitsOfBytes(b % BPB % 8);
    LastBit(b);
  }

  lemma LastBit(b: nat)
    ensures Left(b) <==> b % BPB / 8 == BSIZE - 1 && b % BPB % 8 == 7
  {
  }

  lemma LaidOut(q: nat, k: nat)
    requires q < FILES && k < NDIRECT
    ensures var b := Laid(q, k);
            b != 0 ==> 208 <= b < 32768 && !Left(b) && (b - 208) / 12 == q && (b - 208) % 12 == k
  {
  }

  lemma RefInImage(q: nat, k: nat)
    requires q < FILES && k < NSLOT
    ensures Ref(Image(), Files()[q], k) == if k < NDIRECT then Laid(q, k) else 0
  {
  }

  lemma ImageGood()
    ensures Good(IMAGE, Before())
  {
    hide Laid, Image, Files, Owners, Used, Left;
    forall b | 0 <= b < 32768
      ensures BitmapBlock(IMAGE, b) < 32768 && (Used(IMAGE, Image(), b) <==> b < 208 || b in Owners())
    {
      UsedInImage(b);
      if b < 208 { LowIsUsed(b); }
    }
    forall b | b in Owners()
      ensures var o := Owners()[b]; o.inode < FILES && o.slot < NSLOT && Ref(Image(), Files()[o.inode], o.slot) == b
    {
      OwnerInImage(b);
    }
    forall q, k | 0 <= q < FILES && 0 <= k < NSLOT && Ref(Image(), Files()[q], k) != 0
      ensures Ref(Image(), Files()[q], k) in Owners() && Owners()[Ref(Image(), Files()[q], k)] == Owner(q, k)
    {
      RefInImage(q, k);
      LaidOut(q, k);
    }
  }

  lemma LowIsUsed(b: nat)
    requires b < 208
    ensures !Left(b)
  {
  }

  lemma OwnerInImage(b: int)
    requires b in Owners()
    ensures var o := Owners()[b]; o.inode < FILES && o.slot < NDIRECT && Ref(Image(), Files()[o.inode], o.slot) == b
  {
    var o := Owners()[b];
    RefInImage(o.inode, o.slot);
  }

  /** The last block of each bitmap block. */
  ghost function LeftOver(): seq<int> { [8191, 16383, 24575, 32767] }

  lemma LeftAre(b: nat)
    requires b < 32768
    ensures Left(b) <==> b in LeftOver()
  {
  }

  lemma ImageSized()
    ensures Sized(Before()) && FileBlock(Image(), Files()[0], 11) == 219
  {
    forall q | 0 <= q < FILES ensures MappedBelow(Image(), Files()[q], Files()[q].size) {
      forall bn | 0 <= bn < MAXFILE && bn * BSIZE < Files()[q].size ensures FileBlock(Image(), Files()[q], bn) != 0 {
        RefInImage(q, SlotOf(bn));
      }
    }
    RefInImage(0, 11);
  }

  lemma ImageHasFourLeft()
    ensures FourLeft(IMAGE, Before(), 0, LeftOver())
  {
    hide Good, Sized, Used, Left, Image, Files, Owners, FileBlock, Spare;
    ImageGood();
    ImageSized();
    FirstFile();
    forall b | 0 <= b < 32768 && b !in LeftOver()
      ensures BitmapBlock(IMAGE, b) < 32768 && Used(IMAGE, Image(), b)
    {
      UsedInImage(b);
      LeftAre(b);
    }
    forall b | b in LeftOver() ensures Spare(IMAGE, Before(), b) { SpareInImage(b); }
  }

  lemma SpareInImage(b: int)
    requires b in LeftOver()
    ensures Spare(IMAGE, Before(), b)
  {
    hide Used;
    UsedInImage(b);
    LeftAre(b);
  }

  lemma FirstFile()
    ensures Files()[0].size == NDIRECT * BSIZE && Files()[0].addrs[NDIRECT] == 0 && Image()[219] == ZeroBlock()
  {
  }

  /** On this image the write of one chunk needs the whole reservation. */
  method TenOnImage() returns (fs: FileSys, r: int)
    ensures r == CHUNK && |fs.logged| == LogLayout.MAXOPBLOCKS
  {
    ImageHasFourLeft();
    hide FourLeft;
    fs := new FileSys.Mount(IMAGE, Image(), Files(), Owners());
    r := WriteTen(fs, 0, LeftOver());
  }
}
