/** On-disk layout of the write-ahead log (kernel/log.c, kernel/fs.h, kernel/param.h)
    and the meaning of a disk image: what recovery makes of it. */
module LogLayout {
  import opened Common

  const MAXOPBLOCKS: int := 10
  const LOGSIZE: int := 30
  const BLOCKWORDS: int := 256  // BSIZE / sizeof(int)

  /** A disk block, seen as BSIZE/4 machine words. */
  type Block = b: seq<int> | |b| == BLOCKWORDS witness seq(BLOCKWORDS, _ => 0)

  type Disk = seq<Block>

  /** log.start and log.size. The header block is at start; log block i is at start+1+i. */
  datatype Geometry = Geometry(start: nat, size: nat)

  ghost predicate Fits(g: Geometry, d: Disk) {
    1 <= g.size && g.start + g.size <= |d|
  }

  predicate InLog(g: Geometry, b: int) {
    g.start <= b < g.start + g.size
  }

  /** A home block: one that file-system code may log. */
  predicate Home(g: Geometry, d: Disk, b: int) {
    0 <= b < |d| && !InLog(g, b)
  }

  ghost predicate SameHome(g: Geometry, d: Disk, e: Disk) {
    |d| == |e| && forall b :: Home(g, d, b) ==> d[b] == e[b]
  }

  /** What the header must satisfy for the code to index log.lh.block and the log area safely. */
  ghost predicate HeaderFits(g: Geometry, d: Disk, lh: seq<int>) {
    && |lh| <= LOGSIZE
    && |lh| <= g.size - 1
    && Distinct(lh)
    && forall i :: 0 <= i < |lh| ==> Home(g, d, lh[i])
  }

  /** write_head: store n and block[0..n), leaving the rest of the buffer alone. */
  function EncodeHeader(was: Block, lh: seq<int>): (b: Block)
    requires |lh| <= LOGSIZE
    ensures HeaderCountOk(b) && DecodeHeader(b) == lh
  {
    [|lh|] + lh + was[1 + |lh|..]
  }

  predicate HeaderCountOk(b: Block) {
    0 <= b[0] <= LOGSIZE
  }

  /** read_head. */
  function DecodeHeader(b: Block): seq<int>
    requires HeaderCountOk(b)
  {
    b[1..1 + b[0]]
  }

  /** A disk image from which recovery yields the home contents `durable`: every block named in the
      header has its durable contents in the log, every other home block already has them at home. */
  ghost predicate Recoverable(g: Geometry, d: Disk, durable: Disk) {
    && Fits(g, d) && |durable| == |d|
    && HeaderCountOk(d[g.start])
    && var lh := DecodeHeader(d[g.start]);
    && HeaderFits(g, d, lh)
    && (forall i :: 0 <= i < |lh| ==> d[g.start + 1 + i] == durable[lh[i]])
    && (forall b :: Home(g, d, b) && b !in lh ==> d[b] == durable[b])
  }

  /** install_trans on a whole disk image: the first k log blocks copied home. */
  function Install(g: Geometry, d: Disk, lh: seq<int>, k: nat): (r: Disk)
    requires Fits(g, d) && k <= |lh| <= g.size - 1
    requires forall i :: 0 <= i < |lh| ==> Home(g, d, lh[i])
    ensures |r| == |d|
    ensures forall b :: InLog(g, b) ==> r[b] == d[b]
  {
    if k == 0 then d
    else
      var p := Install(g, d, lh, k - 1);
      p[lh[k - 1] := p[g.start + k]]
  }

  /** recover_from_log on a whole disk image. */
  function Recover(g: Geometry, d: Disk): (r: Disk)
    requires Fits(g, d) && HeaderCountOk(d[g.start])
    requires HeaderFits(g, d, DecodeHeader(d[g.start]))
    ensures |r| == |d|
  {
    var lh := DecodeHeader(d[g.start]);
    var p := Install(g, d, lh, |lh|);
    p[g.start := EncodeHeader(p[g.start], [])]
  }

  lemma {:induction false} InstallCopies(g: Geometry, d: Disk, lh: seq<int>, k: nat)
    requires Fits(g, d) && k <= |lh| && HeaderFits(g, d, lh)
    ensures forall i :: 0 <= i < k ==> Install(g, d, lh, k)[lh[i]] == d[g.start + 1 + i]
    ensures forall b :: 0 <= b < |d| && b !in lh[..k] ==> Install(g, d, lh, k)[b] == d[b]
  {
    if k > 0 {
      InstallCopies(g, d, lh, k - 1);
      var p := Install(g, d, lh, k - 1);
      assert InLog(g, g.start + k) && p[g.start + k] == d[g.start + k];
      assert forall i :: 0 <= i < k - 1 ==> lh[i] != lh[k - 1];
      assert lh[..k] == lh[..k - 1] + [lh[k - 1]];
    }
  }

  /** Recovery delivers exactly the durable contents and empties the header. */
  lemma RecoverYieldsDurable(g: Geometry, d: Disk, durable: Disk)
    requires Recoverable(g, d, durable)
    ensures SameHome(g, Recover(g, d), durable)
    ensures DecodeHeader(Recover(g, d)[g.start]) == []
    ensures Recoverable(g, Recover(g, d), durable)
  {
    var lh := DecodeHeader(d[g.start]);
    InstallCopies(g, d, lh, |lh|);
    var p := Install(g, d, lh, |lh|);
    var r := Recover(g, d);
    forall b | Home(g, r, b) ensures r[b] == durable[b] {
      assert Home(g, d, b);
      assert r[b] == p[b];
      if b in lh {
        var i :| 0 <= i < |lh| && lh[i] == b;
        assert p[lh[i]] == d[g.start + 1 + i];
      } else {
        assert b !in lh[..|lh|];
      }
    }
  }

  /** Once every logged block is home, the home blocks are the durable contents. */
  lemma AllInstalled(g: Geometry, d: Disk, durable: Disk, lh: seq<int>)
    requires Recoverable(g, d, durable) && DecodeHeader(d[g.start]) == lh
    requires forall i :: 0 <= i < |lh| ==> d[lh[i]] == durable[lh[i]]
    ensures SameHome(g, d, durable)
  {
    forall b | Home(g, d, b) ensures d[b] == durable[b] {
      if b in lh {
        var i :| 0 <= i < |lh| && lh[i] == b;
      }
    }
  }

  ghost predicate InstalledUpTo(d: Disk, durable: Disk, lh: seq<int>, k: nat) {
    k <= |lh| && forall i :: 0 <= i < k ==> 0 <= lh[i] < |d| == |durable| && d[lh[i]] == durable[lh[i]]
  }

  /** Writing a home block. */
  lemma HomeWrite(g: Geometry, d: Disk, b: int, data: Block)
    requires Fits(g, d) && Home(g, d, b)
    ensures forall c :: InLog(g, c) ==> d[b := data][c] == d[c]
    ensures forall c :: Home(g, d, c) && c != b ==> d[b := data][c] == d[c]
  {
  }

  /** Copying one more log block home keeps the image recoverable. */
  lemma InstallOne(g: Geometry, d: Disk, durable: Disk, lh: seq<int>, k: nat)
    requires Recoverable(g, d, durable) && DecodeHeader(d[g.start]) == lh
    requires InstalledUpTo(d, durable, lh, k) && k < |lh|
    ensures var e := d[lh[k] := d[g.start + 1 + k]];
            && e[g.start] == d[g.start]
            && Recoverable(g, e, durable) && InstalledUpTo(e, durable, lh, k + 1)
  {
    hide DecodeHeader;
    var e := d[lh[k] := d[g.start + 1 + k]];
    HomeWrite(g, d, lh[k], d[g.start + 1 + k]);
    assert InLog(g, g.start);
    forall i | 0 <= i < |lh| ensures e[g.start + 1 + i] == durable[lh[i]] {
      assert InLog(g, g.start + 1 + i);
    }
    assert forall b :: Home(g, e, b) <==> Home(g, d, b);
  }
}
