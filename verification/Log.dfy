/** kernel/log.c as code: the loops of log_write, write_log, write_head, install_trans and read_head over
    the in-memory header, the cache and the disk. `images` lists the disk image after every single
    block write, so a crash leaves the disk as one of them. */
module Log {
  import opened LogLayout
  import LogMachine
  import LogProofs

  datatype LogWriteResult = Logged | PanicTooBig | PanicOutsideTransaction
  datatype EndResult = StillOpen | MustCommit | PanicCommitting

  /** The home contents a committed transaction leads to: block lh[i] gets its cached contents. */
  function Overlay(d: Disk, lh: seq<int>, cache: map<int, Block>): (r: Disk)
    ensures |r| == |d|
    ensures forall b :: 0 <= b < |d| ==> r[b] == if b in lh && b in cache then cache[b] else d[b]
  {
    seq(|d|, b requires 0 <= b < |d| => if b in lh && b in cache then cache[b] else d[b])
  }

  ghost predicate AllCached(lh: seq<int>, cache: map<int, Block>) {
    forall i :: 0 <= i < |lh| ==> lh[i] in cache
  }

  /** Cached contents equal the disk's, except for the listed blocks. */
  ghost predicate Agrees(cache: map<int, Block>, d: Disk, except: seq<int>) {
    && (forall b :: b in cache ==> 0 <= b < |d|)
    && (forall b :: b in cache && b !in except ==> cache[b] == d[b])
  }

  /** Copying block `from` over block `to` through the cache keeps the agreement. */
  lemma CopyAgrees(cache: map<int, Block>, d: Disk, except: seq<int>, to: int, from: int, rest: seq<int>)
    requires Agrees(cache, d, except) && 0 <= to < |d| && 0 <= from < |d| && to != from
    requires forall b :: b in except ==> b in rest || b == to
    requires from in except ==> from in rest
    ensures var data := if from in cache then cache[from] else d[from];
            Agrees(cache[from := data][to := data], d[to := data], rest)
  {
  }

  /** Both caches hold the listed blocks, with the same contents. */
  ghost predicate SameOn(lh: seq<int>, cache: map<int, Block>, other: map<int, Block>) {
    forall i :: 0 <= i < |lh| ==> lh[i] in cache && lh[i] in other && cache[lh[i]] == other[lh[i]]
  }

  lemma SameAsBefore(lh: seq<int>, cache: map<int, Block>)
    requires AllCached(lh, cache)
    ensures SameOn(lh, cache, cache)
  {
  }

  lemma StillCached(lh: seq<int>, cache: map<int, Block>, other: map<int, Block>)
    requires SameOn(lh, cache, other)
    ensures AllCached(lh, cache) && forall i :: 0 <= i < |lh| ==> cache[lh[i]] == other[lh[i]]
  {
  }

  /** Copying a cached block elsewhere keeps the listed blocks. */
  lemma CopyKeeps(cache: map<int, Block>, other: map<int, Block>, lh: seq<int>, k: nat, to: int)
    requires SameOn(lh, cache, other) && k < |lh| && to !in lh
    ensures SameOn(lh, cache[lh[k] := cache[lh[k]]][to := cache[lh[k]]], other)
  {
  }

  class Wal {
    const g: Geometry
    var disk: Disk
    /** Contents of the buffers in the cache, by block number. */
    var cache: map<int, Block>
    var lh: seq<int>
    var outstanding: int
    var committing: bool
    ghost var images: seq<Disk>
    /** The operations between begin_op and end_op, and the thread that commits. */
    ghost var ops: seq<LogMachine.Op>
    ghost var who: nat

    /** The log's bookkeeping as LogMachine sees it. */
    ghost function Machine(): LogMachine.State
      reads this
    {
      LogMachine.State(disk, [], lh, outstanding, committing, ops,
                       if committing then LogMachine.WriteLog(0, who) else LogMachine.Open)
    }

    /** The header and all unused reservations fit, and nobody is inside an operation while a commit runs. */
    ghost predicate Reserved()
      reads this
    {
      LogMachine.Reserved(g, Machine())
    }

    /** Buffers of blocks not in the header agree with the disk. */
    ghost predicate Coherent()
      reads this
    {
      Fits(g, disk) && HeaderFits(g, disk, lh) && Agrees(cache, disk, lh)
    }

    /** In normal running the blocks in the header are also cached (pinned). */
    ghost predicate Valid()
      reads this
    {
      Coherent() && AllCached(lh, cache)
    }

    constructor (g: Geometry, disk: Disk)
      requires Fits(g, disk)
      ensures this.g == g && this.disk == disk && lh == [] && cache == map[] && images == []
      ensures outstanding == 0 && !committing && Valid() && Reserved()
    {
      this.g, this.disk, this.lh, this.cache, this.images := g, disk, [], map[], [];
      this.outstanding, this.committing, this.ops := 0, false, [];
    }

    /** bread. */
    method Bread(b: int) returns (data: Block)
      requires 0 <= b < |disk|
      modifies `cache
      ensures data == if b in old(cache) then old(cache)[b] else disk[b]
      ensures cache == old(cache)[b := data]
    {
      if b !in cache { cache := cache[b := disk[b]]; }
      data := cache[b];
      assert cache == old(cache)[b := data];
    }

    /** memmove into the buffer of block b, then bwrite. */
    method Bwrite(b: int, data: Block)
      requires 0 <= b < |disk|
      modifies `cache, `disk, `images
      ensures cache == old(cache)[b := data] && disk == old(disk)[b := data]
      ensures images == old(images) + [disk]
    {
      cache := cache[b := data];
      disk := disk[b := data];
      images := images + [disk];
    }

    /** One pass of begin_op's loop; false means the caller sleeps and tries again. The operation is admitted exactly
        where the machine admits it, so a full reservation is set aside for it and every other one stays. */
    method TryBeginOp(ghost tid: nat) returns (ok: bool)
      requires Reserved() && forall k :: 0 <= k < |ops| ==> ops[k].tid != tid
      modifies `outstanding, `ops
      ensures Reserved()
      ensures ok <==> LogMachine.Enabled(g, old(Machine()), LogMachine.BeginOp(tid))
      ensures Machine() == if ok then LogMachine.Apply(g, old(Machine()), LogMachine.BeginOp(tid)) else old(Machine())
    {
      hide LogMachine.Reserved, LogMachine.Enabled, LogMachine.Apply;
      Joins(g, Machine(), tid);
      ok := false;
      if committing {
      } else if |lh| + (outstanding + 1) * MAXOPBLOCKS > LOGSIZE {
      } else {
        outstanding := outstanding + 1;
        ops := ops + [LogMachine.Op(tid, 0)];
        ok := true;
      }
    }

    /** log_write by operation k for a buffer holding block b whose new contents are `data`. Within the reservation a
        new block is refused only if the log area is short of LOGSIZE blocks. */
    method LogWrite(b: int, data: Block, ghost k: nat) returns (r: LogWriteResult)
      requires Valid() && Home(g, disk, b)
      modifies `cache, `lh, `ops
      ensures Valid()
      ensures old(Reserved()) && k < |old(ops)| && (b in old(lh) || old(ops)[k].added < MAXOPBLOCKS) ==>
                Reserved() && r != PanicOutsideTransaction
                  && (b !in old(lh) && r == PanicTooBig ==> g.size - 1 < LOGSIZE)
      ensures r == PanicTooBig <==> |old(lh)| >= LOGSIZE || |old(lh)| >= g.size - 1
      ensures r == PanicOutsideTransaction <==> |old(lh)| < LOGSIZE && |old(lh)| < g.size - 1 && outstanding < 1
      ensures r != Logged ==> cache == old(cache) && lh == old(lh)
      ensures r == Logged ==>
                && cache == old(cache)[b := data]
                && lh == if b in old(lh) then old(lh) else old(lh) + [b]
    {
      ghost var before := Machine();
      Room(g, before, k);
      if |lh| >= LOGSIZE || |lh| >= g.size - 1 { return PanicTooBig; }
      if outstanding < 1 { return PanicOutsideTransaction; }
      var i := 0;
      while i < |lh| && lh[i] != b
        invariant 0 <= i <= |lh| && b !in lh[..i]
      {
        i := i + 1;
      }
      if i == |lh| {
        assert b !in lh;
        if k < |ops| {
          LogProofs.UnusedUpdate(ops, k, ops[k].(added := ops[k].added + 1));
          ops := ops[k := ops[k].(added := ops[k].added + 1)];
        }
        lh := lh + [b];
      } else {
        lh := lh[i := b];
        assert lh == old(lh) && b in lh;
      }
      cache := cache[b := data];
      return Logged;
    }

    /** The first half of end_op, by operation k. Its reservation is given back, the machine's step is taken, and the
        panic is not reached: nobody is inside an operation while a commit runs. */
    method LeaveOp(ghost k: nat) returns (r: EndResult)
      requires Reserved() && k < |ops|
      modifies `outstanding, `committing, `ops, `who
      ensures Reserved() && r != PanicCommitting
      ensures LogMachine.Enabled(g, old(Machine()), LogMachine.EndOp(k))
      ensures Machine() == LogMachine.Apply(g, old(Machine()), LogMachine.EndOp(k))
      ensures r == MustCommit <==> ops == []
      ensures committing <==> ops == []
    {
      hide LogMachine.Reserved, LogMachine.Enabled, LogMachine.Apply;
      Leaves(g, Machine(), k);
      who := ops[k].tid;
      ops := ops[..k] + ops[k + 1..];
      outstanding := outstanding - 1;
      if committing { return PanicCommitting; }
      if outstanding == 0 {
        committing := true;
        return MustCommit;
      }
      return StillOpen;
    }

    /** write_head. */
    method WriteHead()
      requires Fits(g, disk) && |lh| <= LOGSIZE && Agrees(cache, disk, lh) && g.start !in lh
      modifies `cache, `disk, `images
      ensures disk == WithHeader(g, old(disk), lh) && images == old(images) + [disk]
      ensures Agrees(cache, disk, lh)
      ensures forall b :: b in old(cache) ==> b in cache && (b != g.start ==> cache[b] == old(cache)[b])
    {
      var was := Bread(g.start);
      var buf: Block := was[0 := |lh|];
      var i := 0;
      while i < |lh|
        invariant 0 <= i <= |lh| && buf[0] == |lh|
        invariant forall j :: 0 <= j < i ==> buf[1 + j] == lh[j]
        invariant forall j :: 1 + i <= j < BLOCKWORDS ==> buf[j] == was[j]
        modifies {}
      {
        buf := buf[1 + i := lh[i]];
        i := i + 1;
      }
      assert buf == EncodeHeader(was, lh);
      assert cache[g.start := buf] == old(cache)[g.start := buf];
      Bwrite(g.start, buf);
    }

    /** read_head. */
    method ReadHead()
      requires Fits(g, disk) && HeaderCountOk(disk[g.start])
      requires g.start in cache ==> cache[g.start] == disk[g.start]
      modifies `cache, `lh
      ensures lh == DecodeHeader(disk[g.start])
      ensures cache == old(cache)[g.start := disk[g.start]]
    {
      var buf := Bread(g.start);
      var n := buf[0];
      lh := [];
      var i := 0;
      while i < n
        invariant 0 <= i <= n && lh == buf[1..1 + i]
        modifies `lh
      {
        lh := lh + [buf[1 + i]];
        i := i + 1;
      }
    }

    /** The copy loop bodies of write_log and install_trans: read block `from`, write it to block `to`. */
    method CopyBlock(to: int, from: int)
      requires 0 <= to < |disk| && 0 <= from < |disk| && to != from
      modifies `cache, `disk, `images
      ensures var data := if from in old(cache) then old(cache)[from] else old(disk)[from];
              && cache == old(cache)[from := data][to := data]
              && disk == old(disk)[to := data]
      ensures images == old(images) + [disk]
    {
      var _ := Bread(to);
      var data := Bread(from);
      assert cache[to := data] == old(cache)[from := data][to := data];
      Bwrite(to, data);
    }

    /** write_log. */
    method WriteLog()
      requires Valid()
      modifies `cache, `disk, `images
      ensures Valid() && disk == Copied(g, old(disk), lh, old(cache), |lh|)
      ensures images == old(images) + CopyImages(g, old(disk), lh, old(cache), |lh|)
    {
      hide Agrees, SameOn;
      SameAsBefore(lh, cache);
      var tail := 0;
      while tail < |lh|
        invariant 0 <= tail <= |lh|
        invariant disk == Copied(g, old(disk), lh, old(cache), tail)
        invariant Agrees(cache, disk, lh) && SameOn(lh, cache, old(cache))
        invariant images == old(images) + CopyImages(g, old(disk), lh, old(cache), tail)
      {
        StillCached(lh, cache, old(cache));
        CopyAgrees(cache, disk, lh, g.start + tail + 1, lh[tail], lh);
        CopyKeeps(cache, old(cache), lh, tail, g.start + tail + 1);
        CopyBlock(g.start + tail + 1, lh[tail]);
        tail := tail + 1;
        Append(old(images), CopyImages(g, old(disk), lh, old(cache), tail - 1), disk);
      }
      StillCached(lh, cache, old(cache));
    }

    /** install_trans. */
    method InstallTrans()
      requires Coherent()
      modifies `cache, `disk, `images
      ensures disk == Install(g, old(disk), lh, |lh|) && Agrees(cache, disk, [])
      ensures images == old(images) + InstallImages(g, old(disk), lh, |lh|)
    {
      hide Agrees;
      var tail := 0;
      assert lh[0..] == lh;
      while tail < |lh|
        invariant 0 <= tail <= |lh|
        invariant disk == Install(g, old(disk), lh, tail)
        invariant Agrees(cache, disk, lh[tail..])
        invariant images == old(images) + InstallImages(g, old(disk), lh, tail)
      {
        InstallAgrees(g, cache, disk, lh, tail);
        CopyBlock(lh[tail], g.start + tail + 1);
        tail := tail + 1;
        Append(old(images), InstallImages(g, old(disk), lh, tail - 1), disk);
      }
      assert lh[tail..] == [];
    }

    /** commit. */
    method CommitTransaction()
      requires Valid()
      modifies `cache, `disk, `images, `lh
      ensures Valid() && lh == []
      ensures images == old(images) + CommitImages(g, old(disk), old(lh), old(cache))
      ensures disk == if old(lh) == [] then old(disk) else images[|images| - 1]
    {
      hide Agrees, Install, Copied, CopyImages, InstallImages;
      if |lh| > 0 {
        ghost var n, copied := |lh|, Copied(g, disk, lh, cache, |lh|);
        WriteLog();
        WriteHead();
        InstallTrans();
        lh := [];
        WriteHead();
        ghost var head := WithHeader(g, copied, old(lh));
        ghost var a, c := CopyImages(g, old(disk), old(lh), old(cache), n), InstallImages(g, head, old(lh), n);
        Regroup(old(images), a, [head], c, [disk]);
      }
    }

    /** end_op: the last operation commits everything logged, and the log is open again. */
    method EndOp(ghost k: nat)
      requires Valid() && Reserved() && k < |ops|
      modifies this
      ensures Valid() && Reserved() && !committing && outstanding == old(outstanding) - 1
      ensures outstanding > 0 ==> disk == old(disk) && lh == old(lh) && cache == old(cache) && images == old(images)
      ensures outstanding == 0 ==>
                && lh == [] && images == old(images) + CommitImages(g, old(disk), old(lh), old(cache))
                && disk == if old(lh) == [] then old(disk) else images[|images| - 1]
    {
      hide LogMachine.Reserved, LogMachine.Enabled, LogMachine.Apply, Agrees, HeaderFits, AllCached, CommitImages;
      Leaves(g, Machine(), k);
      var r := LeaveOp(k);
      if r == MustCommit {
        CommitTransaction();
        committing := false;
        NothingReserved(g, Machine());
      }
    }

    /** recover_from_log, right after power-on. */
    method RecoverFromLog()
      requires Fits(g, disk) && HeaderCountOk(disk[g.start]) && HeaderFits(g, disk, DecodeHeader(disk[g.start]))
      requires cache == map[]
      modifies `cache, `disk, `images, `lh
      ensures Valid() && lh == [] && disk == Recover(g, old(disk))
      ensures images == old(images) + RecoveryImages(g, old(disk))
    {
      ReadHead();
      InstallTrans();
      lh := [];
      WriteHead();
    }
  }

  /** The machine's BeginOp and EndOp on the bookkeeping alone. */
  lemma Joins(g: Geometry, s: LogMachine.State, tid: nat)
    requires LogMachine.Reserved(g, s) && forall k :: 0 <= k < |s.ops| ==> s.ops[k].tid != tid
    requires !s.committing ==> s.phase == LogMachine.Open
    requires s.committing ==> s.phase.WriteLog?
    ensures LogMachine.Enabled(g, s, LogMachine.BeginOp(tid)) <==>
              !s.committing && |s.lh| + (s.outstanding + 1) * MAXOPBLOCKS <= LOGSIZE
    ensures LogMachine.Enabled(g, s, LogMachine.BeginOp(tid)) ==>
              var t := s.(outstanding := s.outstanding + 1, ops := s.ops + [LogMachine.Op(tid, 0)]);
              t == LogMachine.Apply(g, s, LogMachine.BeginOp(tid)) && LogMachine.Reserved(g, t)
  {
    LogProofs.UnusedAppend(s.ops, LogMachine.Op(tid, 0));
    LogProofs.UnusedAtMost(s.ops);
  }

  lemma Leaves(g: Geometry, s: LogMachine.State, k: nat)
    requires LogMachine.Reserved(g, s) && k < |s.ops| && s.bufs == []
    ensures !s.committing && s.phase == LogMachine.Open && s.outstanding == |s.ops|
    ensures LogMachine.Enabled(g, s, LogMachine.EndOp(k))
    ensures LogMachine.Apply(g, s, LogMachine.EndOp(k)) == Left(s, k)
    ensures LogMachine.Reserved(g, Left(s, k))
  {
    assert !s.committing && s.phase == LogMachine.Open && s.outstanding == |s.ops|;
    LeftReserved(g, s, k);
    hide LogMachine.Reserved;
  }

  /** The bookkeeping without operation k. */
  function Left(s: LogMachine.State, k: nat): LogMachine.State
    requires k < |s.ops|
  {
    var t := s.(outstanding := s.outstanding - 1, ops := s.ops[..k] + s.ops[k + 1..]);
    if t.outstanding == 0 then t.(committing := true, phase := LogMachine.WriteLog(0, s.ops[k].tid)) else t
  }

  lemma LeftReserved(g: Geometry, s: LogMachine.State, k: nat)
    requires LogMachine.Reserved(g, s) && k < |s.ops|
    ensures LogMachine.Reserved(g, Left(s, k))
  {
    hide HeaderFits, LogMachine.Unused;
    var ops := s.ops[..k] + s.ops[k + 1..];
    LogProofs.UnusedRemove(s.ops, k);
    LogProofs.UnusedNonNegative(s.ops);
    forall j | 0 <= j < |ops| ensures ops[j] == s.ops[if j < k then j else j + 1] { }
  }

  lemma NothingReserved(g: Geometry, s: LogMachine.State)
    requires s.ops == [] && s.outstanding == 0 && s.lh == [] && !s.committing && s.phase == LogMachine.Open
    requires Fits(g, s.disk)
    ensures LogMachine.Reserved(g, s)
  {
  }

  /** An operation that has not used up its reservation leaves room in the header. */
  lemma Room(g: Geometry, s: LogMachine.State, k: nat)
    ensures LogMachine.Reserved(g, s) && k < |s.ops| && s.ops[k].added < MAXOPBLOCKS ==> |s.lh| < LOGSIZE
    ensures LogMachine.Reserved(g, s) && k < |s.ops| ==> s.outstanding >= 1
  {
    if LogMachine.Reserved(g, s) { LogProofs.UnusedNonNegative(s.ops); }
  }

  lemma Append(o: seq<Disk>, a: seq<Disk>, d: Disk)
    ensures o + a + [d] == o + (a + [d])
  {
  }

  lemma Regroup(o: seq<Disk>, a: seq<Disk>, b: seq<Disk>, c: seq<Disk>, e: seq<Disk>)
    ensures o + a + b + c + e == o + (a + b + c + e)
  {
  }

  // ----- the images on the way -----

  /** write_log after k rounds: log block i holds the cached contents of block lh[i], for i < k. */
  function Copied(g: Geometry, d: Disk, lh: seq<int>, cache: map<int, Block>, k: nat): (r: Disk)
    requires Fits(g, d) && k <= |lh| <= g.size - 1 && AllCached(lh, cache)
    ensures |r| == |d|
    ensures forall b :: 0 <= b < |d| && !(g.start < b <= g.start + k) ==> r[b] == d[b]
    ensures forall i :: 0 <= i < k ==> r[g.start + 1 + i] == cache[lh[i]]
  {
    if k == 0 then d
    else Copied(g, d, lh, cache, k - 1)[g.start + k := cache[lh[k - 1]]]
  }

  function CopyImages(g: Geometry, d: Disk, lh: seq<int>, cache: map<int, Block>, k: nat): (r: seq<Disk>)
    requires Fits(g, d) && k <= |lh| <= g.size - 1 && AllCached(lh, cache)
    ensures |r| == k && forall i :: 0 <= i < k ==> r[i] == Copied(g, d, lh, cache, i + 1)
  {
    if k == 0 then [] else CopyImages(g, d, lh, cache, k - 1) + [Copied(g, d, lh, cache, k)]
  }

  function InstallImages(g: Geometry, d: Disk, lh: seq<int>, k: nat): (r: seq<Disk>)
    requires Fits(g, d) && k <= |lh| <= g.size - 1
    requires forall i :: 0 <= i < |lh| ==> Home(g, d, lh[i])
    ensures |r| == k && forall i :: 0 <= i < k ==> r[i] == Install(g, d, lh, i + 1)
  {
    if k == 0 then [] else InstallImages(g, d, lh, k - 1) + [Install(g, d, lh, k)]
  }

  function WithHeader(g: Geometry, d: Disk, lh: seq<int>): (r: Disk)
    requires Fits(g, d) && |lh| <= LOGSIZE
  {
    d[g.start := EncodeHeader(d[g.start], lh)]
  }

  /** All disk images commit() goes through. */
  function CommitImages(g: Geometry, d: Disk, lh: seq<int>, cache: map<int, Block>): (r: seq<Disk>)
    requires Fits(g, d) && HeaderFits(g, d, lh) && AllCached(lh, cache)
    ensures |r| == if lh == [] then 0 else 2 * |lh| + 2
  {
    if lh == [] then [] else
    var n := |lh|;
    var copied := Copied(g, d, lh, cache, n);
    var committed := WithHeader(g, copied, lh);
    CopyImages(g, d, lh, cache, n) + [committed]
    + InstallImages(g, committed, lh, n)
    + [WithHeader(g, Install(g, committed, lh, n), [])]
  }

  /** All disk images recover_from_log goes through. */
  function RecoveryImages(g: Geometry, d: Disk): (r: seq<Disk>)
    requires Fits(g, d) && HeaderCountOk(d[g.start]) && HeaderFits(g, d, DecodeHeader(d[g.start]))
    ensures |r| == d[g.start][0] + 1
  {
    var lh := DecodeHeader(d[g.start]);
    InstallImages(g, d, lh, |lh|) + [Recover(g, d)]
  }

  /** One round of install_trans removes one exception. */
  lemma InstallAgrees(g: Geometry, cache: map<int, Block>, d: Disk, lh: seq<int>, tail: nat)
    requires Fits(g, d) && HeaderFits(g, d, lh) && tail < |lh| && Agrees(cache, d, lh[tail..])
    ensures var from := g.start + tail + 1;
            var data := if from in cache then cache[from] else d[from];
            data == d[from] && Agrees(cache[from := data][lh[tail] := data], d[lh[tail] := data], lh[tail + 1..])
  {
    var from := g.start + tail + 1;
    assert from !in lh[tail..] by { assert forall i :: tail <= i < |lh| ==> Home(g, d, lh[i]); }
    assert lh[tail..] == [lh[tail]] + lh[tail + 1..];
    CopyAgrees(cache, d, lh[tail..], lh[tail], from, lh[tail + 1..]);
  }

  // ----- what a crash in the middle leaves behind -----

  /** After k blocks have been copied home. */
  ghost predicate PartlyInstalled(g: Geometry, d: Disk, e: Disk, durable: Disk, lh: seq<int>, k: nat) {
    |e| == |d| && 0 <= g.start < |d| && e[g.start] == d[g.start] && Recoverable(g, e, durable)
      && InstalledUpTo(e, durable, lh, k)
  }

  lemma InstallNext(g: Geometry, d: Disk, e: Disk, durable: Disk, lh: seq<int>, k: nat)
    requires PartlyInstalled(g, d, e, durable, lh, k) && DecodeHeader(d[g.start]) == lh && k < |lh|
    ensures 0 <= lh[k] < |e| && 0 <= g.start + 1 + k < |e|
    ensures PartlyInstalled(g, d, e[lh[k] := e[g.start + 1 + k]], durable, lh, k + 1)
  {
    InstallOne(g, e, durable, lh, k);
  }

  lemma InstallNone(g: Geometry, d: Disk, durable: Disk)
    requires Recoverable(g, d, durable)
    ensures PartlyInstalled(g, d, d, durable, DecodeHeader(d[g.start]), 0)
  {
  }

  lemma {:induction false} InstallStaysRecoverable(g: Geometry, d: Disk, durable: Disk, k: nat)
    requires Recoverable(g, d, durable) && k <= |DecodeHeader(d[g.start])|
    ensures var lh := DecodeHeader(d[g.start]); PartlyInstalled(g, d, Install(g, d, lh, k), durable, lh, k)
  {
    hide PartlyInstalled, DecodeHeader;
    var lh := DecodeHeader(d[g.start]);
    if k == 0 {
      InstallNone(g, d, durable);
    } else {
      InstallStaysRecoverable(g, d, durable, k - 1);
      var p := Install(g, d, lh, k - 1);
      InstallNext(g, d, p, durable, lh, k - 1);
      assert Install(g, d, lh, k) == p[lh[k - 1] := p[g.start + k]];
    }
  }

  /** Recovery can be interrupted and repeated any number of times: every image it goes through recovers
      to the same home contents, and the last one has them in place with an empty header. */
  lemma RecoveryIsRestartable(g: Geometry, d: Disk, durable: Disk, k: nat)
    requires Recoverable(g, d, durable) && k < |RecoveryImages(g, d)|
    ensures Recoverable(g, RecoveryImages(g, d)[k], durable)
    ensures k == |RecoveryImages(g, d)| - 1 ==>
              SameHome(g, RecoveryImages(g, d)[k], durable) && DecodeHeader(RecoveryImages(g, d)[k][g.start]) == []
  {
    if k < |DecodeHeader(d[g.start])| {
      InstallStaysRecoverable(g, d, durable, k + 1);
    } else {
      RecoverYieldsDurable(g, d, durable);
    }
  }

  lemma CommitImagesAt(g: Geometry, d: Disk, lh: seq<int>, cache: map<int, Block>, k: nat)
    requires Fits(g, d) && HeaderFits(g, d, lh) && AllCached(lh, cache)
    requires k < |CommitImages(g, d, lh, cache)|
    ensures var n := |lh|; var head := WithHeader(g, Copied(g, d, lh, cache, n), lh);
            CommitImages(g, d, lh, cache)[k] ==
            if k < n then Copied(g, d, lh, cache, k + 1)
            else if k == n then head
            else if k <= 2 * n then Install(g, head, lh, k - n)
            else WithHeader(g, Install(g, head, lh, n), [])
  {
  }

  /** Before the header write every image of a commit recovers to the old state; from that write on every
      image recovers to the state with the whole transaction in it; the last one is that state. */
  lemma CommitIsAtomic(g: Geometry, d: Disk, durable: Disk, lh: seq<int>, cache: map<int, Block>, k: nat)
    requires Recoverable(g, d, durable) && DecodeHeader(d[g.start]) == []
    requires HeaderFits(g, d, lh) && AllCached(lh, cache) && k < |CommitImages(g, d, lh, cache)|
    ensures k < |lh| ==> Recoverable(g, CommitImages(g, d, lh, cache)[k], durable)
    ensures k >= |lh| ==> Recoverable(g, CommitImages(g, d, lh, cache)[k], Overlay(durable, lh, cache))
    ensures k == 2 * |lh| + 1 ==> SameHome(g, CommitImages(g, d, lh, cache)[k], Overlay(durable, lh, cache))
  {
    hide Recoverable, CommitImages, SameHome, Install, Overlay, Copied, WithHeader, DecodeHeader;
    RecoverableFits(g, d, durable);
    CommitImagesAt(g, d, lh, cache, k);
    if k < |lh| {
      CopiedStaysRecoverable(g, d, durable, lh, cache, k + 1);
    } else {
      HeadImage(g, d, durable, lh, cache);
      AfterHeaderWrite(g, WithHeader(g, Copied(g, d, lh, cache, |lh|), lh), Overlay(durable, lh, cache), lh, k - |lh|);
    }
  }

  lemma RecoverableFits(g: Geometry, d: Disk, durable: Disk)
    requires Recoverable(g, d, durable)
    ensures Fits(g, d) && HeaderCountOk(d[g.start])
  {
  }

  /** The image right after the header write. */
  lemma HeadImage(g: Geometry, d: Disk, durable: Disk, lh: seq<int>, cache: map<int, Block>)
    requires Recoverable(g, d, durable) && DecodeHeader(d[g.start]) == [] && HeaderFits(g, d, lh)
    requires AllCached(lh, cache)
    ensures var head := WithHeader(g, Copied(g, d, lh, cache, |lh|), lh);
            Recoverable(g, head, Overlay(durable, lh, cache)) && DecodeHeader(head[g.start]) == lh && Fits(g, head)
    ensures forall i :: 0 <= i < |lh| ==> Home(g, WithHeader(g, Copied(g, d, lh, cache, |lh|), lh), lh[i])
  {
    hide Overlay, DecodeHeader;
    HeaderWriteCommits(g, d, Copied(g, d, lh, cache, |lh|), durable, lh, cache);
  }

  /** The images from the header write on. */
  lemma AfterHeaderWrite(g: Geometry, head: Disk, committed: Disk, lh: seq<int>, k: nat)
    requires Recoverable(g, head, committed) && DecodeHeader(head[g.start]) == lh
    ensures k <= |lh| ==> Recoverable(g, Install(g, head, lh, k), committed)
    ensures var e := WithHeader(g, Install(g, head, lh, |lh|), []);
            Recoverable(g, e, committed) && SameHome(g, e, committed)
  {
    if k <= |lh| { InstallStaysRecoverable(g, head, committed, k); }
    InstallStaysRecoverable(g, head, committed, |lh|);
    AllInstalled(g, Install(g, head, lh, |lh|), committed, lh);
    HeaderWriteErases(g, Install(g, head, lh, |lh|), committed);
  }

  /** While the header on disk is empty, writing log blocks changes nothing that recovery looks at. */
  lemma CopiedStaysRecoverable(g: Geometry, d: Disk, durable: Disk, lh: seq<int>, cache: map<int, Block>, k: nat)
    requires Recoverable(g, d, durable) && DecodeHeader(d[g.start]) == []
    requires HeaderFits(g, d, lh) && AllCached(lh, cache) && k <= |lh|
    ensures Recoverable(g, Copied(g, d, lh, cache, k), durable)
    ensures Copied(g, d, lh, cache, k)[g.start] == d[g.start]
  {
    var e := Copied(g, d, lh, cache, k);
    assert forall b :: Home(g, e, b) ==> e[b] == d[b];
  }

  /** The header write makes the transaction durable, at once for all its blocks: c is the disk after
      write_log, d the disk before it. */
  lemma HeaderWriteCommits(g: Geometry, d: Disk, c: Disk, durable: Disk, lh: seq<int>, cache: map<int, Block>)
    requires Recoverable(g, d, durable) && DecodeHeader(d[g.start]) == [] && HeaderFits(g, d, lh)
    requires AllCached(lh, cache) && |c| == |d|
    requires forall b :: Home(g, d, b) ==> c[b] == d[b]
    requires forall i :: 0 <= i < |lh| ==> c[g.start + 1 + i] == cache[lh[i]]
    ensures Recoverable(g, WithHeader(g, c, lh), Overlay(durable, lh, cache))
  {
    var e := WithHeader(g, c, lh);
    forall b | Home(g, e, b) && b !in lh ensures e[b] == Overlay(durable, lh, cache)[b] {
      assert Home(g, d, b);
    }
  }

  /** Once everything is home, erasing the header loses nothing. */
  lemma HeaderWriteErases(g: Geometry, d: Disk, durable: Disk)
    requires Fits(g, d) && SameHome(g, d, durable)
    ensures Recoverable(g, WithHeader(g, d, []), durable) && SameHome(g, WithHeader(g, d, []), durable)
  {
    var e := WithHeader(g, d, []);
    forall b | Home(g, e, b) ensures e[b] == durable[b] {
      assert Home(g, d, b);
    }
  }
}
