/** Every action of the log machine keeps its invariant. */
module LogProofs {
  import opened Common
  import opened LogLayout
  import opened LogMachine

  ghost predicate Keeps(g: Geometry, s: State, st: Store, a: Action)
    requires Enabled(g, s, a)
  {
    Inv(g, Apply(g, s, a), Spec(st, LabelOf(g, s, a)))
  }

  // ----- actions that change one cache buffer and nothing else -----

  lemma ReplaceBuf(g: Geometry, s: State, st: Store, i: nat, f: Buf)
    requires Inv(g, s, st) && i < |s.bufs|
    requires BufOk(g, s, st, f)
    requires f.key == s.bufs[i].key || (f.key.Some? && forall j :: 0 <= j < |s.bufs| ==> s.bufs[j].key != f.key)
    requires s.bufs[i].key.Some? && s.bufs[i].key.value in Pinned(s) && s.bufs[i].valid ==>
               f.key == s.bufs[i].key && f.valid
    ensures Inv(g, SetBuf(s, i, f), st)
  {
    var t := SetBuf(s, i, f);
    assert Pinned(t) == Pinned(s);
    forall b | b in Pinned(t) ensures Cached(t, b) {
      assert Cached(s, b);
      var j :| 0 <= j < |s.bufs| && HasKey(s, j, b) && s.bufs[j].valid;
      assert HasKey(t, j, b) && t.bufs[j].valid;
    }
    forall j | 0 <= j < |t.bufs| ensures BufOk(g, t, st, t.bufs[j]) {
      assert BufOk(g, s, st, t.bufs[j]);
    }
  }

  lemma GetHitKeeps(g: Geometry, s: State, st: Store, i: nat, b: int)
    requires Inv(g, s, st) && Enabled(g, s, GetHit(i, b))
    ensures Keeps(g, s, st, GetHit(i, b))
  {
    assert BufOk(g, s, st, s.bufs[i]);
    ReplaceBuf(g, s, st, i, AddRef(s.bufs[i]));
  }

  lemma GetMissKeeps(g: Geometry, s: State, st: Store, i: nat, b: int)
    requires Inv(g, s, st) && Enabled(g, s, GetMiss(i, b))
    ensures Keeps(g, s, st, GetMiss(i, b))
  {
    assert BufOk(g, s, st, s.bufs[i]);
    assert b in Pinned(s) ==> Cached(s, b);
    ReplaceBuf(g, s, st, i, Recycle(s.bufs[i], b));
  }

  lemma LockBufKeeps(g: Geometry, s: State, st: Store, i: nat, tid: nat)
    requires Inv(g, s, st) && Enabled(g, s, LockBuf(i, tid))
    ensures Keeps(g, s, st, LockBuf(i, tid))
  {
    assert BufOk(g, s, st, s.bufs[i]);
    ReplaceBuf(g, s, st, i, s.bufs[i].(lock := Held(tid, false)));
  }

  /** A block that is logged but not installed is never read back from the disk. */
  lemma ReadDiskKeeps(g: Geometry, s: State, st: Store, i: nat)
    requires Inv(g, s, st) && Enabled(g, s, ReadDisk(i))
    ensures Keeps(g, s, st, ReadDisk(i))
  {
    var b := s.bufs[i].key.value;
    assert BufOk(g, s, st, s.bufs[i]);
    assert b in Pinned(s) ==> Cached(s, b);
    assert forall j :: 0 <= j < |s.bufs| && HasKey(s, j, b) ==> i == j;
    UnpinnedIsOnDisk(g, s, st, b);
    ReplaceBuf(g, s, st, i, s.bufs[i].(valid := true, data := s.disk[b]));
  }

  lemma UnpinnedIsOnDisk(g: Geometry, s: State, st: Store, b: int)
    requires Inv(g, s, st) && 0 <= b < |s.disk| && b !in Pinned(s)
    ensures s.disk[b] == View(g, s, st, b)
  {
    match s.phase
    case Installing(tail, _) =>
      assert forall k :: tail <= k < |s.lh| ==> s.lh[k] in s.lh[tail..];
    case _ =>
  }

  lemma ModifyKeeps(g: Geometry, s: State, st: Store, i: nat, data: Block)
    requires Inv(g, s, st) && Enabled(g, s, Modify(i, data))
    ensures Keeps(g, s, st, Modify(i, data))
  {
    assert BufOk(g, s, st, s.bufs[i]);
    ReplaceBuf(g, s, st, i, s.bufs[i].(data := data, lock := Held(s.bufs[i].lock.tid, true)));
  }

  lemma UnlockBufKeeps(g: Geometry, s: State, st: Store, i: nat)
    requires Inv(g, s, st) && Enabled(g, s, UnlockBuf(i))
    ensures Keeps(g, s, st, UnlockBuf(i))
  {
    assert BufOk(g, s, st, s.bufs[i]);
    ReplaceBuf(g, s, st, i, s.bufs[i].(lock := Free));
  }

  lemma PutRefKeeps(g: Geometry, s: State, st: Store, i: nat)
    requires Inv(g, s, st) && Enabled(g, s, PutRef(i))
    ensures Keeps(g, s, st, PutRef(i))
  {
    assert BufOk(g, s, st, s.bufs[i]);
    ReplaceBuf(g, s, st, i, DropRef(s.bufs[i]));
  }

  // ----- operations -----

  lemma {:induction false} UnusedAppend(ops: seq<Op>, op: Op)
    ensures Unused(ops + [op]) == Unused(ops) + MAXOPBLOCKS - op.added
  {
    assert (ops + [op])[..|ops|] == ops;
  }

  lemma {:induction false} UnusedUpdate(ops: seq<Op>, k: nat, op: Op)
    requires k < |ops|
    ensures Unused(ops[k := op]) == Unused(ops) + ops[k].added - op.added
  {
    var n := |ops| - 1;
    if k == n {
      assert ops[k := op][..n] == ops[..n];
    } else {
      assert ops[k := op][..n] == ops[..n][k := op];
      UnusedUpdate(ops[..n], k, op);
    }
  }

  lemma {:induction false} UnusedRemove(ops: seq<Op>, k: nat)
    requires k < |ops|
    ensures Unused(ops[..k] + ops[k + 1..]) == Unused(ops) - (MAXOPBLOCKS - ops[k].added)
  {
    var n := |ops| - 1;
    var r := ops[..k] + ops[k + 1..];
    if k == n {
      assert r == ops[..n];
    } else {
      assert r[..n - 1] == ops[..n][..k] + ops[..n][k + 1..];
      assert r[n - 1] == ops[n];
      UnusedRemove(ops[..n], k);
    }
  }

  lemma {:induction false} UnusedNonNegative(ops: seq<Op>)
    requires forall k :: 0 <= k < |ops| ==> ops[k].added <= MAXOPBLOCKS
    ensures Unused(ops) >= 0
    ensures forall k :: 0 <= k < |ops| ==> Unused(ops) >= MAXOPBLOCKS - ops[k].added
  {
    if ops != [] { UnusedNonNegative(ops[..|ops| - 1]); }
  }

  /** Unused reservations are bounded by the number of operations. */
  lemma {:induction false} UnusedAtMost(ops: seq<Op>)
    ensures Unused(ops) <= |ops| * MAXOPBLOCKS
  {
    if ops != [] { UnusedAtMost(ops[..|ops| - 1]); }
  }

  /** The cache part survives a change of the other fields that keeps the pins and what buffers must
      contain, if every holder of unlogged data is still inside an operation. */
  lemma ContextKeepsCache(g: Geometry, s: State, st: Store, t: State, ut: Store)
    requires |s.disk| == |st.current| && CacheOk(g, s, st)
    requires t.bufs == s.bufs && |t.disk| == |s.disk| == |ut.current|
    requires Pinned(t) == Pinned(s)
    requires forall b :: 0 <= b < |s.disk| ==> View(g, t, ut, b) == View(g, s, st, b)
    requires forall i :: 0 <= i < |s.bufs| && s.bufs[i].lock.Held? && s.bufs[i].lock.touched ==>
               exists k :: 0 <= k < |t.ops| && t.ops[k].tid == s.bufs[i].lock.tid
    ensures CacheOk(g, t, ut)
  {
    forall j | 0 <= j < |t.bufs| ensures BufOk(g, t, ut, t.bufs[j]) {
      assert BufOk(g, s, st, s.bufs[j]);
    }
    forall b | b in Pinned(t) ensures Cached(t, b) {
      assert Cached(s, b);
      var j :| 0 <= j < |s.bufs| && HasKey(s, j, b) && s.bufs[j].valid;
      assert HasKey(t, j, b);
    }
  }

  lemma BeginOpKeeps(g: Geometry, s: State, st: Store, tid: nat)
    requires Inv(g, s, st) && Enabled(g, s, BeginOp(tid))
    ensures Keeps(g, s, st, BeginOp(tid))
  {
    var t := Apply(g, s, BeginOp(tid));
    UnusedAppend(s.ops, Op(tid, 0));
    UnusedAtMost(s.ops);
    forall i | 0 <= i < |s.bufs| && s.bufs[i].lock.Held? && s.bufs[i].lock.touched
      ensures exists k :: 0 <= k < |t.ops| && t.ops[k].tid == s.bufs[i].lock.tid
    {
      assert BufOk(g, s, st, s.bufs[i]);
      var k :| 0 <= k < |s.ops| && s.ops[k].tid == s.bufs[i].lock.tid;
      assert t.ops[k].tid == s.bufs[i].lock.tid;
    }
    ContextKeepsCache(g, s, st, t, st);
  }

  lemma EndOpCache(g: Geometry, s: State, st: Store, op: nat)
    requires Inv(g, s, st) && Enabled(g, s, EndOp(op))
    ensures CacheOk(g, Apply(g, s, EndOp(op)), st)
  {
    var t := Apply(g, s, EndOp(op));
    forall i | 0 <= i < |s.bufs| && s.bufs[i].lock.Held? && s.bufs[i].lock.touched
      ensures exists k :: 0 <= k < |t.ops| && t.ops[k].tid == s.bufs[i].lock.tid
    {
      assert BufOk(g, s, st, s.bufs[i]);
      var k :| 0 <= k < |s.ops| && s.ops[k].tid == s.bufs[i].lock.tid;
      assert k != op;
      assert t.ops[if k < op then k else k - 1].tid == s.bufs[i].lock.tid;
    }
    ContextKeepsCache(g, s, st, t, st);
  }

  lemma EndOpReserved(g: Geometry, s: State, op: nat, t: State)
    requires Reserved(g, s) && op < |s.ops| && s.phase == Open && t.disk == s.disk && t.lh == s.lh
    requires t.ops == s.ops[..op] + s.ops[op + 1..] && t.outstanding == s.outstanding - 1
    requires if t.ops == [] then t.phase.WriteLog? && t.committing else t.phase == Open && !t.committing
    ensures Reserved(g, t)
  {
    UnusedRemove(s.ops, op);
    UnusedNonNegative(s.ops);
    assert forall k :: 0 <= k < |t.ops| ==> t.ops[k] == s.ops[if k < op then k else k + 1];
  }

  lemma EndOpKeeps(g: Geometry, s: State, st: Store, op: nat)
    requires Inv(g, s, st) && Enabled(g, s, EndOp(op))
    ensures Keeps(g, s, st, EndOp(op))
  {
    var t := Apply(g, s, EndOp(op));
    assert t.disk == s.disk && t.lh == s.lh && s.phase == Open;
    EndOpReserved(g, s, op, t);
    EndOpCache(g, s, st, op);
  }

  /** Logging a block: absorbed or appended and pinned. */
  lemma LogWriteKeeps(g: Geometry, s: State, st: Store, i: nat, op: nat)
    requires Inv(g, s, st) && Enabled(g, s, LogWrite(i, op))
    ensures Keeps(g, s, st, LogWrite(i, op))
  {
    var a := LogWrite(i, op);
    var t, ut := Apply(g, s, a), Spec(st, LabelOf(g, s, a));
    var b := s.bufs[i].key.value;
    assert BufOk(g, s, st, s.bufs[i]);
    LogWriteReserved(g, s, b, op, t);
    LogWriteCache(g, s, st, i, b, t);
  }

  lemma LogWriteReserved(g: Geometry, s: State, b: int, op: nat, t: State)
    requires Reserved(g, s) && s.phase == t.phase == Open && op < |s.ops| && Home(g, s.disk, b) && !TooBig(g, s)
    requires t.disk == s.disk && t.outstanding == s.outstanding && t.committing == s.committing
    requires if b in s.lh then t.lh == s.lh && t.ops == s.ops
             else && s.ops[op].added < MAXOPBLOCKS && t.lh == s.lh + [b]
                  && t.ops == s.ops[op := s.ops[op].(added := s.ops[op].added + 1)]
    ensures Reserved(g, t)
  {
    if b !in s.lh { UnusedUpdate(s.ops, op, t.ops[op]); }
  }

  /** The cache part, for a state t that differs from s as log_write of buffer i makes it differ. */
  lemma LogWriteCache(g: Geometry, s: State, st: Store, i: nat, b: int, t: State)
    requires Inv(g, s, st) && s.phase == t.phase == Open && HasKey(s, i, b) && Home(g, s.disk, b) && s.bufs[i].valid
    requires t.disk == s.disk && |t.ops| == |s.ops| && forall k :: 0 <= k < |s.ops| ==> t.ops[k].tid == s.ops[k].tid
    requires forall c :: c in t.lh <==> c in s.lh || c == b
    requires |t.bufs| == |s.bufs| && t.bufs == s.bufs[i := t.bufs[i]] && s.bufs[i].lock.Held?
    requires t.bufs[i] == s.bufs[i].(lock := Held(s.bufs[i].lock.tid, false),
                                     refcnt := s.bufs[i].refcnt + if b in s.lh then 0 else 1)
    ensures CacheOk(g, t, st.(current := st.current[b := s.bufs[i].data]))
  {
    var ut := st.(current := st.current[b := s.bufs[i].data]);
    forall j | 0 <= j < |t.bufs| ensures BufOk(g, t, ut, t.bufs[j]) {
      assert BufOk(g, s, st, s.bufs[j]);
      if j != i { assert t.bufs[j] == s.bufs[j] && s.bufs[j].key != Some(b); }
    }
    forall c | c in Pinned(t) ensures Cached(t, c) {
      assert HasKey(t, i, b) && t.bufs[i].valid;
      if c != b {
        assert Cached(s, c);
        var j :| 0 <= j < |s.bufs| && HasKey(s, j, c) && s.bufs[j].valid;
        assert HasKey(t, j, c) && t.bufs[j].valid;
      }
    }
  }

  // ----- actions that write one disk block -----

  lemma WriteBackCache(g: Geometry, s: State, st: Store, i: nat, b: int, who: nat, data: Block)
    requires |s.disk| == |st.current| && CacheOk(g, s, st)
    requires Owns(s, i, b, who) && 0 <= b < |s.disk|
    requires View(g, WriteBack(s, i, data), st, b) == data
    ensures CacheOk(g, WriteBack(s, i, data), st)
  {
    var t := WriteBack(s, i, data);
    assert Pinned(t) == Pinned(s);
    forall j | 0 <= j < |t.bufs| ensures BufOk(g, t, st, t.bufs[j]) {
      assert BufOk(g, s, st, s.bufs[j]);
    }
    forall c | c in Pinned(t) ensures Cached(t, c) {
      assert Cached(s, c);
      var j :| 0 <= j < |s.bufs| && HasKey(s, j, c) && s.bufs[j].valid;
      assert HasKey(t, j, c);
    }
  }

  /** Outside operations nobody holds unlogged data. */
  lemma QuietMeansLogged(g: Geometry, s: State, st: Store)
    requires |s.disk| == |st.current| && CacheOk(g, s, st) && s.ops == []
    ensures forall i :: 0 <= i < |s.bufs| ==> !(s.bufs[i].lock.Held? && s.bufs[i].lock.touched)
  {
    forall i | 0 <= i < |s.bufs| ensures !(s.bufs[i].lock.Held? && s.bufs[i].lock.touched) {
      assert BufOk(g, s, st, s.bufs[i]);
    }
  }

  /** write_log copies the last logged contents of the block, never stale disk data. */
  lemma CopiedIsCurrent(g: Geometry, s: State, st: Store, tail: nat, who: nat, from: nat)
    requires Inv(g, s, st) && s.phase == WriteLog(tail, who) && tail < |s.lh| && Owns(s, from, s.lh[tail], who)
    ensures s.bufs[from].data == st.current[s.lh[tail]]
  {
    assert BufOk(g, s, st, s.bufs[from]);
  }

  lemma CopyToLogKeeps(g: Geometry, s: State, st: Store, tail: nat, who: nat, to: nat, from: nat)
    requires Inv(g, s, st) && s.phase == WriteLog(tail, who) && tail < |s.lh|
    requires Owns(s, to, g.start + 1 + tail, who) && Owns(s, from, s.lh[tail], who)
    ensures Inv(g, WriteBack(s, to, s.bufs[from].data).(phase := WriteLog(tail + 1, who)), st)
  {
    hide CacheOk, DiskOk;
    WriteBackCache(g, s, st, to, g.start + 1 + tail, who, s.bufs[from].data);
    var m := WriteBack(s, to, s.bufs[from].data);
    QuietMeansLogged(g, m, st);
    var t := m.(phase := WriteLog(tail + 1, who));
    ContextKeepsCache(g, m, st, t, st);
    CopyToLogDisk(g, s, st, tail, who, to, from);
  }

  /** Writing a block of the log area while the header is empty. */
  lemma LogBlockKeeps(g: Geometry, d: Disk, durable: Disk, c: int, data: Block)
    requires Recoverable(g, d, durable) && DecodeHeader(d[g.start]) == [] && g.start < c < g.start + g.size
    ensures Recoverable(g, d[c := data], durable) && d[c := data][g.start] == d[g.start]
  {
  }

  lemma CopyToLogDisk(g: Geometry, s: State, st: Store, tail: nat, who: nat, to: nat, from: nat)
    requires Inv(g, s, st) && s.phase == WriteLog(tail, who) && tail < |s.lh|
    requires Owns(s, to, g.start + 1 + tail, who) && Owns(s, from, s.lh[tail], who)
    ensures var t := WriteBack(s, to, s.bufs[from].data).(phase := WriteLog(tail + 1, who));
            |t.disk| == |s.disk| && DiskOk(g, t, st)
  {
    hide CacheOk, Recoverable;
    CopiedIsCurrent(g, s, st, tail, who, from);
    LogBlockKeeps(g, s.disk, st.durable, g.start + 1 + tail, s.bufs[from].data);
  }

  /** The header write: the whole transaction becomes durable at once. */
  lemma CommitHeadKeeps(g: Geometry, s: State, st: Store, who: nat, i: nat)
    requires Inv(g, s, st) && s.phase == WriteLog(|s.lh|, who) && Owns(s, i, g.start, who)
    ensures Inv(g, WriteBack(s, i, EncodeHeader(s.bufs[i].data, s.lh)).(phase := Installing(0, who)),
                st.(durable := st.current))
  {
    var data := EncodeHeader(s.bufs[i].data, s.lh);
    WriteBackCache(g, s, st, i, g.start, who, data);
    var m := WriteBack(s, i, data);
    QuietMeansLogged(g, m, st);
    var t, ut := m.(phase := Installing(0, who)), st.(durable := st.current);
    assert s.lh[0..] == s.lh;
    ContextKeepsCache(g, m, st, t, ut);
    assert forall c :: 0 <= c < |t.disk| && c != g.start ==> t.disk[c] == s.disk[c];
    assert Recoverable(g, t.disk, ut.durable);
  }

  lemma EraseHeadKeeps(g: Geometry, s: State, st: Store, who: nat, i: nat)
    requires Inv(g, s, st) && s.phase == Installing(|s.lh|, who) && Owns(s, i, g.start, who)
    ensures Inv(g, WriteBack(s, i, EncodeHeader(s.bufs[i].data, [])).(lh := [], phase := Committed(who)), st)
  {
    var data := EncodeHeader(s.bufs[i].data, []);
    WriteBackCache(g, s, st, i, g.start, who, data);
    var m := WriteBack(s, i, data);
    QuietMeansLogged(g, m, st);
    var t := m.(lh := [], phase := Committed(who));
    ContextKeepsCache(g, m, st, t, st);
    assert forall c :: 0 <= c < |t.disk| && c != g.start ==> t.disk[c] == s.disk[c];
    AllInstalled(g, s.disk, st.durable, s.lh);
  }

  lemma ClearHeadKeeps(g: Geometry, s: State, st: Store, i: nat)
    requires Inv(g, s, st) && s.phase == Recovering(|s.lh|) && Owns(s, i, g.start, RECOVERER)
    ensures Inv(g, WriteBack(s, i, EncodeHeader(s.bufs[i].data, [])).(lh := [], phase := Open), st)
  {
    var data := EncodeHeader(s.bufs[i].data, []);
    WriteBackCache(g, s, st, i, g.start, RECOVERER, data);
    var m := WriteBack(s, i, data);
    QuietMeansLogged(g, m, st);
    var t := m.(lh := [], phase := Open);
    AllInstalled(g, s.disk, st.durable, s.lh);
    assert forall c :: 0 <= c < |t.disk| && c != g.start ==> t.disk[c] == s.disk[c];
    assert forall c :: Home(g, t.disk, c) ==> t.disk[c] == st.current[c];
    ContextKeepsCache(g, m, st, t, st);
  }

  /** During install and recovery, the buffer of log block `tail` holds the durable contents. */
  lemma LogBufferIsDurable(g: Geometry, s: State, st: Store, from: nat, tail: nat)
    requires Inv(g, s, st) && (s.phase.Installing? || s.phase.Recovering?) && tail < |s.lh|
    requires HasKey(s, from, g.start + 1 + tail) && s.bufs[from].valid
    ensures g.start + 1 + tail < |s.disk| && s.lh[tail] < |st.durable|
    ensures s.bufs[from].data == s.disk[g.start + 1 + tail] == st.durable[s.lh[tail]]
  {
    hide Inv, Recoverable;
    LogBlockIsDurable(g, s, st, tail);
    LogBufferIsCurrent(g, s, st, from, g.start + 1 + tail);
  }

  lemma LogBlockIsDurable(g: Geometry, s: State, st: Store, tail: nat)
    requires Inv(g, s, st) && (s.phase.Installing? || s.phase.Recovering?) && tail < |s.lh|
    ensures g.start + 1 + tail < |s.disk| && InLog(g, g.start + 1 + tail) && 0 <= s.lh[tail] < |st.durable|
    ensures s.disk[g.start + 1 + tail] == st.durable[s.lh[tail]]
  {
    hide CacheOk;
  }

  /** No commit step runs while a buffer of the log area is being changed. */
  lemma LogBufferIsCurrent(g: Geometry, s: State, st: Store, from: nat, b: int)
    requires Inv(g, s, st) && InLog(g, b) && 0 <= b < |s.disk| && HasKey(s, from, b) && s.bufs[from].valid
    ensures s.bufs[from].data == s.disk[b]
  {
    hide DiskOk, Reserved, Recoverable;
    assert BufOk(g, s, st, s.bufs[from]);
  }

  /** The log and disk part, for both kinds of install. */
  lemma InstallDisk(g: Geometry, s: State, st: Store, tail: nat, t: State)
    requires Inv(g, s, st) && tail < |s.lh|
    requires || (s.phase == Recovering(tail) && t.phase == Recovering(tail + 1))
             || (exists who :: s.phase == Installing(tail, who) && t.phase == Installing(tail + 1, who))
    requires t.disk == s.disk[s.lh[tail] := s.disk[g.start + 1 + tail]]
    requires t.lh == s.lh && t.ops == s.ops && t.outstanding == s.outstanding && t.committing == s.committing
    ensures Fits(g, t.disk) && |t.disk| == |st.current| && Reserved(g, t) && DiskOk(g, t, st)
  {
    InstallOne(g, s.disk, st.durable, s.lh, tail);
  }

  lemma ReinstallBlockKeeps(g: Geometry, s: State, st: Store, tail: nat, from: nat, to: nat)
    requires Inv(g, s, st) && s.phase == Recovering(tail) && tail < |s.lh|
    requires Owns(s, from, g.start + 1 + tail, RECOVERER) && Owns(s, to, s.lh[tail], RECOVERER)
    ensures Inv(g, WriteBack(s, to, s.bufs[from].data).(phase := Recovering(tail + 1)), st)
  {
    LogBufferIsDurable(g, s, st, from, tail);
    WriteBackCache(g, s, st, to, s.lh[tail], RECOVERER, s.bufs[from].data);
    var m := WriteBack(s, to, s.bufs[from].data);
    QuietMeansLogged(g, m, st);
    var t := m.(phase := Recovering(tail + 1));
    ContextKeepsCache(g, m, st, t, st);
    InstallDisk(g, s, st, tail, t);
  }

  lemma InstallBlockKeeps(g: Geometry, s: State, st: Store, tail: nat, who: nat, from: nat, to: nat)
    requires Inv(g, s, st) && s.phase == Installing(tail, who) && tail < |s.lh|
    requires Owns(s, from, g.start + 1 + tail, who) && Owns(s, to, s.lh[tail], who)
    ensures Inv(g, Unpin(WriteBack(s, to, s.bufs[from].data), to), st)
  {
    var data := s.bufs[from].data;
    LogBufferIsDurable(g, s, st, from, tail);
    assert Home(g, st.current, s.lh[tail]) && st.current[s.lh[tail]] == data;
    WriteBackCache(g, s, st, to, s.lh[tail], who, data);
    UnpinInstalled(g, WriteBack(s, to, data), st, to);
    InstallDisk(g, s, st, tail, Unpin(WriteBack(s, to, data), to));
  }

  lemma DropFirst(s: seq<int>, k: nat)
    requires k < |s| && Distinct(s)
    ensures forall c :: c in s[k + 1..] <==> c in s[k..] && c != s[k]
  {
    assert s[k..] == [s[k]] + s[k + 1..];
  }

  lemma UnpinInstalled(g: Geometry, s: State, st: Store, i: nat)
    requires |s.disk| == |st.current| && CacheOk(g, s, st) && HeaderFits(g, s.disk, s.lh)
    requires s.phase.Installing? && s.phase.tail < |s.lh| && HasKey(s, i, s.lh[s.phase.tail])
    ensures CacheOk(g, Unpin(s, i), st)
  {
    hide BufOk;
    var tail, b := s.phase.tail, s.lh[s.phase.tail];
    var t := Unpin(s, i);
    DropFirst(s.lh, tail);
    assert forall c :: c in Pinned(t) <==> c in Pinned(s) && c != b;
    forall j | 0 <= j < |t.bufs| ensures BufOk(g, t, st, t.bufs[j]) {
      UnpinBuf(g, s, st, t, i, j);
    }
    forall c | c in Pinned(t) ensures Cached(t, c) {
      assert Cached(s, c);
      var j :| 0 <= j < |s.bufs| && HasKey(s, j, c) && s.bufs[j].valid;
      assert HasKey(t, j, c);
    }
  }

  lemma UnpinBuf(g: Geometry, s: State, st: Store, t: State, i: nat, j: nat)
    requires |s.disk| == |st.current| && CacheOk(g, s, st)
    requires s.phase.Installing? && s.phase.tail < |s.lh| && HasKey(s, i, s.lh[s.phase.tail]) && j < |s.bufs|
    requires t == Unpin(s, i)
    requires forall c :: c in Pinned(t) <==> c in Pinned(s) && c != s.lh[s.phase.tail]
    ensures BufOk(g, t, st, t.bufs[j])
  {
    assert BufOk(g, s, st, s.bufs[j]);
    assert s.lh[s.phase.tail] == s.lh[s.phase.tail..][0];
  }

  // ----- crash, boot and the end of a commit -----

  lemma CrashKeeps(g: Geometry, s: State, st: Store)
    requires Inv(g, s, st)
    ensures Keeps(g, s, st, Crash)
  {
  }

  lemma ReadHeadKeeps(g: Geometry, s: State, st: Store, i: nat)
    requires Inv(g, s, st) && Enabled(g, s, ReadHead(i))
    ensures Keeps(g, s, st, ReadHead(i))
  {
    assert BufOk(g, s, st, s.bufs[i]);
    hide CacheOk;
    QuietMeansLogged(g, s, st);
    ContextKeepsCache(g, s, st, Apply(g, s, ReadHead(i)), st);
  }

  lemma EndCommitKeeps(g: Geometry, s: State, st: Store)
    requires Inv(g, s, st) && Enabled(g, s, EndCommit)
    ensures Keeps(g, s, st, EndCommit)
  {
    QuietMeansLogged(g, s, st);
    ContextKeepsCache(g, s, st, Apply(g, s, EndCommit), st);
  }

  lemma LogActionKeeps(g: Geometry, s: State, st: Store, a: Action)
    requires Inv(g, s, st) && Enabled(g, s, a) && (a.CopyToLog? || a.CommitHead?)
    ensures Keeps(g, s, st, a)
  {
    hide Inv;
    match a
    case CopyToLog(to, from) =>
      assert Apply(g, s, a) == WriteBack(s, to, s.bufs[from].data).(phase := WriteLog(s.phase.tail + 1, s.phase.who));
      CopyToLogKeeps(g, s, st, s.phase.tail, s.phase.who, to, from);
    case CommitHead(i) =>
      assert Apply(g, s, a) ==
             WriteBack(s, i, EncodeHeader(s.bufs[i].data, s.lh)).(phase := Installing(0, s.phase.who));
      CommitHeadKeeps(g, s, st, s.phase.who, i);
  }

  lemma InstallActionKeeps(g: Geometry, s: State, st: Store, a: Action)
    requires Inv(g, s, st) && Enabled(g, s, a) && (a.InstallBlock? || a.EraseHead?)
    ensures Keeps(g, s, st, a)
  {
    hide Inv;
    match a
    case InstallBlock(from, to) =>
      assert Apply(g, s, a) == Unpin(WriteBack(s, to, s.bufs[from].data), to);
      InstallBlockKeeps(g, s, st, s.phase.tail, s.phase.who, from, to);
    case EraseHead(i) =>
      assert Apply(g, s, a) ==
             WriteBack(s, i, EncodeHeader(s.bufs[i].data, [])).(lh := [], phase := Committed(s.phase.who));
      EraseHeadKeeps(g, s, st, s.phase.who, i);
  }

  lemma RecoveryActionKeeps(g: Geometry, s: State, st: Store, a: Action)
    requires Inv(g, s, st) && Enabled(g, s, a) && (a.ReinstallBlock? || a.ClearHead?)
    ensures Keeps(g, s, st, a)
  {
    hide Inv;
    match a
    case ReinstallBlock(from, to) =>
      assert Apply(g, s, a) == WriteBack(s, to, s.bufs[from].data).(phase := Recovering(s.phase.tail + 1));
      ReinstallBlockKeeps(g, s, st, s.phase.tail, from, to);
    case ClearHead(i) =>
      assert Apply(g, s, a) == WriteBack(s, i, EncodeHeader(s.bufs[i].data, [])).(lh := [], phase := Open);
      ClearHeadKeeps(g, s, st, i);
  }

  lemma ActionKeeps(g: Geometry, s: State, st: Store, a: Action)
    requires Inv(g, s, st) && Enabled(g, s, a)
    ensures Keeps(g, s, st, a)
  {
    hide Inv, Keeps, Apply;
    match a
    case BeginOp(tid) => BeginOpKeeps(g, s, st, tid);
    case GetHit(i, b) => GetHitKeeps(g, s, st, i, b);
    case GetMiss(i, b) => GetMissKeeps(g, s, st, i, b);
    case LockBuf(i, tid) => LockBufKeeps(g, s, st, i, tid);
    case ReadDisk(i) => ReadDiskKeeps(g, s, st, i);
    case Modify(i, data) => ModifyKeeps(g, s, st, i, data);
    case LogWrite(i, op) => LogWriteKeeps(g, s, st, i, op);
    case UnlockBuf(i) => UnlockBufKeeps(g, s, st, i);
    case PutRef(i) => PutRefKeeps(g, s, st, i);
    case EndOp(op) => EndOpKeeps(g, s, st, op);
    case EndCommit => EndCommitKeeps(g, s, st);
    case Crash => CrashKeeps(g, s, st);
    case ReadHead(i) => ReadHeadKeeps(g, s, st, i);
    case CopyToLog(_, _) => LogActionKeeps(g, s, st, a);
    case CommitHead(_) => LogActionKeeps(g, s, st, a);
    case InstallBlock(_, _) => InstallActionKeeps(g, s, st, a);
    case EraseHead(_) => InstallActionKeeps(g, s, st, a);
    case ReinstallBlock(_, _) => RecoveryActionKeeps(g, s, st, a);
    case ClearHead(_) => RecoveryActionKeeps(g, s, st, a);
  }
}
