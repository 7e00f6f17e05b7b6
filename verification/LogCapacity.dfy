/** When log_write's first check (kernel/log.c:220) refuses a write that begin_op reserved room for. A refused write is
    no step of the machine, so this is about attempts: everything else that log_write asks for is met. */
module LogCapacity {
  import opened Common
  import opened LogLayout
  import opened LogMachine
  import opened LogTheorems

  /** Thread s.ops[op].tid is about to call log_write on buffer i, and may: it is inside a transaction. */
  predicate Attempts(g: Geometry, s: State, i: nat, op: nat) {
    && i < |s.bufs| && op < |s.ops| && s.bufs[i].lock.Held? && s.bufs[i].lock.tid == s.ops[op].tid
    && s.bufs[i].valid && s.bufs[i].key.Some? && Home(g, s.disk, s.bufs[i].key.value) && s.outstanding >= 1
  }

  /** The block is new to the header, and the operation has not used up its reservation. */
  predicate AttemptsNew(g: Geometry, s: State, i: nat, op: nat) {
    Attempts(g, s, i, op) && !Absorbs(s, s.bufs[i].key.value) && s.ops[op].added < MAXOPBLOCKS
  }

  /** The block is in the header already, so logging it needs no room. */
  predicate AttemptsOld(g: Geometry, s: State, i: nat, op: nat) {
    Attempts(g, s, i, op) && Absorbs(s, s.bufs[i].key.value)
  }

  /** In every run from s an operation within its reservation finds room. */
  ghost predicate RoomInEveryRun(g: Geometry, s: State) {
    forall acts, i, op ::
      Exec(g, s, acts).Some? && AttemptsNew(g, Exec(g, s, acts).value, i, op) ==> !TooBig(g, Exec(g, s, acts).value)
  }

  /** In every run from s a write that needs no room is accepted. */
  ghost predicate AbsorbedInEveryRun(g: Geometry, s: State) {
    forall acts, i, op ::
      Exec(g, s, acts).Some? && AttemptsOld(g, Exec(g, s, acts).value, i, op) ==> !TooBig(g, Exec(g, s, acts).value)
  }

  /** How many blocks the header can take: the smaller of log_write's two bounds. */
  function Capacity(g: Geometry): int { if g.size - 1 < LOGSIZE then g.size - 1 else LOGSIZE }

  // ----- a run that fills the header -----

  lemma {:induction false} ExecSnoc(g: Geometry, s: State, acts: seq<Action>, a: Action)
    requires Exec(g, s, acts).Some? && Enabled(g, Exec(g, s, acts).value, a)
    ensures Exec(g, s, acts + [a]) == Some(Apply(g, Exec(g, s, acts).value, a))
    decreases |acts|
  {
    hide Enabled, Apply;
    var all := acts + [a];
    if acts == [] {
      assert all == [a] && all[1..] == [];
    } else {
      assert all[0] == acts[0] && all[1..] == acts[1..] + [a];
      ExecSnoc(g, Apply(g, s, acts[0]), acts[1..], a);
    }
  }

  /** The first home block behind the log area. */
  function Base(g: Geometry): nat { g.start + g.size }

  /** What operation j has added when three operations log n blocks one after the other. */
  function Share(n: nat, j: nat): nat {
    if n <= j * MAXOPBLOCKS then 0 else if n >= (j + 1) * MAXOPBLOCKS then MAXOPBLOCKS else n - j * MAXOPBLOCKS
  }

  /** Three operations have logged the n blocks from Base on, each in a buffer of its own. */
  ghost predicate Loaded(g: Geometry, t: State, n: nat) {
    && t.phase == Open && t.outstanding == 3 && !t.committing && |t.lh| == n <= |t.bufs| && Base(g) + g.size <= |t.disk|
    && t.ops == [Op(1, Share(n, 0)), Op(2, Share(n, 1)), Op(3, Share(n, 2))]
    && (forall j :: 0 <= j < n ==> t.lh[j] == Base(g) + j)
    && (forall j :: 0 <= j < n ==>
          t.bufs[j].key == Some(Base(g) + j) && t.bufs[j].valid && t.bufs[j].lock == Free && t.bufs[j].refs >= 1)
    && (forall j :: n <= j < |t.bufs| ==>
          t.bufs[j].refcnt == 0 && t.bufs[j].lock == Free && (t.bufs[j].key.Some? ==> t.bufs[j].key.value < Base(g)))
  }

  /** Buffer n after bread of the next block by thread tid. */
  function Fetched(g: Geometry, t: State, n: nat, tid: nat): State
    requires n < |t.bufs| && Base(g) + n < |t.disk|
  {
    SetBuf(t, n, Buf(Some(Base(g) + n), true, t.disk[Base(g) + n], 1, 1, Held(tid, false)))
  }

  lemma Fetch(g: Geometry, s: State, acts: seq<Action>, n: nat, tid: nat) returns (more: seq<Action>)
    requires Exec(g, s, acts).Some? && Loaded(g, Exec(g, s, acts).value, n)
    requires n < |Exec(g, s, acts).value.bufs| && n < g.size
    ensures Exec(g, s, more) == Some(Fetched(g, Exec(g, s, acts).value, n, tid))
  {
    var t := Exec(g, s, acts).value;
    var b := Base(g) + n;
    ExecSnoc(g, s, acts, GetMiss(n, b));
    var t1 := SetBuf(t, n, Recycle(t.bufs[n], b));
    var a1 := acts + [GetMiss(n, b)];
    assert Exec(g, s, a1) == Some(t1);
    ExecSnoc(g, s, a1, LockBuf(n, tid));
    var t2 := SetBuf(t1, n, t1.bufs[n].(lock := Held(tid, false)));
    var a2 := a1 + [LockBuf(n, tid)];
    assert Exec(g, s, a2) == Some(t2);
    ExecSnoc(g, s, a2, ReadDisk(n));
    more := a2 + [ReadDisk(n)];
    assert Fetched(g, t, n, tid).bufs == t2.bufs[n := t2.bufs[n].(valid := true, data := t2.disk[b])];
  }

  /** After that block has been logged and its buffer unlocked. */
  function Logged(g: Geometry, t: State, n: nat, op: nat): State
    requires n < |t.bufs| && Base(g) + n < |t.disk| && op < |t.ops|
  {
    t.(bufs := t.bufs[n := Buf(Some(Base(g) + n), true, t.disk[Base(g) + n], 2, 1, Free)], lh := t.lh + [Base(g) + n],
       ops := t.ops[op := t.ops[op].(added := t.ops[op].added + 1)])
  }

  lemma LoadedNext(g: Geometry, t: State, n: nat)
    requires Loaded(g, t, n) && n < |t.bufs| && n < Capacity(g)
    ensures Loaded(g, Logged(g, t, n, n / MAXOPBLOCKS), n + 1)
  {
    var op := n / MAXOPBLOCKS;
    assert t.ops[op := t.ops[op].(added := t.ops[op].added + 1)] ==
           [Op(1, Share(n + 1, 0)), Op(2, Share(n + 1, 1)), Op(3, Share(n + 1, 2))];
  }

  lemma LogFetched(g: Geometry, t: State, n: nat)
    requires Loaded(g, t, n) && n < |t.bufs| && n < Capacity(g)
    ensures var op := n / MAXOPBLOCKS; var u := Fetched(g, t, n, op + 1);
            && Enabled(g, u, LogWrite(n, op)) && Enabled(g, Apply(g, u, LogWrite(n, op)), UnlockBuf(n))
            && Apply(g, Apply(g, u, LogWrite(n, op)), UnlockBuf(n)) == Logged(g, t, n, op)
  {
    var op := n / MAXOPBLOCKS;
    var u := Fetched(g, t, n, op + 1);
    assert Base(g) + n !in u.lh;
    var v := Apply(g, u, LogWrite(n, op));
    assert v.bufs[n := v.bufs[n].(lock := Free)] == Logged(g, t, n, op).bufs;
  }

  lemma LogNext(g: Geometry, s: State, acts: seq<Action>, n: nat) returns (more: seq<Action>)
    requires Exec(g, s, acts).Some? && Loaded(g, Exec(g, s, acts).value, n)
    requires n < |Exec(g, s, acts).value.bufs| && n < Capacity(g)
    ensures Exec(g, s, more).Some? && Loaded(g, Exec(g, s, more).value, n + 1)
    ensures |Exec(g, s, more).value.bufs| == |Exec(g, s, acts).value.bufs|
  {
    hide Loaded, Enabled, Apply, Exec;
    var op := n / MAXOPBLOCKS;
    var t := Exec(g, s, acts).value;
    LoadedShape(g, t, n);
    LogFetched(g, t, n);
    LoadedNext(g, t, n);
    more := Fetch(g, s, acts, n, op + 1);
    ExecSnoc(g, s, more, LogWrite(n, op));
    more := more + [LogWrite(n, op)];
    ExecSnoc(g, s, more, UnlockBuf(n));
    more := more + [UnlockBuf(n)];
  }

  lemma LoadedShape(g: Geometry, t: State, n: nat)
    requires Loaded(g, t, n)
    ensures n <= |t.bufs| && Base(g) + g.size <= |t.disk| && |t.ops| == 3 && |t.lh| == n
  {
  }

  lemma {:induction false} LogMany(g: Geometry, s: State, acts: seq<Action>, n: nat, k: nat) returns (more: seq<Action>)
    requires Exec(g, s, acts).Some? && Loaded(g, Exec(g, s, acts).value, n)
    requires n <= k <= |Exec(g, s, acts).value.bufs| && k <= Capacity(g)
    ensures Exec(g, s, more).Some? && Loaded(g, Exec(g, s, more).value, k)
    ensures |Exec(g, s, more).value.bufs| == |Exec(g, s, acts).value.bufs|
    decreases k - n
  {
    hide Exec, Loaded;
    more := acts;
    if n < k {
      more := LogNext(g, s, acts, n);
      more := LogMany(g, s, more, n + 1, k);
    }
  }

  // ----- from power-on to three operations -----

  /** initlog on an empty log, the header's buffer given back, and three calls of begin_op. */
  lemma StartUp(g: Geometry, s: State, st: Store) returns (acts: seq<Action>)
    requires Init(g, s, st) && |s.bufs| >= 1 && Base(g) + g.size <= |s.disk|
    ensures Exec(g, s, acts).Some? && Loaded(g, Exec(g, s, acts).value, 0)
    ensures |Exec(g, s, acts).value.bufs| == |s.bufs|
  {
    hide Exec;
    acts := Recovered(g, s, st);
    var t := Exec(g, s, acts).value;
    var t1 := t.(outstanding := 1, ops := [Op(1, 0)]);
    ExecSnoc(g, s, acts, BeginOp(1));
    acts := acts + [BeginOp(1)];
    assert t.ops + [Op(1, 0)] == t1.ops;
    assert Exec(g, s, acts) == Some(t1);
    var t2 := t1.(outstanding := 2, ops := [Op(1, 0), Op(2, 0)]);
    ExecSnoc(g, s, acts, BeginOp(2));
    acts := acts + [BeginOp(2)];
    assert t1.ops + [Op(2, 0)] == t2.ops;
    assert Exec(g, s, acts) == Some(t2);
    ExecSnoc(g, s, acts, BeginOp(3));
    acts := acts + [BeginOp(3)];
    assert t2.ops + [Op(3, 0)] == [Op(1, 0), Op(2, 0), Op(3, 0)];
  }

  /** The log is open and every buffer unused. */
  ghost predicate Fresh(g: Geometry, t: State, bufs: nat, disk: nat) {
    && t.phase == Open && t.outstanding == 0 && !t.committing && t.lh == [] && t.ops == []
    && |t.bufs| == bufs && |t.disk| == disk
    && (forall j :: 0 <= j < |t.bufs| ==>
          t.bufs[j].refcnt == 0 && t.bufs[j].lock == Free && (t.bufs[j].key.Some? ==> t.bufs[j].key.value == g.start))
  }

  /** recover_from_log of an empty header through buffer 0. */
  lemma Recovered(g: Geometry, s: State, st: Store) returns (acts: seq<Action>)
    requires Init(g, s, st) && |s.bufs| >= 1
    ensures Exec(g, s, acts).Some? && Fresh(g, Exec(g, s, acts).value, |s.bufs|, |s.disk|)
  {
    hide Exec, Enabled, Apply;
    acts := HeadRead(g, s, st);
    var f := Buf(Some(g.start), true, s.disk[g.start], 1, 1, Held(RECOVERER, false));
    HeadCleared(g, s, st, f);
    ExecSnoc(g, s, acts, ReadHead(0));
    acts := acts + [ReadHead(0)];
    ExecSnoc(g, s, acts, ClearHead(0));
    acts := acts + [ClearHead(0)];
    var t := Exec(g, s, acts).value;
    HeadGivenBack(g, t);
    ExecSnoc(g, s, acts, UnlockBuf(0));
    acts := acts + [UnlockBuf(0)];
    ExecSnoc(g, s, acts, PutRef(0));
    acts := acts + [PutRef(0)];
    assert forall j :: 1 <= j < |s.bufs| ==> t.bufs[j] == EmptyBuf;
  }

  lemma HeadCleared(g: Geometry, s: State, st: Store, f: Buf)
    requires Init(g, s, st) && |s.bufs| >= 1
    requires f == Buf(Some(g.start), true, s.disk[g.start], 1, 1, Held(RECOVERER, false))
    ensures var t := SetBuf(s, 0, f); var f' := f.(data := EncodeHeader(f.data, []));
            && Enabled(g, t, ReadHead(0)) && Enabled(g, Apply(g, t, ReadHead(0)), ClearHead(0))
            && Apply(g, Apply(g, t, ReadHead(0)), ClearHead(0)) ==
                 State(s.disk[g.start := f'.data], s.bufs[0 := f'], [], 0, false, [], Open)
  {
    var f' := f.(data := EncodeHeader(f.data, []));
    assert s.bufs[0 := f][0 := f'] == s.bufs[0 := f'];
  }

  lemma HeadGivenBack(g: Geometry, t: State)
    requires |t.bufs| >= 1 && t.bufs[0].lock == Held(RECOVERER, false) && t.bufs[0].refs == 1
    ensures Enabled(g, t, UnlockBuf(0)) && Enabled(g, Apply(g, t, UnlockBuf(0)), PutRef(0))
    ensures var f := t.bufs[0];
            Apply(g, Apply(g, t, UnlockBuf(0)), PutRef(0)) ==
            SetBuf(t, 0, f.(lock := Free, refs := 0, refcnt := f.refcnt - 1))
  {
    var f := t.bufs[0];
    assert t.bufs[0 := f.(lock := Free)][0 := f.(lock := Free, refs := 0, refcnt := f.refcnt - 1)] ==
           t.bufs[0 := f.(lock := Free, refs := 0, refcnt := f.refcnt - 1)];
  }

  lemma HeadRead(g: Geometry, s: State, st: Store) returns (acts: seq<Action>)
    requires Init(g, s, st) && |s.bufs| >= 1
    ensures Exec(g, s, acts) ==
              Some(SetBuf(s, 0, Buf(Some(g.start), true, s.disk[g.start], 1, 1, Held(RECOVERER, false))))
  {
    hide Exec;
    assert s.bufs[0] == EmptyBuf && forall j :: 0 <= j < |s.bufs| ==> s.bufs[j].key == None;
    NoActions(g, s);
    acts := [];
    ExecSnoc(g, s, acts, GetMiss(0, g.start));
    acts := acts + [GetMiss(0, g.start)];
    var t1 := SetBuf(s, 0, Recycle(s.bufs[0], g.start));
    assert Exec(g, s, acts) == Some(t1);
    ExecSnoc(g, s, acts, LockBuf(0, RECOVERER));
    acts := acts + [LockBuf(0, RECOVERER)];
    var t2 := SetBuf(t1, 0, t1.bufs[0].(lock := Held(RECOVERER, false)));
    assert Exec(g, s, acts) == Some(t2);
    ExecSnoc(g, s, acts, ReadDisk(0));
    acts := acts + [ReadDisk(0)];
    var f := Buf(Some(g.start), true, s.disk[g.start], 1, 1, Held(RECOVERER, false));
    assert t2.bufs[0 := f] == s.bufs[0 := f];
  }

  lemma NoActions(g: Geometry, s: State)
    ensures Exec(g, s, []) == Some(s)
  {
  }

  // ----- the exact conditions -----

  /** If the log area is short of LOGSIZE blocks besides its header, some run has an operation within its reservation
      whose log_write panics. */
  lemma ShortLogRefuses(g: Geometry, s: State, st: Store) returns (acts: seq<Action>, i: nat, op: nat)
    requires Init(g, s, st) && g.size - 1 < LOGSIZE && |s.bufs| >= g.size && g.start + 2 * g.size <= |s.disk|
    ensures Exec(g, s, acts).Some?
    ensures AttemptsNew(g, Exec(g, s, acts).value, i, op) && TooBig(g, Exec(g, s, acts).value)
  {
    hide Exec;
    acts := StartUp(g, s, st);
    acts := LogMany(g, s, acts, 0, g.size - 1);
    i, op := g.size - 1, (g.size - 1) / MAXOPBLOCKS;
    acts := Fetch(g, s, acts, i, op + 1);
  }

  /** The image that mkfs makes has a log of LOGSIZE blocks, header included, and NBUF is LOGSIZE. */
  lemma ShippedImageRefuses(g: Geometry, s: State, st: Store) returns (acts: seq<Action>, i: nat, op: nat)
    requires Init(g, s, st) && g.size == |s.bufs| == LOGSIZE && g.start + 2 * LOGSIZE <= |s.disk|
    ensures Exec(g, s, acts).Some? && |Exec(g, s, acts).value.lh| == 29
    ensures AttemptsNew(g, Exec(g, s, acts).value, i, op) && TooBig(g, Exec(g, s, acts).value)
  {
    hide Exec;
    acts := StartUp(g, s, st);
    acts := LogMany(g, s, acts, 0, 29);
    i, op := 29, 2;
    acts := Fetch(g, s, acts, i, op + 1);
  }

  /** Every operation within its reservation finds room in every run if and only if the log area has LOGSIZE blocks
      besides its header. */
  lemma RoomExactly(g: Geometry, s: State, st: Store)
    requires Init(g, s, st) && |s.bufs| >= g.size && g.start + 2 * g.size <= |s.disk|
    ensures RoomInEveryRun(g, s) <==> g.size - 1 >= LOGSIZE
  {
    hide Exec, Init, TooBig, AttemptsNew;
    if g.size - 1 < LOGSIZE {
      var acts, i, op := ShortLogRefuses(g, s, st);
      assert !RoomInEveryRun(g, s);
    } else {
      forall acts, i, op | Exec(g, s, acts).Some? && AttemptsNew(g, Exec(g, s, acts).value, i, op)
        ensures !TooBig(g, Exec(g, s, acts).value)
      {
        ReservationsHold(g, s, st, acts);
        WithinReservation(g, Exec(g, s, acts).value, i, op);
      }
    }
  }

  lemma WithinReservation(g: Geometry, t: State, i: nat, op: nat)
    requires AttemptsNew(g, t, i, op)
    ensures op < |t.ops| && t.ops[op].added < MAXOPBLOCKS
  {
  }

  /** Whatever the geometry, some run has a write refused that needs no room, because the check comes before the search
      for the block. */
  lemma AbsorbedIsRefused(g: Geometry, s: State, st: Store)
    requires Init(g, s, st) && g.size >= 2 && |s.bufs| >= Capacity(g) && g.start + 2 * g.size <= |s.disk|
    ensures !AbsorbedInEveryRun(g, s)
  {
    hide Exec;
    var acts := StartUp(g, s, st);
    acts := LogMany(g, s, acts, 0, Capacity(g));
    var t := Exec(g, s, acts).value;
    ExecSnoc(g, s, acts, LockBuf(0, 1));
    var more := acts + [LockBuf(0, 1)];
    assert AttemptsOld(g, Exec(g, s, more).value, 0, 0) && TooBig(g, Exec(g, s, more).value) by {
      assert t.lh[0] == Base(g);
    }
  }

  /** Short of a full header every attempt is accepted, absorbed or new, so a full header is the whole failing
      family. */
  lemma RefusedExactlyWhenFull(g: Geometry, s: State, i: nat, op: nat)
    requires AttemptsNew(g, s, i, op) || AttemptsOld(g, s, i, op)
    ensures Enabled(g, s, LogWrite(i, op)) <==> |s.lh| < Capacity(g)
  {
  }
}
