/** The log and the buffer cache as one machine (kernel/log.c, kernel/bio.c). Every single-block disk
    write is one action, actions of different threads interleave freely, and a crash may fall between
    any two of them, also while recovering. */
module LogMachine {
  import opened Common
  import opened LogLayout

  /** The buffer's sleep-lock. `touched` says the holder changed the data and has not yet logged it. */
  datatype BufLock = Free | Held(tid: nat, touched: bool)

  /** One cache buffer. `key` is None while the buffer still names device 0, as binit leaves it.
      `refs` counts the references handed out by bget and not yet given back by brelse. */
  datatype Buf = Buf(key: Option<int>, valid: bool, data: Block, refcnt: int, refs: nat, lock: BufLock)

  /** A file-system call between begin_op and end_op, and how many header entries it has added. */
  datatype Op = Op(tid: nat, added: nat)

  /** Where log.c is: booting (recover_from_log), open for operations, or inside commit(). `who` is
      the thread that executes commit(). */
  datatype Phase =
    | Boot
    | Recovering(tail: nat)
    | Open
    | WriteLog(tail: nat, who: nat)
    | Installing(tail: nat, who: nat)
    | Committed(who: nat)

  datatype State = State(disk: Disk, bufs: seq<Buf>, lh: seq<int>, outstanding: int,
                         committing: bool, ops: seq<Op>, phase: Phase)

  datatype Action =
    | BeginOp(tid: nat)
    | GetHit(i: nat, b: int)
    | GetMiss(i: nat, b: int)
    | LockBuf(i: nat, tid: nat)
    | ReadDisk(i: nat)
    | Modify(i: nat, data: Block)
    | LogWrite(i: nat, op: nat)
    | UnlockBuf(i: nat)
    | PutRef(i: nat)
    | EndOp(op: nat)
    | CopyToLog(to: nat, from: nat)
    | CommitHead(i: nat)
    | InstallBlock(from: nat, to: nat)
    | EraseHead(i: nat)
    | EndCommit
    | Crash
    | ReadHead(i: nat)
    | ReinstallBlock(from: nat, to: nat)
    | ClearHead(i: nat)

  // ----- the specification: an atomic transaction store -----

  datatype Label = Tau | Update(b: int, data: Block) | Commit | Lose

  /** What a crash would preserve, and what running file-system calls see. */
  datatype Store = Store(durable: Disk, current: Disk)

  function Spec(st: Store, l: Label): Store {
    match l
    case Tau => st
    case Update(b, data) => if 0 <= b < |st.current| then st.(current := st.current[b := data]) else st
    case Commit => st.(durable := st.current)
    case Lose => st.(current := st.durable)
  }

  // ----- the machine -----

  /** The thread that runs recovery. Nothing else runs until it is done. */
  const RECOVERER: nat := 0

  const EmptyBuf := Buf(None, false, seq(BLOCKWORDS, _ => 0), 0, 0, Free)

  /** Blocks whose buffer carries a pin: logged, not yet installed. */
  function Pinned(s: State): seq<int> {
    match s.phase
    case Boot => []
    case Recovering(_) => []
    case Installing(tail, _) => if tail <= |s.lh| then s.lh[tail..] else []
    case _ => s.lh
  }

  predicate HasKey(s: State, i: nat, b: int) {
    i < |s.bufs| && s.bufs[i].key == Some(b)
  }

  /** Buffer i holds block b, has been read, and thread `who` owns its lock without unlogged changes. */
  predicate Owns(s: State, i: nat, b: int, who: nat) {
    HasKey(s, i, b) && s.bufs[i].valid && s.bufs[i].lock == Held(who, false)
  }

  predicate Absorbs(s: State, b: int) {
    b in s.lh
  }

  /** log_write's first check. */
  predicate TooBig(g: Geometry, s: State) {
    |s.lh| >= LOGSIZE || |s.lh| >= g.size - 1
  }

  /** begin_op's admission test. */
  predicate Admits(s: State) {
    !s.committing && |s.lh| + (s.outstanding + 1) * MAXOPBLOCKS <= LOGSIZE
  }

  predicate Enabled(g: Geometry, s: State, a: Action) {
    match a
    case BeginOp(tid) =>
      s.phase != Boot && !s.phase.Recovering? && Admits(s) && forall k :: 0 <= k < |s.ops| ==> s.ops[k].tid != tid
    case GetHit(i, b) =>
      HasKey(s, i, b)
    case GetMiss(i, b) =>
      && i < |s.bufs| && s.bufs[i].refcnt == 0 && 0 <= b < |s.disk|
      && forall j :: 0 <= j < |s.bufs| ==> s.bufs[j].key != Some(b)
    case LockBuf(i, tid) =>
      i < |s.bufs| && s.bufs[i].lock == Free && s.bufs[i].refs >= 1
    case ReadDisk(i) =>
      i < |s.bufs| && s.bufs[i].lock.Held? && !s.bufs[i].valid
      && s.bufs[i].key.Some? && 0 <= s.bufs[i].key.value < |s.disk|
    case Modify(i, data) =>
      && i < |s.bufs| && s.bufs[i].lock.Held? && s.bufs[i].valid
      && s.bufs[i].key.Some? && Home(g, s.disk, s.bufs[i].key.value)
      && exists k :: 0 <= k < |s.ops| && s.ops[k].tid == s.bufs[i].lock.tid
    case LogWrite(i, op) =>
      && i < |s.bufs| && op < |s.ops| && s.bufs[i].lock.Held? && s.bufs[i].lock.tid == s.ops[op].tid
      && s.bufs[i].valid && s.bufs[i].key.Some? && Home(g, s.disk, s.bufs[i].key.value)
      && !TooBig(g, s) && s.outstanding >= 1
      && (Absorbs(s, s.bufs[i].key.value) || s.ops[op].added < MAXOPBLOCKS)
    case UnlockBuf(i) =>
      i < |s.bufs| && s.bufs[i].lock.Held? && !s.bufs[i].lock.touched
    case PutRef(i) =>
      i < |s.bufs| && s.bufs[i].refs >= (if s.bufs[i].lock.Held? then 2 else 1)
    case EndOp(op) =>
      && op < |s.ops| && !s.committing
      && forall i :: 0 <= i < |s.bufs| ==> s.bufs[i].lock != Held(s.ops[op].tid, true)
    case CopyToLog(to, from) =>
      && s.phase.WriteLog? && s.phase.tail < |s.lh|
      && g.start + 1 + s.phase.tail < |s.disk|
      && Owns(s, to, g.start + 1 + s.phase.tail, s.phase.who)
      && Owns(s, from, s.lh[s.phase.tail], s.phase.who)
    case CommitHead(i) =>
      && s.phase.WriteLog? && s.phase.tail == |s.lh| <= LOGSIZE && s.lh != []
      && g.start < |s.disk| && Owns(s, i, g.start, s.phase.who)
    case InstallBlock(from, to) =>
      && s.phase.Installing? && s.phase.tail < |s.lh| && 0 <= s.lh[s.phase.tail] < |s.disk|
      && Owns(s, from, g.start + 1 + s.phase.tail, s.phase.who)
      && Owns(s, to, s.lh[s.phase.tail], s.phase.who)
    case EraseHead(i) =>
      && s.phase.Installing? && s.phase.tail == |s.lh|
      && g.start < |s.disk| && Owns(s, i, g.start, s.phase.who)
    case EndCommit => s.phase.Committed? || (s.phase.WriteLog? && s.lh == [])
    case Crash => true
    case ReadHead(i) =>
      && s.phase.Boot? && Owns(s, i, g.start, RECOVERER) && HeaderCountOk(s.bufs[i].data)
    case ReinstallBlock(from, to) =>
      && s.phase.Recovering? && s.phase.tail < |s.lh| && 0 <= s.lh[s.phase.tail] < |s.disk|
      && Owns(s, from, g.start + 1 + s.phase.tail, RECOVERER)
      && Owns(s, to, s.lh[s.phase.tail], RECOVERER)
    case ClearHead(i) =>
      && s.phase.Recovering? && s.phase.tail == |s.lh|
      && g.start < |s.disk| && Owns(s, i, g.start, RECOVERER)
  }

  function SetBuf(s: State, i: nat, f: Buf): State
    requires i < |s.bufs|
  {
    s.(bufs := s.bufs[i := f])
  }

  function AddRef(f: Buf): Buf {
    f.(refcnt := f.refcnt + 1, refs := f.refs + 1)
  }

  function DropRef(f: Buf): Buf
    requires f.refs >= 1
  {
    f.(refcnt := f.refcnt - 1, refs := f.refs - 1)
  }

  /** bget's miss path. */
  function Recycle(f: Buf, b: int): Buf {
    f.(key := Some(b), valid := false, refcnt := 1, refs := 1)
  }

  /** bwrite of buffer i after its data became `data`. */
  function WriteBack(s: State, i: nat, data: Block): State
    requires i < |s.bufs| && s.bufs[i].key.Some? && 0 <= s.bufs[i].key.value < |s.disk|
  {
    s.(bufs := s.bufs[i := s.bufs[i].(data := data)], disk := s.disk[s.bufs[i].key.value := data])
  }

  /** bunpin of the block just installed. */
  function Unpin(s: State, i: nat): State
    requires i < |s.bufs| && s.phase.Installing?
  {
    s.(bufs := s.bufs[i := s.bufs[i].(refcnt := s.bufs[i].refcnt - 1)],
       phase := Installing(s.phase.tail + 1, s.phase.who))
  }

  function Apply(g: Geometry, s: State, a: Action): State
    requires Enabled(g, s, a)
  {
    match a
    case BeginOp(tid) => s.(outstanding := s.outstanding + 1, ops := s.ops + [Op(tid, 0)])
    case GetHit(i, b) => SetBuf(s, i, AddRef(s.bufs[i]))
    case GetMiss(i, b) => SetBuf(s, i, Recycle(s.bufs[i], b))
    case LockBuf(i, tid) => SetBuf(s, i, s.bufs[i].(lock := Held(tid, false)))
    case ReadDisk(i) => SetBuf(s, i, s.bufs[i].(valid := true, data := s.disk[s.bufs[i].key.value]))
    case Modify(i, data) => SetBuf(s, i, s.bufs[i].(data := data, lock := Held(s.bufs[i].lock.tid, true)))
    case LogWrite(i, op) =>
      var b := s.bufs[i].key.value;
      var logged := s.bufs[i].(lock := Held(s.bufs[i].lock.tid, false));
      if Absorbs(s, b) then s.(bufs := s.bufs[i := logged])
      else s.(bufs := s.bufs[i := logged.(refcnt := logged.refcnt + 1)],
              lh := s.lh + [b],
              ops := s.ops[op := s.ops[op].(added := s.ops[op].added + 1)])
    case UnlockBuf(i) => SetBuf(s, i, s.bufs[i].(lock := Free))
    case PutRef(i) => SetBuf(s, i, DropRef(s.bufs[i]))
    case EndOp(op) =>
      var t := s.(outstanding := s.outstanding - 1, ops := s.ops[..op] + s.ops[op + 1..]);
      if t.outstanding == 0 then t.(committing := true, phase := WriteLog(0, s.ops[op].tid)) else t
    case CopyToLog(to, from) =>
      WriteBack(s, to, s.bufs[from].data).(phase := WriteLog(s.phase.tail + 1, s.phase.who))
    case CommitHead(i) =>
      WriteBack(s, i, EncodeHeader(s.bufs[i].data, s.lh)).(phase := Installing(0, s.phase.who))
    case InstallBlock(from, to) =>
      Unpin(WriteBack(s, to, s.bufs[from].data), to)
    case EraseHead(i) =>
      WriteBack(s, i, EncodeHeader(s.bufs[i].data, [])).(lh := [], phase := Committed(s.phase.who))
    case EndCommit => s.(committing := false, phase := Open)
    case Crash => State(s.disk, seq(|s.bufs|, _ => EmptyBuf), [], 0, false, [], Boot)
    case ReadHead(i) => s.(lh := DecodeHeader(s.bufs[i].data), phase := Recovering(0))
    case ReinstallBlock(from, to) =>
      WriteBack(s, to, s.bufs[from].data).(phase := Recovering(s.phase.tail + 1))
    case ClearHead(i) =>
      WriteBack(s, i, EncodeHeader(s.bufs[i].data, [])).(lh := [], phase := Open)
  }

  /** What an action means to the specification. */
  function LabelOf(g: Geometry, s: State, a: Action): Label
    requires Enabled(g, s, a)
  {
    match a
    case LogWrite(i, _) => Update(s.bufs[i].key.value, s.bufs[i].data)
    case CommitHead(_) => Commit
    case Crash => Lose
    case _ => Tau
  }

  // ----- the invariant -----

  function Unused(ops: seq<Op>): int {
    if ops == [] then 0 else MAXOPBLOCKS - ops[|ops| - 1].added + Unused(ops[..|ops| - 1])
  }

  /** Reservation bookkeeping. */
  ghost predicate Reserved(g: Geometry, s: State) {
    && s.outstanding == |s.ops|
    && (forall j, k :: 0 <= j < k < |s.ops| ==> s.ops[j].tid != s.ops[k].tid)
    && (forall k :: 0 <= k < |s.ops| ==> s.ops[k].added <= MAXOPBLOCKS)
    && |s.lh| + Unused(s.ops) <= LOGSIZE
    && HeaderFits(g, s.disk, s.lh)
    && (s.committing <==> s.phase.WriteLog? || s.phase.Installing? || s.phase.Committed?)
    && (s.phase != Open ==> s.ops == [])
  }

  /** What a valid buffer for block b must contain when nobody is in the middle of changing it. */
  function View(g: Geometry, s: State, st: Store, b: int): Block
    requires 0 <= b < |s.disk| == |st.current|
  {
    if InLog(g, b) || s.phase.Boot? || s.phase.Recovering? then s.disk[b] else st.current[b]
  }

  /** Buffer f is sound in the context of the rest of state s. */
  ghost predicate BufOk(g: Geometry, s: State, st: Store, f: Buf)
    requires |s.disk| == |st.current|
  {
    && (f.key.Some? ==> 0 <= f.key.value < |s.disk|)
    && f.refcnt == f.refs + (if f.key.Some? && f.key.value in Pinned(s) then 1 else 0)
    && (f.lock.Held? ==> f.refs >= 1)
    && (f.refs >= 1 ==> f.key.Some?)
    && (f.valid ==> f.key.Some?)
    && (f.lock.Held? && f.lock.touched ==>
          f.valid && Home(g, s.disk, f.key.value) && exists k :: 0 <= k < |s.ops| && s.ops[k].tid == f.lock.tid)
    && (f.valid && !(f.lock.Held? && f.lock.touched) ==> f.data == View(g, s, st, f.key.value))
  }

  ghost predicate Cached(s: State, b: int) {
    exists i :: 0 <= i < |s.bufs| && HasKey(s, i, b) && s.bufs[i].valid
  }

  ghost predicate CacheOk(g: Geometry, s: State, st: Store)
    requires |s.disk| == |st.current|
  {
    && (forall i :: 0 <= i < |s.bufs| ==> BufOk(g, s, st, s.bufs[i]))
    && (forall i, j :: 0 <= i < j < |s.bufs| && s.bufs[i].key.Some? ==> s.bufs[i].key != s.bufs[j].key)
    && (forall b :: b in Pinned(s) ==> Cached(s, b))
  }

  /** How the disk image relates to the specification, phase by phase. */
  ghost predicate DiskOk(g: Geometry, s: State, st: Store)
    requires Fits(g, s.disk) && |s.disk| == |st.current| == |st.durable| && HeaderFits(g, s.disk, s.lh)
  {
    && Recoverable(g, s.disk, st.durable)
    && var onDisk := DecodeHeader(s.disk[g.start]);
    match s.phase
    case Boot => s.lh == [] && SameHome(g, st.current, st.durable)
    case Recovering(tail) =>
      && tail <= |s.lh| && onDisk == s.lh && SameHome(g, st.current, st.durable)
      && forall i :: 0 <= i < tail ==> s.disk[s.lh[i]] == st.durable[s.lh[i]]
    case Open => onDisk == [] && forall b :: Home(g, s.disk, b) && b !in s.lh ==> st.current[b] == st.durable[b]
    case WriteLog(tail, _) =>
      && tail <= |s.lh| && onDisk == []
      && (forall b :: Home(g, s.disk, b) && b !in s.lh ==> st.current[b] == st.durable[b])
      && forall i :: 0 <= i < tail ==> s.disk[g.start + 1 + i] == st.current[s.lh[i]]
    case Installing(tail, _) =>
      && tail <= |s.lh| && onDisk == s.lh && SameHome(g, st.current, st.durable)
      && forall i :: 0 <= i < tail ==> s.disk[s.lh[i]] == st.durable[s.lh[i]]
    case Committed(_) => s.lh == [] && onDisk == [] && SameHome(g, st.current, st.durable)
  }

  ghost predicate Inv(g: Geometry, s: State, st: Store) {
    && Fits(g, s.disk) && |s.disk| == |st.current| == |st.durable|
    && Reserved(g, s)
    && CacheOk(g, s, st)
    && DiskOk(g, s, st)
  }

  /** Power-on with a freshly made file system: an empty header. */
  ghost predicate Init(g: Geometry, s: State, st: Store) {
    && Fits(g, s.disk) && HeaderCountOk(s.disk[g.start]) && DecodeHeader(s.disk[g.start]) == []
    && s == State(s.disk, seq(|s.bufs|, _ => EmptyBuf), [], 0, false, [], Boot)
    && st == Store(s.disk, s.disk)
  }

  lemma InitInv(g: Geometry, s: State, st: Store)
    requires Init(g, s, st)
    ensures Inv(g, s, st)
  {
  }
}
