/** sleep, wakeup, the scheduler loop and preemption on any number of CPUs (kernel/proc.c, kernel/spinlock.c), as a
    machine whose steps are the lock operations, the writes to shared fields and the context switches. co_yield is
    not part of it. An acquire is one step that waits until the lock is free; lock holders are CPUs, as in
    spinlock.c. */
module WakeupMachine {

  const NPROC := 64

  datatype ProcState = UNUSED | RUNNABLE | RUNNING | SLEEPING | ZOMBIE

  /** Where a call of sleep stands: before acquiring p->lock; holding it; lk released; p->chan set; p->state set;
      switched away; switched back; p->chan cleared; p->lock released. */
  datatype Stage = Enter | Acquired | Released | ChanSet | StateSet | Away | Back | Tidied | Unlocked

  /** Where wakeup's loop stands: before slot i; holding the lock of slot i; slot i examined. */
  datatype Loop = At(i: nat) | Locked(i: nat) | Checked(i: nat)

  /** A kernel thread: no process, not started, in forkret, running other code, in sleep, in wakeup. */
  datatype Pc = Absent | Born | Forkret | Code | Sleep(chan: nat, lk: nat, stage: Stage) | Waking(chan: nat, loop: Loop)

  /** yield on top of what the thread was doing: about to acquire p->lock, holding it, state set, away, back. */
  datatype Preempt = NotYielding | Asked | Got | Set | Off | Resumed

  /** A call of sleep that has released lk: the number of the call in its slot, and its arguments. */
  datatype Nap = Nap(p: nat, call: nat, chan: nat, lk: nat)

  /** A slot. `on` is the CPU that executes the thread, -1 if none does; `calls` counts its calls of sleep; `seen`
      holds the naps whose lk was released before the thread acquired that lock. */
  datatype Proc = Proc(state: ProcState, chan: nat, pc: Pc, yielding: Preempt, on: int, calls: nat, seen: set<Nap>)

  /** The scheduler of a CPU: before acquiring a lock, holding the lock of slot `at`, in a process, back from it. */
  datatype Mode = Pick | Have | Run | Return

  /** An interrupt handler on top of what the CPU was doing. */
  datatype Irq = NoIrq | Handler(pc: Pc, seen: set<Nap>)

  datatype Cpu = Cpu(mode: Mode, at: nat, proc: nat, irq: Irq)

  /** plock[i] is the CPU that holds p->lock of slot i, -1 if it is free; lks has the other locks that are held.
      released records the naps so far. */
  datatype State = State(procs: seq<Proc>, cpus: seq<Cpu>, plock: seq<int>, lks: map<nat, nat>, released: set<Nap>)

  datatype Action =
    | AcquireLk(p: nat, lk: nat) | ReleaseLk(p: nat, lk: nat)
    | CallSleep(p: nat, chan: nat, lk: nat) | SleepStep(p: nat)
    | CallWakeup(p: nat, chan: nat) | WakeStep(p: nat) | WakeReturn(p: nat)
    | Interrupt(p: nat) | YieldStep(p: nat) | ForkretStep(p: nat) | Exit(p: nat)
    | SchedStep(c: nat)
    | IrqEnter(c: nat) | IrqAcquire(c: nat, lk: nat) | IrqRelease(c: nat, lk: nat) | IrqWakeup(c: nat, chan: nat)
    | IrqWakeStep(c: nat) | IrqWakeReturn(c: nat) | IrqLeave(c: nat)
    | Kill(j: nat) | Reap(j: nat) | Alloc(j: nat)

  // ----- who runs, who holds what -----

  /** The thread's context is saved: nobody executes it. */
  predicate Saved(x: Proc) {
    x.yielding == Off || x.pc.Absent? || x.pc.Born? || (x.pc.Sleep? && x.pc.stage == Away)
  }

  /** The slot whose lock the thread in slot p holds, -1 if none. */
  function ProcHolds(x: Proc, p: nat): int {
    match x.yielding
    case Got => p
    case Set => p
    case Resumed => p
    case _ =>
      match x.pc
      case Forkret => p
      case Sleep(_, _, stage) => if stage in {Acquired, Released, ChanSet, StateSet, Back, Tidied} then p else -1
      case Waking(_, loop) => if loop.At? then -1 else loop.i
      case _ => -1
  }

  /** The slot whose lock CPU c holds, -1 if none. */
  function Holds(s: State, c: nat): int
    requires c < |s.cpus|
  {
    var y := s.cpus[c];
    if y.irq.Handler? && y.irq.pc.Waking? && !y.irq.pc.loop.At? then y.irq.pc.loop.i
    else
      match y.mode
      case Pick => -1
      case Have => y.at
      case Return => y.proc
      case Run => if y.proc < |s.procs| then ProcHolds(s.procs[y.proc], y.proc) else -1
  }

  /** CPU c holds no lock, so interrupts are on. */
  ghost predicate NoLocks(s: State, c: nat) {
    (forall j :: 0 <= j < |s.plock| ==> s.plock[j] != c) && (forall k :: k in s.lks ==> s.lks[k] != c)
  }

  /** The thread of slot p can take a step of its own. */
  predicate Active(s: State, p: nat) {
    && p < |s.procs| && 0 <= s.procs[p].on < |s.cpus| && s.cpus[s.procs[p].on].irq.NoIrq?
  }

  /** What acquiring lk teaches: the naps that released it before. */
  function Naps(s: State, lk: nat): set<Nap> {
    set n | n in s.released && n.lk == lk
  }

  // ----- one step of each kind -----

  predicate LockFree(s: State, j: nat) { j < |s.plock| && s.plock[j] == -1 }

  ghost predicate SleepEnabled(s: State, p: nat)
    requires p < |s.procs|
  {
    var x := s.procs[p];
    && Active(s, p) && x.yielding == NotYielding && x.pc.Sleep? && p < |s.plock|
    && match x.pc.stage
       case Enter => LockFree(s, p)
       case Acquired => x.pc.lk in s.lks && s.lks[x.pc.lk] == x.on
       case Away => false
       case Unlocked => x.pc.lk !in s.lks
       case _ => true
  }

  function Put(s: State, p: nat, x: Proc): State
    requires p < |s.procs|
  {
    s.(procs := s.procs[p := x])
  }

  /** The lines of sleep. */
  function SleepNext(s: State, p: nat): State
    requires p < |s.procs| && p < |s.plock| && s.procs[p].pc.Sleep? && 0 <= s.procs[p].on < |s.cpus|
  {
    var x := s.procs[p];
    match x.pc.stage
    case Enter => Put(s, p, x.(pc := x.pc.(stage := Acquired))).(plock := s.plock[p := x.on])
    case Acquired =>
      Put(s, p, x.(pc := x.pc.(stage := Released)))
      .(lks := s.lks - {x.pc.lk}, released := s.released + {Nap(p, x.calls, x.pc.chan, x.pc.lk)})
    case Released => Put(s, p, x.(pc := x.pc.(stage := ChanSet), chan := x.pc.chan))
    case ChanSet => Put(s, p, x.(pc := x.pc.(stage := StateSet), state := SLEEPING))
    case StateSet =>
      var cpus := s.cpus[x.on := s.cpus[x.on].(mode := Return)];
      Put(s, p, x.(pc := x.pc.(stage := Away), on := -1)).(cpus := cpus)
    case Away => s
    case Back => Put(s, p, x.(pc := x.pc.(stage := Tidied), chan := 0))
    case Tidied => Put(s, p, x.(pc := x.pc.(stage := Unlocked))).(plock := s.plock[p := -1])
    case Unlocked => Put(s, p, x.(pc := Code, seen := x.seen + Naps(s, x.pc.lk))).(lks := s.lks[x.pc.lk := x.on as nat])
  }

  /** wakeup's loop body in terms of the slots: what slot i becomes. */
  function Woken(x: Proc, chan: nat): Proc {
    if x.state == SLEEPING && x.chan == chan then x.(state := RUNNABLE) else x
  }

  /** One step of wakeup's loop for an agent on CPU c whose myproc() is self (NPROC if none): the new place in the
      loop. */
  ghost predicate LoopEnabled(s: State, loop: Loop, self: nat) {
    match loop
    case At(i) => i < NPROC && (i == self || LockFree(s, i))
    case _ => true
  }

  function LoopNext(loop: Loop, self: nat): Loop {
    match loop
    case At(i) => if i == self then At(i + 1) else Locked(i)
    case Locked(i) => Checked(i)
    case Checked(i) => At(i + 1)
  }

  /** The same step's effect on the slots and their locks. */
  function LoopEffect(s: State, loop: Loop, self: nat, chan: nat, c: nat): State
    requires loop.i < |s.procs| && loop.i < |s.plock|
  {
    match loop
    case At(i) => if i == self then s else s.(plock := s.plock[i := c])
    case Locked(i) => Put(s, i, Woken(s.procs[i], chan))
    case Checked(i) => s.(plock := s.plock[i := -1])
  }

  ghost predicate YieldEnabled(s: State, p: nat)
    requires p < |s.procs|
  {
    Active(s, p) && p < |s.plock| && match s.procs[p].yielding
    case NotYielding => false
    case Asked => LockFree(s, p)
    case Off => false
    case _ => true
  }

  /** The lines of yield. */
  function YieldNext(s: State, p: nat): State
    requires p < |s.procs| && p < |s.plock| && 0 <= s.procs[p].on < |s.cpus|
  {
    var x := s.procs[p];
    match x.yielding
    case Asked => Put(s, p, x.(yielding := Got)).(plock := s.plock[p := x.on])
    case Got => Put(s, p, x.(yielding := Set, state := RUNNABLE))
    case Set => Put(s, p, x.(yielding := Off, on := -1)).(cpus := s.cpus[x.on := s.cpus[x.on].(mode := Return)])
    case Resumed => Put(s, p, x.(yielding := NotYielding)).(plock := s.plock[p := -1])
    case _ => s
  }

  /** The thread as the scheduler's swtch finds it and leaves it running on CPU c. */
  function Resume(x: Proc, c: nat): Proc {
    var y := x.(state := RUNNING, on := c);
    if x.yielding == Off then y.(yielding := Resumed)
    else if x.pc.Sleep? then y.(pc := x.pc.(stage := Back)) else y.(pc := Forkret)
  }

  ghost predicate SchedEnabled(s: State, c: nat) {
    c < |s.cpus| && s.cpus[c].irq.NoIrq? && match s.cpus[c].mode
    case Pick => LockFree(s, s.cpus[c].at)
    case Run => false
    case _ => true
  }

  /** The lines of scheduler. */
  function SchedNext(s: State, c: nat): State
    requires c < |s.cpus| && s.cpus[c].at < |s.procs| && |s.procs| == |s.plock|
    requires s.cpus[c].mode == Return ==> s.cpus[c].proc < |s.procs|
  {
    var y := s.cpus[c];
    var next := (y.at + 1) % |s.procs|;
    match y.mode
    case Pick => s.(plock := s.plock[y.at := c], cpus := s.cpus[c := y.(mode := Have)])
    case Have =>
      if s.procs[y.at].state == RUNNABLE then
        Put(s, y.at, Resume(s.procs[y.at], c)).(cpus := s.cpus[c := y.(mode := Run, proc := y.at)])
      else s.(plock := s.plock[y.at := -1], cpus := s.cpus[c := y.(mode := Pick, at := next)])
    case Return => s.(plock := s.plock[y.proc := -1], cpus := s.cpus[c := y.(mode := Pick, at := next)])
    case Run => s
  }

  /** myproc() on CPU c. */
  function Myproc(y: Cpu): nat { if y.mode == Run then y.proc else NPROC }

  // ----- all steps -----

  ghost predicate Enabled(s: State, a: Action) {
    match a
    case AcquireLk(p, lk) => Active(s, p) && InCode(s.procs[p]) && lk !in s.lks
    case ReleaseLk(p, lk) => Active(s, p) && InCode(s.procs[p]) && lk in s.lks && s.lks[lk] == s.procs[p].on
    case CallSleep(p, chan, lk) =>
      && Active(s, p) && InCode(s.procs[p]) && lk in s.lks && s.lks[lk] == s.procs[p].on
      && (forall k :: k in s.lks && s.lks[k] == s.procs[p].on ==> k == lk)
    case SleepStep(p) => p < |s.procs| && SleepEnabled(s, p)
    case CallWakeup(p, chan) => Active(s, p) && InCode(s.procs[p])
    case WakeStep(p) => Active(s, p) && InWakeup(s.procs[p]) && LoopEnabled(s, s.procs[p].pc.loop, p)
    case WakeReturn(p) => Active(s, p) && InWakeup(s.procs[p]) && s.procs[p].pc.loop == At(NPROC)
    case Interrupt(p) => Active(s, p) && s.procs[p].yielding == NotYielding && NoLocks(s, s.procs[p].on)
    case YieldStep(p) => p < |s.procs| && YieldEnabled(s, p)
    case ForkretStep(p) => Active(s, p) && s.procs[p].yielding == NotYielding && s.procs[p].pc.Forkret?
    case Exit(p) => Active(s, p) && InCode(s.procs[p]) && NoLocks(s, s.procs[p].on) && LockFree(s, p)
    case SchedStep(c) => SchedEnabled(s, c)
    case IrqEnter(c) => c < |s.cpus| && s.cpus[c].irq.NoIrq? && NoLocks(s, c)
    case IrqAcquire(c, lk) => InHandler(s, c) && lk !in s.lks
    case IrqRelease(c, lk) => InHandler(s, c) && lk in s.lks && s.lks[lk] == c
    case IrqWakeup(c, chan) => InHandler(s, c)
    case IrqWakeStep(c) =>
      && c < |s.cpus| && s.cpus[c].irq.Handler? && s.cpus[c].irq.pc.Waking?
      && LoopEnabled(s, s.cpus[c].irq.pc.loop, Myproc(s.cpus[c]))
    case IrqWakeReturn(c) =>
      c < |s.cpus| && s.cpus[c].irq.Handler? && s.cpus[c].irq.pc.Waking? && s.cpus[c].irq.pc.loop == At(NPROC)
    case IrqLeave(c) => InHandler(s, c) && NoLocks(s, c)
    case Kill(j) => LockFree(s, j) && j < |s.procs|
    case Reap(j) => LockFree(s, j) && j < |s.procs| && s.procs[j].state == ZOMBIE
    case Alloc(j) => LockFree(s, j) && j < |s.procs| && s.procs[j].state == UNUSED
  }

  predicate InCode(x: Proc) { x.pc == Code && x.yielding == NotYielding }

  predicate InWakeup(x: Proc) { x.pc.Waking? && x.yielding == NotYielding }

  predicate InHandler(s: State, c: nat) { c < |s.cpus| && s.cpus[c].irq.Handler? && s.cpus[c].irq.pc == Code }

  /** Indices are in range. */
  ghost predicate Shape(s: State) {
    && |s.procs| == |s.plock| == NPROC
    && (forall p :: 0 <= p < NPROC && s.procs[p].pc.Waking? ==> InRange(s.procs[p].pc.loop))
    && (forall c :: 0 <= c < |s.cpus| ==>
          s.cpus[c].at < NPROC && (s.cpus[c].mode in {Run, Return} ==> s.cpus[c].proc < NPROC))
    && (forall c :: 0 <= c < |s.cpus| && s.cpus[c].irq.Handler? && s.cpus[c].irq.pc.Waking? ==>
          InRange(s.cpus[c].irq.pc.loop))
  }

  predicate InRange(loop: Loop) { loop.i < NPROC || loop == At(NPROC) }

  function SetIrq(s: State, c: nat, irq: Irq): State
    requires c < |s.cpus|
  {
    s.(cpus := s.cpus[c := s.cpus[c].(irq := irq)])
  }

  function SetPc(s: State, p: nat, pc: Pc): State
    requires p < |s.procs|
  {
    Put(s, p, s.procs[p].(pc := pc))
  }

  function Apply(s: State, a: Action): State
    requires Shape(s) && Enabled(s, a)
  {
    match a
    case AcquireLk(p, lk) =>
      var x := s.procs[p];
      Put(s, p, x.(seen := x.seen + Naps(s, lk))).(lks := s.lks[lk := x.on])
    case ReleaseLk(p, lk) => s.(lks := s.lks - {lk})
    case CallSleep(p, chan, lk) =>
      var x := s.procs[p];
      Put(s, p, x.(pc := Sleep(chan, lk, Enter), calls := x.calls + 1))
    case SleepStep(p) => SleepNext(s, p)
    case CallWakeup(p, chan) => SetPc(s, p, Waking(chan, At(0)))
    case WakeStep(p) =>
      var pc := s.procs[p].pc;
      SetPc(LoopEffect(s, pc.loop, p, pc.chan, s.procs[p].on), p, Waking(pc.chan, LoopNext(pc.loop, p)))
    case WakeReturn(p) => SetPc(s, p, Code)
    case Interrupt(p) => Put(s, p, s.procs[p].(yielding := Asked))
    case YieldStep(p) => YieldNext(s, p)
    case ForkretStep(p) => SetPc(s, p, Code).(plock := s.plock[p := -1])
    case Exit(p) =>
      var x := s.procs[p];
      Put(s, p, x.(pc := Absent, state := ZOMBIE, on := -1))
      .(plock := s.plock[p := x.on], cpus := s.cpus[x.on := s.cpus[x.on].(mode := Return)])
    case SchedStep(c) => SchedNext(s, c)
    case IrqEnter(c) => SetIrq(s, c, Handler(Code, {}))
    case IrqAcquire(c, lk) =>
      SetIrq(s, c, Handler(Code, s.cpus[c].irq.seen + Naps(s, lk))).(lks := s.lks[lk := c])
    case IrqRelease(c, lk) => s.(lks := s.lks - {lk})
    case IrqWakeup(c, chan) => SetIrq(s, c, s.cpus[c].irq.(pc := Waking(chan, At(0))))
    case IrqWakeStep(c) =>
      var irq, self := s.cpus[c].irq, Myproc(s.cpus[c]);
      SetIrq(LoopEffect(s, irq.pc.loop, self, irq.pc.chan, c), c,
             irq.(pc := Waking(irq.pc.chan, LoopNext(irq.pc.loop, self))))
    case IrqWakeReturn(c) => SetIrq(s, c, s.cpus[c].irq.(pc := Code))
    case IrqLeave(c) => SetIrq(s, c, NoIrq)
    case Kill(j) => Put(s, j, if s.procs[j].state == SLEEPING then s.procs[j].(state := RUNNABLE) else s.procs[j])
    case Reap(j) => Put(s, j, s.procs[j].(state := UNUSED, chan := 0))
    case Alloc(j) => Put(s, j, s.procs[j].(state := RUNNABLE, pc := Born, seen := {}))
  }

  /** Boot: no process, every CPU at the start of its scheduler loop. */
  ghost predicate Init(s: State) {
    && Shape(s) && s.released == {} && s.lks == map[]
    && (forall p :: 0 <= p < NPROC ==>
          s.plock[p] == -1 && s.procs[p] == Proc(UNUSED, 0, Absent, NotYielding, -1, 0, {}))
    && (forall c :: 0 <= c < |s.cpus| ==> s.cpus[c].mode == Pick && s.cpus[c].irq == NoIrq)
  }
}
