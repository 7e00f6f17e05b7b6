/** One CPU running scheduler(), sched(), yield(), sleep(), exit(), fork(), wait(), kill(), wakeup() and
    co_yield() (kernel/proc.c) on top of kernel/spinlock.c. A context switch is control moving to the
    named context; every panic() of the modelled code is the outcome Panic. */
module SchedMachine {
  import opened Common

  datatype PState = UNUSED | USED | SLEEPING | RUNNABLE | RUNNING | ZOMBIE

  /** p->chan. CoChan(i) is co_chan of table slot i; all other kernel code sleeps on other addresses. */
  datatype Chan = NoChan | CoChan(slot: nat) | Addr(addr: nat)

  /** What a process was doing in the kernel when an interrupt made it yield. */
  datatype Task = Plain | Finding(slot: nat, pid: int, value: int)

  /** Where a saved context continues after swtch. */
  datatype Resume = Forkret | InYield(task: Task) | InSleep(lk: nat) | InCoYield | InExit

  datatype Proc = Proc(state: PState, chan: Chan, killed: bool, pid: int, a0: int, a1: int,
                       resume: Resume, intena: bool)

  datatype LockId = PLock(slot: nat) | KLock(lk: nat)

  /** struct cpu, and the interrupt-enable bit of the CPU. */
  datatype Cpu = Cpu(proc: Option<nat>, noff: int, intena: bool, intr: bool)

  /** What the CPU executes next. */
  datatype Control =
    | SchedLoop                    // scheduler(), about to look at a process
    | SchedBack                    // scheduler(), just after its swtch returned
    | Run(p: nat, task: Task)      // process p, no spinlock held
    | RunLocked(p: nat, lk: nat)   // process p inside a critical section of kernel lock lk
    | Back(p: nat)                 // process p, just after a swtch to it

  datatype State = State(procs: seq<Proc>, locks: set<LockId>, cpu: Cpu, ctl: Control, nextpid: int)

  datatype Outcome = Ok(s: State) | Panic

  const WAITLOCK: nat := 0

  // ----- kernel/spinlock.c -----

  function PushOff(s: State): State {
    var c := s.cpu;
    s.(cpu := c.(intr := false, intena := if c.noff == 0 then c.intr else c.intena, noff := c.noff + 1))
  }

  function PopOff(s: State): (o: Outcome)
    ensures o.Ok? ==> o.s == s.(cpu := o.s.cpu) && o.s.cpu.proc == s.cpu.proc
  {
    var c := s.cpu;
    if c.intr then Panic
    else if c.noff < 1 then Panic
    else Ok(s.(cpu := c.(noff := c.noff - 1, intr := c.noff == 1 && c.intena)))
  }

  predicate Holding(s: State, l: LockId) {
    l in s.locks
  }

  /** On one CPU a lock that is taken is held by this CPU, so acquire either panics or succeeds. */
  function Acquire(s: State, l: LockId): (o: Outcome)
    ensures o.Ok? ==> o.s == s.(cpu := o.s.cpu, locks := s.locks + {l}) && o.s.cpu.proc == s.cpu.proc
  {
    var t := PushOff(s);
    if Holding(t, l) then Panic else Ok(t.(locks := t.locks + {l}))
  }

  function Release(s: State, l: LockId): (o: Outcome)
    ensures o.Ok? ==> o.s == s.(cpu := o.s.cpu, locks := s.locks - {l}) && o.s.cpu.proc == s.cpu.proc
  {
    if !Holding(s, l) then Panic else PopOff(s.(locks := s.locks - {l}))
  }

  // ----- small helpers -----

  predicate Slot(s: State, i: nat) {
    i < |s.procs|
  }

  function SetProc(s: State, i: nat, p: Proc): State
    requires Slot(s, i)
  {
    s.(procs := s.procs[i := p])
  }

  /** sched(): its four checks, then swtch to the scheduler. p->intena is the local variable that holds
      the interrupt-enable bit across the switch. */
  function Sched(s: State, p: nat): Outcome
    requires Slot(s, p)
  {
    if !Holding(s, PLock(p)) then Panic
    else if s.cpu.noff != 1 then Panic
    else if s.procs[p].state == RUNNING then Panic
    else if s.cpu.intr then Panic
    else Ok(SetProc(s, p, s.procs[p].(intena := s.cpu.intena)).(ctl := SchedBack))
  }

  // ----- scheduler() -----

  function SchedPick(s: State, i: nat): Outcome
    requires Slot(s, i)
  {
    match Acquire(s, PLock(i))
    case Panic => Panic
    case Ok(t) =>
      if t.procs[i].state == RUNNABLE then
        Ok(SetProc(t, i, t.procs[i].(state := RUNNING)).(cpu := t.cpu.(proc := Some(i)), ctl := Back(i)))
      else Release(t, PLock(i))
  }

  /** The scheduler releases whichever process is on the CPU now, not the one it picked. */
  function SchedReturn(s: State): Outcome {
    match s.cpu.proc
    case None => Panic
    case Some(ran) => Release(s.(cpu := s.cpu.(proc := None), ctl := SchedLoop), PLock(ran))
  }

  // ----- the code after swtch, in the process that was switched to -----

  function ResumeAt(s: State, p: nat): Outcome
    requires Slot(s, p)
  {
    match s.procs[p].resume
    case Forkret =>
      (match s.cpu.proc
       case None => Panic
       case Some(me) => Release(s.(ctl := Run(p, Plain)), PLock(me)))
    case InYield(task) =>
      Release(s.(cpu := s.cpu.(intena := s.procs[p].intena), ctl := Run(p, task)), PLock(p))
    case InSleep(lk) =>
      (match Release(SetProc(s, p, s.procs[p].(chan := NoChan)).(cpu := s.cpu.(intena := s.procs[p].intena),
                                                               ctl := RunLocked(p, lk)), PLock(p))
       case Panic => Panic
       case Ok(t) => Acquire(t, KLock(lk)))
    case InCoYield =>
      Release(SetProc(s, p, s.procs[p].(chan := NoChan)).(ctl := Run(p, Plain)), PLock(p))
    case InExit => Panic
  }

  // ----- yield, sleep, exit -----

  function Yield(s: State, p: nat, task: Task): Outcome
    requires Slot(s, p)
  {
    match Acquire(s, PLock(p))
    case Panic => Panic
    case Ok(t) => Sched(SetProc(t, p, t.procs[p].(state := RUNNABLE, resume := InYield(task))), p)
  }

  function Sleep(s: State, p: nat, chan: nat, lk: nat): Outcome
    requires Slot(s, p)
  {
    match Acquire(s, PLock(p))
    case Panic => Panic
    case Ok(t) =>
      match Release(t, KLock(lk))
      case Panic => Panic
      case Ok(u) =>
        Sched(SetProc(u, p, u.procs[p].(chan := Addr(chan), state := SLEEPING, resume := InSleep(lk))), p)
  }

  /** exit() from the point where wait_lock is held and the parent has been woken. */
  function Exit(s: State, p: nat): Outcome
    requires Slot(s, p)
  {
    match Acquire(s, PLock(p))
    case Panic => Panic
    case Ok(t) =>
      match Release(SetProc(t, p, t.procs[p].(state := ZOMBIE, resume := InExit)), KLock(WAITLOCK))
      case Panic => Panic
      case Ok(u) => Sched(u, p)
  }

  // ----- operations on another slot under its lock, without a switch -----

  datatype Touch =
    | Wake(chan: nat)             // one round of wakeup()
    | KillPid(pid: int)           // one round of kill()
    | Alloc                       // allocproc() for a free slot
    | Publish                     // fork()'s np->state = RUNNABLE
    | Discard                     // freeproc() of a slot whose setup failed
    | Reap                        // wait()'s freeproc() of a zombie

  function Freed(p: Proc): Proc {
    p.(state := UNUSED, chan := NoChan, killed := false, pid := 0)
  }

  function Touched(s: State, i: nat, w: Touch): State
    requires Slot(s, i)
  {
    var p := s.procs[i];
    match w
    case Wake(chan) => if p.state == SLEEPING && p.chan == Addr(chan) then SetProc(s, i, p.(state := RUNNABLE)) else s
    case KillPid(pid) =>
      if p.pid == pid then
        SetProc(s, i, p.(killed := true, state := if p.state == SLEEPING then RUNNABLE else p.state))
      else s
    case Alloc =>
      if p.state == UNUSED then
        SetProc(s, i, p.(state := USED, pid := s.nextpid, resume := Forkret)).(nextpid := s.nextpid + 1)
      else s
    case Publish => if p.state == USED then SetProc(s, i, p.(state := RUNNABLE)) else s
    case Discard => if p.state == USED then SetProc(s, i, Freed(p)) else s
    case Reap => if p.state == ZOMBIE then SetProc(s, i, Freed(p)) else s
  }

  function TouchSlot(s: State, i: nat, w: Touch): Outcome
    requires Slot(s, i)
  {
    match Acquire(s, PLock(i))
    case Panic => Panic
    case Ok(t) => Release(Touched(t, i, w), PLock(i))
  }

  // ----- co_yield -----

  /** The call fails: give back the target's lock and return -1. */
  function Refuse(s: State, p: nat, t: nat): Outcome {
    Release(s.(ctl := Run(p, Plain)), PLock(t))
  }

  /** Both branches end the same way: p is SLEEPING on the target's private channel, the target is
      RUNNING and on the CPU, p's lock is dropped while the target's is kept, and swtch goes straight
      to the target. */
  function HandOff(s: State, p: nat, t: nat, mine: Proc, theirs: Proc): Outcome
    requires Slot(s, p) && Slot(s, t)
  {
    var u := SetProc(SetProc(s, p, mine.(chan := CoChan(t), state := SLEEPING, resume := InCoYield)),
                     t, theirs.(state := RUNNING));
    Release(u.(cpu := u.cpu.(proc := Some(t)), ctl := Back(t)), PLock(p))
  }

  /** The peer waits for us: exchange values. The peer's pending return value is overwritten only if it
      is still -1. */
  function MeetMine(mine: Proc, theirs: Proc, value: int): Proc {
    mine.(a1 := value, a0 := theirs.a1)
  }

  function MeetTheirs(theirs: Proc, value: int): Proc {
    theirs.(a0 := if theirs.a0 == -1 then value else theirs.a0, chan := NoChan)
  }

  /** The peer is not waiting: park with our value and no answer yet. */
  function ParkMine(mine: Proc, value: int): Proc {
    mine.(a1 := value, a0 := -1)
  }

  /** co_yield once find_proc has returned slot t with its lock held. */
  function CoBody(s: State, p: nat, t: nat, value: int): Outcome
    requires Slot(s, p) && Slot(s, t)
  {
    var target := s.procs[t];
    if target.killed || target.state == UNUSED || target.state == ZOMBIE then Refuse(s, p, t)
    else if target.state == SLEEPING && target.chan != CoChan(p) then Refuse(s, p, t)
    else if target.state != SLEEPING && target.state != RUNNABLE then Refuse(s, p, t)
    else
      match Acquire(s, PLock(p))
      case Panic => Panic
      case Ok(u) =>
        if u.procs[p].killed then
          (match Release(u, PLock(p))
           case Panic => Panic
           case Ok(v) => Refuse(v, p, t))
        else if target.state == SLEEPING then
          HandOff(u, p, t, MeetMine(u.procs[p], u.procs[t], value), MeetTheirs(u.procs[t], value))
        else HandOff(u, p, t, ParkMine(u.procs[p], value), u.procs[t])
  }

  /** One round of find_proc's loop, and the rest of co_yield when it finds the pid. */
  function FindRound(s: State, p: nat, i: nat, pid: int, value: int): Outcome
    requires Slot(s, p)
  {
    if i >= |s.procs| then Ok(s.(ctl := Run(p, Plain)))
    else
      match Acquire(s, PLock(i))
      case Panic => Panic
      case Ok(u) =>
        if u.procs[i].pid == pid && u.procs[i].state != UNUSED then CoBody(u, p, i, value)
        else Release(u.(ctl := Run(p, Finding(i + 1, pid, value))), PLock(i))
  }

  /** co_yield's entry: user registers a0 and a1 were just saved in the trapframe. */
  function CoEnter(s: State, p: nat, pid: int, value: int): State
    requires Slot(s, p)
  {
    var t := SetProc(s, p, s.procs[p].(a0 := pid, a1 := value));
    if pid <= 0 || pid == s.procs[p].pid then t else t.(ctl := Run(p, Finding(0, pid, value)))
  }

  // ----- all steps -----

  datatype Action =
    | ASetIntr(on: bool)                       // intr_on, intr_off, trap entry and return
    | APick(i: nat)
    | AReturn
    | AResume
    | ATrap(a0: int, a1: int)                  // a system call's arguments or result in the trapframe
    | AYield
    | ALock(lk: nat)
    | AUnlock
    | ASleep(chan: nat)
    | AExit
    | ATouch(i: nat, w: Touch)
    | ACoYield(pid: int, value: int)
    | AFind

  /** Which code can run in which control state. Interrupts are off while a lock is held, so a process
      leaves RunLocked only by its own code. A process does not touch its own slot with wakeup() or
      with fork and wait; kill(getpid()) is allowed. */
  predicate Enabled(s: State, a: Action) {
    match a
    case ASetIntr(on) => s.ctl.SchedLoop? || s.ctl.Run?
    case APick(i) => s.ctl.SchedLoop? && Slot(s, i)
    case AReturn => s.ctl.SchedBack?
    case AResume => s.ctl.Back? && Slot(s, s.ctl.p)
    case ATrap(_, _) => s.ctl.Run? && s.ctl.task == Plain && Slot(s, s.ctl.p)
    case AYield => s.ctl.Run? && Slot(s, s.ctl.p)
    case ALock(lk) => s.ctl.Run? && s.ctl.task == Plain
    case AUnlock => s.ctl.RunLocked?
    case ASleep(chan) => s.ctl.RunLocked? && Slot(s, s.ctl.p)
    case AExit => s.ctl.RunLocked? && s.ctl.lk == WAITLOCK && Slot(s, s.ctl.p)
    case ATouch(i, w) =>
      && Slot(s, i)
      && (w.KillPid? || s.cpu.proc != Some(i))
      && (s.ctl.SchedLoop? ==> w.Wake?) && (s.ctl.Run? && s.ctl.task != Plain ==> w.Wake?)
      && (s.ctl.SchedLoop? || s.ctl.Run? || s.ctl.RunLocked?)
    case ACoYield(pid, value) => s.ctl.Run? && s.ctl.task == Plain && Slot(s, s.ctl.p)
    case AFind => s.ctl.Run? && s.ctl.task.Finding? && Slot(s, s.ctl.p)
  }

  function Step(s: State, a: Action): Outcome
    requires Enabled(s, a)
  {
    match a
    case ASetIntr(on) => Ok(s.(cpu := s.cpu.(intr := on)))
    case APick(i) => SchedPick(s, i)
    case AReturn => SchedReturn(s)
    case AResume => ResumeAt(s, s.ctl.p)
    case ATrap(a0, a1) => Ok(SetProc(s, s.ctl.p, s.procs[s.ctl.p].(a0 := a0, a1 := a1)))
    case AYield => Yield(s, s.ctl.p, s.ctl.task)
    case ALock(lk) => Acquire(s.(ctl := RunLocked(s.ctl.p, lk)), KLock(lk))
    case AUnlock => Release(s.(ctl := Run(s.ctl.p, Plain)), KLock(s.ctl.lk))
    case ASleep(chan) => Sleep(s, s.ctl.p, chan, s.ctl.lk)
    case AExit => Exit(s, s.ctl.p)
    case ATouch(i, w) => TouchSlot(s, i, w)
    case ACoYield(pid, value) => Ok(CoEnter(s, s.ctl.p, pid, value))
    case AFind => FindRound(s, s.ctl.p, s.ctl.task.slot, s.ctl.task.pid, s.ctl.task.value)
  }
}
