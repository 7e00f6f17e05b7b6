/** The lock hand-off invariant of the one-CPU machine, over every run. */
module SchedProofs {
  import opened Common
  import opened SchedMachine

  /** Only process p is RUNNING (nobody, if p is None). */
  ghost predicate OnlyRunning(s: State, p: Option<nat>) {
    && (p.Some? ==> Slot(s, p.value))
    && forall i :: 0 <= i < |s.procs| ==> (s.procs[i].state == RUNNING <==> p == Some(i))
  }

  /** Saved contexts are fit to be switched to. */
  ghost predicate ContextOk(p: Proc) {
    && (p.state == USED ==> p.resume == Forkret)
    && (p.state == RUNNABLE || p.state == SLEEPING ==> p.resume != InExit)
    && (p.state == SLEEPING ==> (p.resume == InCoYield <==> p.chan.CoChan?))
    && (p.state == ZOMBIE ==> p.resume == InExit)
    && (p.resume.InYield? ==> TaskOk(p, p.resume.task))
  }

  /** co_yield never looks for its own process. */
  ghost predicate TaskOk(p: Proc, task: Task) {
    task.Finding? ==> task.pid > 0 && task.pid != p.pid
  }

  /** A swtch has just happened to the context of `who`: nesting depth 1, interrupts off, and exactly the
      lock of the process on the CPU is held. */
  ghost predicate HandedOver(s: State, who: nat) {
    s.cpu.proc == Some(who) && s.locks == {PLock(who)} && s.cpu.noff == 1 && !s.cpu.intr
  }

  ghost predicate ControlOk(s: State) {
    match s.ctl
    case SchedLoop => s.cpu.proc == None && s.locks == {} && s.cpu.noff == 0 && OnlyRunning(s, None)
    case SchedBack => s.cpu.proc.Some? && HandedOver(s, s.cpu.proc.value) && OnlyRunning(s, None)
    case Run(p, task) =>
      && s.cpu.proc == Some(p) && s.locks == {} && s.cpu.noff == 0 && OnlyRunning(s, Some(p))
      && TaskOk(s.procs[p], task)
    case RunLocked(p, lk) =>
      && s.cpu.proc == Some(p) && s.locks == {KLock(lk)} && s.cpu.noff == 1 && !s.cpu.intr
      && OnlyRunning(s, Some(p))
    case Back(p) => HandedOver(s, p) && OnlyRunning(s, Some(p)) && s.procs[p].resume != InExit
  }

  /** Process ids in use are positive and distinct. */
  ghost predicate PidsOk(s: State) {
    && s.nextpid >= 1
    && (forall i :: 0 <= i < |s.procs| ==> s.procs[i].pid < s.nextpid)
    && (forall i :: 0 <= i < |s.procs| ==> (s.procs[i].pid == 0 <==> s.procs[i].state == UNUSED) && s.procs[i].pid >= 0)
    && (forall i, j :: 0 <= i < j < |s.procs| && s.procs[i].pid != 0 ==> s.procs[i].pid != s.procs[j].pid)
  }

  ghost predicate Inv(s: State) {
    && ControlOk(s)
    && (forall i :: 0 <= i < |s.procs| ==> ContextOk(s.procs[i]))
    && PidsOk(s)
  }

  /** What every step must deliver: no panic, and the invariant again. */
  ghost predicate Safe(o: Outcome) {
    o.Ok? && Inv(o.s)
  }

  lemma PickSafe(s: State, i: nat)
    requires Inv(s) && s.ctl.SchedLoop? && Slot(s, i)
    ensures Safe(SchedPick(s, i))
  {
    assert s.locks + {PLock(i)} == {PLock(i)};
    assert {PLock(i)} - {PLock(i)} == {};
  }

  lemma ReturnSafe(s: State)
    requires Inv(s) && s.ctl.SchedBack?
    ensures Safe(SchedReturn(s))
  {
  }

  lemma WakeFromSleepSafe(s: State, p: nat, lk: nat)
    requires Inv(s) && s.ctl == Back(p) && s.procs[p].resume == InSleep(lk)
    ensures Safe(ResumeAt(s, p))
  {
    assert ContextOk(s.procs[p]);
    assert {PLock(p)} - {PLock(p)} + {KLock(lk)} == {KLock(lk)};
  }

  lemma ResumeSafe(s: State, p: nat)
    requires Inv(s) && s.ctl == Back(p)
    ensures Safe(ResumeAt(s, p))
  {
    assert ContextOk(s.procs[p]);
    assert {PLock(p)} - {PLock(p)} == {};
    if s.procs[p].resume.InSleep? {
      WakeFromSleepSafe(s, p, s.procs[p].resume.lk);
    }
  }

  lemma YieldSafe(s: State, p: nat, task: Task)
    requires Inv(s) && s.ctl == Run(p, task)
    ensures Safe(Yield(s, p, task))
  {
  }

  lemma SleepSafe(s: State, p: nat, chan: nat, lk: nat)
    requires Inv(s) && s.ctl == RunLocked(p, lk)
    ensures Safe(Sleep(s, p, chan, lk))
  {
    assert {KLock(lk)} + {PLock(p)} - {KLock(lk)} == {PLock(p)};
  }

  lemma ExitSafe(s: State, p: nat)
    requires Inv(s) && s.ctl == RunLocked(p, WAITLOCK)
    ensures Safe(Exit(s, p))
  {
    assert {KLock(WAITLOCK)} + {PLock(p)} - {KLock(WAITLOCK)} == {PLock(p)};
  }

  /** Changing one slot's fields under its lock, on the state itself. */
  lemma TouchedInv(s: State, i: nat, w: Touch)
    requires Inv(s) && Slot(s, i) && (w.KillPid? || s.cpu.proc != Some(i))
    requires s.ctl.SchedLoop? || s.ctl.Run? || s.ctl.RunLocked?
    ensures Inv(Touched(s, i, w))
  {
    var t := Touched(s, i, w);
    assert ContextOk(s.procs[i]);
    assert ContextOk(t.procs[i]);
    assert forall j :: 0 <= j < |s.procs| && j != i ==> t.procs[j] == s.procs[j];
  }

  /** Taking and giving back a free lock leaves only the saved interrupt bit different. */
  lemma LockRound(s: State, i: nat, w: Touch)
    requires Slot(s, i) && PLock(i) !in s.locks && s.cpu.noff >= 0 && (s.cpu.noff > 0 ==> !s.cpu.intr)
    ensures var o := TouchSlot(s, i, w); var c := s.cpu;
            o == Ok(Touched(s, i, w).(cpu := c.(intena := if c.noff == 0 then c.intr else c.intena)))
  {
    assert s.locks + {PLock(i)} - {PLock(i)} == s.locks;
  }

  lemma TouchSafe(s: State, i: nat, w: Touch)
    requires Inv(s) && Slot(s, i) && (w.KillPid? || s.cpu.proc != Some(i))
    requires s.ctl.SchedLoop? || s.ctl.Run? || s.ctl.RunLocked?
    ensures Safe(TouchSlot(s, i, w))
  {
    TouchedInv(s, i, w);
    LockRound(s, i, w);
  }

  /** The part of the invariant that does not look at locks and the CPU. */
  ghost predicate TableOk(s: State, p: nat) {
    OnlyRunning(s, Some(p)) && (forall i :: 0 <= i < |s.procs| ==> ContextOk(s.procs[i])) && PidsOk(s)
  }

  lemma RefuseSafe(s: State, p: nat, t: nat)
    requires TableOk(s, p) && Slot(s, t) && HoldsFor(s, p, {PLock(t)}, 1)
    ensures Safe(Refuse(s, p, t))
  {
    assert {PLock(t)} - {PLock(t)} == {};
  }

  /** Process p is on the CPU and holds exactly these locks. */
  ghost predicate HoldsFor(s: State, p: nat, locks: set<LockId>, depth: int) {
    s.cpu.proc == Some(p) && s.locks == locks && s.cpu.noff == depth && !s.cpu.intr
  }

  /** The direct switch: control arrives at the target holding exactly the target's lock. */
  lemma HandOffSafe(s: State, p: nat, t: nat, mine: Proc, theirs: Proc)
    requires TableOk(s, p) && Slot(s, t) && t != p && HoldsFor(s, p, {PLock(t), PLock(p)}, 2)
    requires s.procs[t].state == RUNNABLE || s.procs[t].state == SLEEPING
    requires mine == s.procs[p].(a0 := mine.a0, a1 := mine.a1)
    requires theirs == s.procs[t].(a0 := theirs.a0, a1 := theirs.a1, chan := theirs.chan)
    ensures Safe(HandOff(s, p, t, mine, theirs))
  {
    assert {PLock(t), PLock(p)} - {PLock(p)} == {PLock(t)};
    assert ContextOk(s.procs[t]) && ContextOk(s.procs[p]);
    HandOffTable(s, p, t, mine, theirs);
  }

  lemma HandOffTable(s: State, p: nat, t: nat, mine: Proc, theirs: Proc)
    requires TableOk(s, p) && Slot(s, t) && t != p
    requires s.procs[t].state == RUNNABLE || s.procs[t].state == SLEEPING
    requires mine == s.procs[p].(a0 := mine.a0, a1 := mine.a1)
    requires theirs == s.procs[t].(a0 := theirs.a0, a1 := theirs.a1, chan := theirs.chan)
    ensures TableOk(SetProc(SetProc(s, p, mine.(chan := CoChan(t), state := SLEEPING, resume := InCoYield)),
                            t, theirs.(state := RUNNING)), t)
  {
    assert ContextOk(s.procs[t]) && ContextOk(s.procs[p]);
  }

  lemma CoBodySafe(s: State, p: nat, t: nat, value: int)
    requires TableOk(s, p) && Slot(s, t) && t != p && HoldsFor(s, p, {PLock(t)}, 1)
    ensures Safe(CoBody(s, p, t, value))
  {
    var target := s.procs[t];
    if target.killed || target.state == UNUSED || target.state == ZOMBIE
      || (target.state == SLEEPING && target.chan != CoChan(p))
      || (target.state != SLEEPING && target.state != RUNNABLE) {
      RefuseSafe(s, p, t);
    } else {
      var o := Acquire(s, PLock(p));
      assert s.locks + {PLock(p)} == {PLock(t), PLock(p)};
      var u := o.s;
      if u.procs[p].killed {
        assert {PLock(t), PLock(p)} - {PLock(p)} == {PLock(t)};
        RefuseSafe(Release(u, PLock(p)).s, p, t);
      } else if target.state == SLEEPING {
        HandOffSafe(u, p, t, MeetMine(u.procs[p], u.procs[t], value), MeetTheirs(u.procs[t], value));
      } else {
        HandOffSafe(u, p, t, ParkMine(u.procs[p], value), u.procs[t]);
      }
    }
  }

  lemma FindSafe(s: State, p: nat, i: nat, pid: int, value: int)
    requires Inv(s) && s.ctl == Run(p, Finding(i, pid, value))
    ensures Safe(FindRound(s, p, i, pid, value))
  {
    if i < |s.procs| {
      assert s.locks + {PLock(i)} == {PLock(i)};
      var u := Acquire(s, PLock(i)).s;
      if u.procs[i].pid == pid && u.procs[i].state != UNUSED {
        CoBodySafe(u, p, i, value);
      } else {
        assert {PLock(i)} - {PLock(i)} == {};
      }
    }
  }

  lemma CoEnterSafe(s: State, p: nat, pid: int, value: int)
    requires Inv(s) && s.ctl == Run(p, Plain)
    ensures Inv(CoEnter(s, p, pid, value))
  {
  }

  lemma StepSafe(s: State, a: Action)
    requires Inv(s) && Enabled(s, a)
    ensures Safe(Step(s, a))
  {
    match a
    case ASetIntr(_) =>
    case APick(i) => PickSafe(s, i);
    case AReturn => ReturnSafe(s);
    case AResume => ResumeSafe(s, s.ctl.p);
    case ATrap(_, _) =>
    case AYield => YieldSafe(s, s.ctl.p, s.ctl.task);
    case ALock(_) =>
    case AUnlock =>
    case ASleep(chan) => SleepSafe(s, s.ctl.p, chan, s.ctl.lk);
    case AExit => ExitSafe(s, s.ctl.p);
    case ATouch(i, w) => TouchSafe(s, i, w);
    case ACoYield(pid, value) => CoEnterSafe(s, s.ctl.p, pid, value);
    case AFind => FindSafe(s, s.ctl.p, s.ctl.task.slot, s.ctl.task.pid, s.ctl.task.value);
  }

  // ----- every run -----

  /** The actions can be taken one after the other (a panic ends the run). */
  predicate CanRun(s: State, acts: seq<Action>)
    decreases acts
  {
    acts == [] || (Enabled(s, acts[0]) && (Step(s, acts[0]).Ok? ==> CanRun(Step(s, acts[0]).s, acts[1..])))
  }

  function Exec(s: State, acts: seq<Action>): Outcome
    requires CanRun(s, acts)
    decreases acts
  {
    if acts == [] then Ok(s)
    else match Step(s, acts[0])
      case Panic => Panic
      case Ok(t) => Exec(t, acts[1..])
  }

  /** After procinit and userinit: one process ready to run for the first time. */
  ghost predicate Boot(s: State) {
    && s.ctl == SchedLoop && s.locks == {} && s.cpu.proc == None && s.cpu.noff == 0 && s.nextpid == 2
    && |s.procs| > 0 && s.procs[0].state == RUNNABLE && s.procs[0].resume == Forkret && s.procs[0].pid == 1
    && (forall i :: 1 <= i < |s.procs| ==>
          s.procs[i].state == UNUSED && s.procs[i].resume == Forkret && s.procs[i].pid == 0)
    && (forall i :: 0 <= i < |s.procs| ==> !s.procs[i].killed)
  }

  lemma {:induction false} RunSafe(s: State, acts: seq<Action>)
    requires Inv(s) && CanRun(s, acts)
    ensures Safe(Exec(s, acts))
    decreases acts
  {
    if acts != [] {
      StepSafe(s, acts[0]);
      RunSafe(Step(s, acts[0]).s, acts[1..]);
    }
  }

  /** No run panics. Whenever a swtch has just arrived, in the scheduler or in a process, the nesting depth
      is 1, interrupts are off and exactly the lock of the process on the CPU is held. Nobody but the
      process on the CPU is RUNNING. */
  lemma LockHandOff(s: State, acts: seq<Action>)
    requires Boot(s) && CanRun(s, acts)
    ensures Exec(s, acts).Ok?
    ensures var t := Exec(s, acts).s;
            && (t.ctl.SchedBack? || t.ctl.Back? ==>
                  t.cpu.proc.Some? && t.locks == {PLock(t.cpu.proc.value)} && t.cpu.noff == 1 && !t.cpu.intr)
            && (t.ctl.Back? ==> t.cpu.proc == Some(t.ctl.p))
            && (forall i :: 0 <= i < |t.procs| && t.procs[i].state == RUNNING ==> t.cpu.proc == Some(i))
  {
    assert Inv(s);
    RunSafe(s, acts);
  }
}
