/** No lost wakeups: in every run of WakeupMachine, a call of sleep that released lk before the waker acquired lk is not
    asleep any more when wakeup returns. */
module Wakeup {
  import opened WakeupMachine

  /** The call of sleep recorded by n has released lk and has not been woken. */
  predicate Waits(x: Proc, n: Nap) {
    && x.calls == n.call && x.pc.Sleep?
    && (x.pc.stage in {Released, ChanSet, StateSet} || (x.pc.stage == Away && x.state == SLEEPING))
  }

  // ----- the invariant -----

  /** State, place and yielding of one thread fit together. */
  ghost predicate Local(x: Proc) {
    && x.on >= -1 && (x.on < 0 <==> Saved(x))
    && (x.yielding != NotYielding ==>
          x.pc.Code? || (x.pc.Sleep? && x.pc.stage in {Enter, Unlocked}) || (x.pc.Waking? && x.pc.loop.At?))
    && (x.state == SLEEPING ==> x.pc.Sleep? && x.pc.stage in {StateSet, Away})
    && (x.state == RUNNABLE ==> x.yielding in {Set, Off} || x.pc.Born? || (x.pc.Sleep? && x.pc.stage == Away))
    && (x.state in {UNUSED, ZOMBIE} ==> x.pc.Absent?)
    && (x.pc.Absent? ==> x.state in {UNUSED, ZOMBIE})
    && (x.pc.Sleep? && x.pc.stage in {ChanSet, StateSet, Away} ==> x.chan == x.pc.chan)
    && (x.pc.Sleep? && x.pc.stage == StateSet ==> x.state == SLEEPING)
  }

  /** The naps of slot p in the record are calls up to the present one. */
  ghost predicate Hist(released: set<Nap>, x: Proc, p: nat) {
    forall n :: n in released && n.p == p ==>
      && n.call <= x.calls
      && (n.call == x.calls && x.pc.Sleep? ==> x.pc.stage !in {Enter, Acquired} && x.pc.chan == n.chan)
  }

  function Upto(loop: Loop): nat { if loop.Checked? then loop.i + 1 else loop.i }

  /** wakeup(chan) has dealt with the slots before its place in the loop. */
  ghost predicate LoopOk(procs: seq<Proc>, seen: set<Nap>, chan: nat, loop: Loop) {
    forall n :: n in seen && n.chan == chan && n.p < Upto(loop) && n.p < |procs| ==> !Waits(procs[n.p], n)
  }

  ghost predicate ProcOk(s: State, p: nat)
    requires p < |s.procs|
  {
    var x := s.procs[p];
    && Local(x) && Hist(s.released, x, p) && x.seen <= s.released
    && (x.on >= 0 ==> x.on < |s.cpus| && s.cpus[x.on].mode == Run && s.cpus[x.on].proc == p)
    && (x.pc.Waking? ==> LoopOk(s.procs, x.seen, x.pc.chan, x.pc.loop) && (!x.pc.loop.At? ==> x.pc.loop.i != p))
  }

  ghost predicate CpuOk(s: State, c: nat)
    requires c < |s.cpus|
  {
    var y := s.cpus[c];
    && (y.mode == Run ==> y.proc < |s.procs| && s.procs[y.proc].on == c)
    && (y.irq.Handler? ==>
          && y.mode in {Pick, Run} && y.irq.seen <= s.released && (y.irq.pc.Code? || y.irq.pc.Waking?)
          && (y.mode == Run ==> y.proc < |s.procs| && ProcHolds(s.procs[y.proc], y.proc) == -1)
          && (y.irq.pc.Waking? ==> LoopOk(s.procs, y.irq.seen, y.irq.pc.chan, y.irq.pc.loop)))
  }

  /** A lock is held by a CPU exactly if that CPU's code is at a place where it holds it. */
  ghost predicate LockOk(s: State) {
    && (forall j :: 0 <= j < |s.plock| ==> s.plock[j] == -1 || 0 <= s.plock[j] < |s.cpus|)
    && (forall c, j :: 0 <= c < |s.cpus| && 0 <= j < |s.plock| ==> (s.plock[j] == c <==> Holds(s, c) == j))
  }

  ghost predicate Inv(s: State) {
    && Shape(s) && LockOk(s)
    && (forall n :: n in s.released ==> n.p < NPROC)
    && (forall p :: 0 <= p < NPROC ==> ProcOk(s, p))
    && (forall c :: 0 <= c < |s.cpus| ==> CpuOk(s, c))
  }

  lemma InitInv(s: State)
    requires Init(s)
    ensures Inv(s)
  {
  }

  // ----- steps of a thread -----

  /** What a CPU does to the slot locks when the lock it holds changes from h to h'. */
  ghost predicate LockMove(s: State, plock: seq<int>, c: int, h: int, h': int) {
    || (h' == h && plock == s.plock)
    || (h == -1 && 0 <= h' < |s.plock| && s.plock[h'] == -1 && plock == s.plock[h' := c])
    || (h' == -1 && 0 <= h < |s.plock| && plock == s.plock[h := -1])
  }

  /** No nap that was over begins again when x becomes x'. */
  ghost predicate NoRelapse(released: set<Nap>, x: Proc, x': Proc, p: nat) {
    forall n :: n in released && n.p == p && !Waits(x, n) ==> !Waits(x', n)
  }

  lemma LoopKept(s: State, p: nat, x': Proc, seen: set<Nap>, chan: nat, loop: Loop)
    requires p < |s.procs| && NoRelapse(s.released, s.procs[p], x', p) && seen <= s.released
    requires LoopOk(s.procs, seen, chan, loop)
    ensures LoopOk(s.procs[p := x'], seen, chan, loop)
  {
    forall n | n in seen && n.chan == chan && n.p < Upto(loop) && n.p < |s.procs|
      ensures !Waits(s.procs[p := x'][n.p], n)
    {
      assert !Waits(s.procs[n.p], n);
    }
  }

  /** The thread of slot p becomes x' on the same CPU. */
  ghost predicate ThreadStep(s: State, g: State, p: nat, x': Proc)
    requires p < |s.procs|
  {
    var x := s.procs[p];
    && Active(s, p) && x'.on == x.on && g.procs == s.procs[p := x'] && g.cpus == s.cpus
    && LockMove(s, g.plock, x.on, ProcHolds(x, p), ProcHolds(x', p))
    && g.released >= s.released && (forall n :: n in g.released && n !in s.released ==> n.p == p)
    && NoRelapse(s.released, x, x', p)
  }

  lemma LocksMoved(s: State, g: State, c: nat)
    requires LockOk(s) && c < |s.cpus| == |g.cpus| && LockMove(s, g.plock, c, Holds(s, c), Holds(g, c))
    requires forall d :: 0 <= d < |s.cpus| && d != c ==> Holds(g, d) == Holds(s, d)
    ensures LockOk(g)
  {
    forall d, j | 0 <= d < |g.cpus| && 0 <= j < |g.plock| ensures g.plock[j] == d <==> Holds(g, d) == j {
      assert s.plock[j] == d <==> Holds(s, d) == j;
      assert s.plock[j] == c <==> Holds(s, c) == j;
    }
  }

  lemma ThreadLocks(s: State, g: State, p: nat, x': Proc)
    requires Inv(s) && p < NPROC && ThreadStep(s, g, p, x')
    ensures LockOk(g)
  {
    var c := s.procs[p].on;
    assert ProcOk(s, p);
    assert Holds(s, c) == ProcHolds(s.procs[p], p) && Holds(g, c) == ProcHolds(x', p);
    forall d | 0 <= d < |s.cpus| && d != c ensures Holds(g, d) == Holds(s, d) {
      assert CpuOk(s, d);
    }
    LocksMoved(s, g, c);
  }

  lemma ThreadKeeps(s: State, g: State, p: nat, x': Proc)
    requires Inv(s) && p < NPROC && ThreadStep(s, g, p, x')
    requires Local(x') && Hist(g.released, x', p) && x'.seen <= g.released
    requires x'.pc.Waking? ==> InRange(x'.pc.loop) && LoopOk(g.procs, x'.seen, x'.pc.chan, x'.pc.loop)
    requires x'.pc.Waking? && !x'.pc.loop.At? ==> x'.pc.loop.i != p
    ensures Inv(g)
  {
    ThreadLocks(s, g, p, x');
    hide LockOk, Local, LoopOk, Waits;
    forall q | 0 <= q < NPROC ensures ProcOk(g, q) {
      assert ProcOk(s, q);
      if q != p && g.procs[q].pc.Waking? {
        LoopKept(s, p, x', s.procs[q].seen, s.procs[q].pc.chan, s.procs[q].pc.loop);
      }
      assert ProcOk(s, p);
    }
    forall d | 0 <= d < |g.cpus| ensures CpuOk(g, d) {
      assert CpuOk(s, d) && ProcOk(s, p);
      var irq := s.cpus[d].irq;
      if irq.Handler? && irq.pc.Waking? { LoopKept(s, p, x', irq.seen, irq.pc.chan, irq.pc.loop); }
    }
  }

  /** Somebody else changes slot j: its thread stays where it is. */
  lemma PokeKeeps(s: State, j: nat, x': Proc)
    requires Inv(s) && j < NPROC && NoRelapse(s.released, s.procs[j], x', j)
    requires x'.on == s.procs[j].on && ProcHolds(x', j) == ProcHolds(s.procs[j], j) && Local(x')
    requires Hist(s.released, x', j)
    requires x'.seen <= s.released && (x'.pc.Waking? ==> x'.pc == s.procs[j].pc && x'.seen == s.procs[j].seen)
    ensures Inv(Put(s, j, x'))
  {
    var g := Put(s, j, x');
    assert LockOk(g) by {
      forall d | 0 <= d < |s.cpus| ensures Holds(g, d) == Holds(s, d) { }
      assert forall d, i :: 0 <= d < |g.cpus| && 0 <= i < |g.plock| ==> (s.plock[i] == d <==> Holds(s, d) == i);
    }
    hide LockOk, Local, LoopOk, Waits;
    forall q | 0 <= q < NPROC ensures ProcOk(g, q) {
      assert ProcOk(s, q);
      if g.procs[q].pc.Waking? { LoopKept(s, j, x', s.procs[q].seen, s.procs[q].pc.chan, s.procs[q].pc.loop); }
    }
    forall d | 0 <= d < |g.cpus| ensures CpuOk(g, d) {
      assert CpuOk(s, d);
      var irq := s.cpus[d].irq;
      if irq.Handler? && irq.pc.Waking? { LoopKept(s, j, x', irq.seen, irq.pc.chan, irq.pc.loop); }
    }
  }

  // ----- context switches -----

  /** The thread of slot p, holding its lock, switches to the scheduler of its CPU. */
  lemma SwitchOutKeeps(s: State, g: State, p: nat, x': Proc)
    requires Inv(s) && p < NPROC && Active(s, p) && x'.on == -1
    requires var c := s.procs[p].on;
             && g == s.(procs := s.procs[p := x'], cpus := s.cpus[c := s.cpus[c].(mode := Return)], plock := g.plock)
             && LockMove(s, g.plock, c, ProcHolds(s.procs[p], p), p)
    requires Local(x') && Hist(s.released, x', p) && x'.seen == s.procs[p].seen
    requires NoRelapse(s.released, s.procs[p], x', p)
    requires x'.pc.Waking? ==> x'.pc == s.procs[p].pc
    ensures Inv(g)
  {
    var c := s.procs[p].on;
    assert ProcOk(s, p);
    assert LockOk(g) by {
      assert Holds(s, c) == ProcHolds(s.procs[p], p) && Holds(g, c) == p;
      forall d | 0 <= d < |s.cpus| && d != c ensures Holds(g, d) == Holds(s, d) { assert CpuOk(s, d); }
      LocksMoved(s, g, c);
    }
    hide LockOk, Local, LoopOk, Waits;
    forall q | 0 <= q < NPROC ensures ProcOk(g, q) {
      assert ProcOk(s, q);
      if g.procs[q].pc.Waking? { LoopKept(s, p, x', s.procs[q].seen, s.procs[q].pc.chan, s.procs[q].pc.loop); }
    }
    forall d | 0 <= d < |g.cpus| ensures CpuOk(g, d) {
      assert CpuOk(s, d);
      var irq := s.cpus[d].irq;
      if irq.Handler? && irq.pc.Waking? { LoopKept(s, p, x', irq.seen, irq.pc.chan, irq.pc.loop); }
    }
  }

  /** The scheduler of CPU c, holding the lock of slot j, switches to its thread. */
  lemma SwitchInKeeps(s: State, c: nat)
    requires Inv(s) && c < |s.cpus| && s.cpus[c].irq.NoIrq? && s.cpus[c].mode == Have
    requires s.procs[s.cpus[c].at].state == RUNNABLE
    ensures var j := s.cpus[c].at; var cpus := s.cpus[c := s.cpus[c].(mode := Run, proc := j)];
            Inv(Put(s, j, Resume(s.procs[j], c)).(cpus := cpus))
  {
    var j := s.cpus[c].at;
    var x := s.procs[j];
    var x' := Resume(x, c);
    var g := Put(s, j, x').(cpus := s.cpus[c := s.cpus[c].(mode := Run, proc := j)]);
    assert ProcOk(s, j);
    RunnableIsSaved(s, c, j);
    assert LockOk(g) by {
      assert Holds(s, c) == j && Holds(g, c) == j;
      forall d | 0 <= d < |s.cpus| && d != c ensures Holds(g, d) == Holds(s, d) { assert CpuOk(s, d); }
      LocksMoved(s, g, c);
    }
    assert Local(x') && NoRelapse(s.released, x, x', j) && Hist(s.released, x', j);
    hide LockOk, Local, LoopOk, Waits, Hist;
    forall q | 0 <= q < NPROC ensures ProcOk(g, q) {
      assert ProcOk(s, q);
      if g.procs[q].pc.Waking? { LoopKept(s, j, x', s.procs[q].seen, s.procs[q].pc.chan, s.procs[q].pc.loop); }
    }
    forall d | 0 <= d < |g.cpus| ensures CpuOk(g, d) {
      assert CpuOk(s, d);
      var irq := s.cpus[d].irq;
      if irq.Handler? && irq.pc.Waking? { LoopKept(s, j, x', irq.seen, irq.pc.chan, irq.pc.loop); }
    }
  }

  /** A thread that another CPU's scheduler finds RUNNABLE under its lock is not executing anywhere. */
  lemma RunnableIsSaved(s: State, c: nat, j: nat)
    requires Inv(s) && c < |s.cpus| && s.cpus[c].mode == Have && s.cpus[c].irq.NoIrq? && s.cpus[c].at == j
    requires s.procs[j].state == RUNNABLE
    ensures s.procs[j].on == -1
  {
    assert ProcOk(s, j) && Holds(s, c) == j;
    if s.procs[j].on >= 0 { OwnLock(s, j); }
  }

  /** A thread that executes at a place where it holds its own lock does hold it. */
  lemma OwnLock(s: State, j: nat)
    requires Inv(s) && j < NPROC && s.procs[j].on >= 0 && ProcHolds(s.procs[j], j) == j
    ensures s.plock[j] == s.procs[j].on && s.procs[j].on < |s.cpus| && s.cpus[s.procs[j].on].irq.NoIrq?
    ensures s.cpus[s.procs[j].on].mode == Run && s.cpus[s.procs[j].on].proc == j
  {
    assert ProcOk(s, j) && CpuOk(s, s.procs[j].on) && Holds(s, s.procs[j].on) == j;
  }

  /** A CPU moves in its scheduler or handler; what it runs stays. */
  lemma CpuKeeps(s: State, g: State, c: nat, y': Cpu)
    requires Inv(s) && c < |s.cpus| && g == s.(cpus := s.cpus[c := y'], plock := g.plock, lks := g.lks)
    requires (s.cpus[c].mode == Run <==> y'.mode == Run) && (y'.mode == Run ==> y'.proc == s.cpus[c].proc)
    requires y'.at < NPROC && (y'.mode == Return ==> y'.proc < NPROC)
    requires y'.irq.Handler? && y'.irq.pc.Waking? ==> InRange(y'.irq.pc.loop)
    requires LockMove(s, g.plock, c, Holds(s, c), Holds(g, c)) && CpuOk(g, c)
    ensures Inv(g)
  {
    assert LockOk(g) by {
      forall d | 0 <= d < |s.cpus| && d != c ensures Holds(g, d) == Holds(s, d) { }
      LocksMoved(s, g, c);
    }
    hide LockOk, Local, LoopOk, Waits, Hist;
    forall q | 0 <= q < NPROC ensures ProcOk(g, q) { assert ProcOk(s, q); }
    forall d | 0 <= d < |g.cpus| ensures CpuOk(g, d) { assert CpuOk(s, d); }
  }

  // ----- the steps of the machine -----

  lemma SleepKeeps(s: State, p: nat)
    requires Inv(s) && p < NPROC && SleepEnabled(s, p)
    ensures Inv(SleepNext(s, p))
  {
    var x, g := s.procs[p], SleepNext(s, p);
    assert ProcOk(s, p);
    if x.pc.stage == StateSet {
      SwitchOutKeeps(s, g, p, g.procs[p]);
    } else {
      ThreadKeeps(s, g, p, g.procs[p]);
    }
  }

  lemma YieldKeeps(s: State, p: nat)
    requires Inv(s) && p < NPROC && YieldEnabled(s, p)
    ensures Inv(YieldNext(s, p))
  {
    var x, g := s.procs[p], YieldNext(s, p);
    assert ProcOk(s, p);
    if x.yielding == Set {
      SwitchOutKeeps(s, g, p, g.procs[p]);
    } else {
      if x.pc.Waking? { LoopKept(s, p, g.procs[p], x.seen, x.pc.chan, x.pc.loop); }
      ThreadKeeps(s, g, p, g.procs[p]);
    }
  }

  lemma InterruptKeeps(s: State, p: nat)
    requires Inv(s) && Enabled(s, Interrupt(p))
    ensures Inv(Put(s, p, s.procs[p].(yielding := Asked)))
  {
    var x := s.procs[p];
    var x' := x.(yielding := Asked);
    var g := Put(s, p, x');
    assert ProcOk(s, p) && CpuOk(s, x.on);
    assert Holds(s, x.on) == ProcHolds(x, p);
    NoLockHeld(s, x.on);
    if x.pc.Waking? { LoopKept(s, p, x', x.seen, x.pc.chan, x.pc.loop); }
    ThreadKeeps(s, g, p, x');
  }

  /** A CPU that holds no slot's lock is at no place where it would. */
  lemma NoLockHeld(s: State, c: nat)
    requires Inv(s) && c < |s.cpus| && NoLocks(s, c)
    ensures Holds(s, c) == -1
  {
    HoldsRange(s, c);
    if Holds(s, c) >= 0 { HeldIsLocked(s, c); }
  }

  lemma HeldIsLocked(s: State, c: nat)
    requires Inv(s) && c < |s.cpus| && 0 <= Holds(s, c) < NPROC
    ensures s.plock[Holds(s, c)] == c
  {
  }

  lemma HoldsRange(s: State, c: nat)
    requires Inv(s) && c < |s.cpus|
    ensures -1 <= Holds(s, c) < NPROC
  {
    assert CpuOk(s, c);
  }

  lemma ForkretKeeps(s: State, p: nat)
    requires Inv(s) && Enabled(s, ForkretStep(p))
    ensures Inv(SetPc(s, p, Code).(plock := s.plock[p := -1]))
  {
    var g := SetPc(s, p, Code).(plock := s.plock[p := -1]);
    assert ProcOk(s, p);
    ThreadKeeps(s, g, p, g.procs[p]);
  }

  lemma ExitKeeps(s: State, p: nat)
    requires Inv(s) && Enabled(s, Exit(p))
    ensures Inv(Apply(s, Exit(p)))
  {
    var x, g := s.procs[p], Apply(s, Exit(p));
    assert ProcOk(s, p);
    SwitchOutKeeps(s, g, p, g.procs[p]);
  }

  lemma CodeKeeps(s: State, a: Action)
    requires Inv(s) && Enabled(s, a) && (a.AcquireLk? || a.ReleaseLk? || a.CallSleep? || a.CallWakeup? || a.WakeReturn?)
    ensures Inv(Apply(s, a))
  {
    var g := Apply(s, a);
    assert ProcOk(s, a.p);
    ThreadKeeps(s, g, a.p, g.procs[a.p]);
  }

  lemma SchedKeeps(s: State, c: nat)
    requires Inv(s) && SchedEnabled(s, c)
    ensures Inv(SchedNext(s, c))
  {
    var y, g := s.cpus[c], SchedNext(s, c);
    assert CpuOk(s, c);
    if y.mode == Have && s.procs[y.at].state == RUNNABLE {
      SwitchInKeeps(s, c);
    } else {
      CpuKeeps(s, g, c, g.cpus[c]);
    }
  }

  lemma IrqKeeps(s: State, a: Action)
    requires Inv(s) && Enabled(s, a)
    requires a.IrqEnter? || a.IrqAcquire? || a.IrqRelease? || a.IrqWakeup? || a.IrqWakeReturn? || a.IrqLeave?
    ensures Inv(Apply(s, a))
  {
    var g := Apply(s, a);
    assert CpuOk(s, a.c);
    if a.IrqEnter? { NoLockHeld(s, a.c); }
    CpuKeeps(s, g, a.c, g.cpus[a.c]);
  }

  lemma TouchKeeps(s: State, a: Action)
    requires Inv(s) && Enabled(s, a) && (a.Kill? || a.Reap? || a.Alloc?)
    ensures Inv(Apply(s, a))
  {
    var g := Apply(s, a);
    assert ProcOk(s, a.j);
    NobodyIn(s, a.j);
    PokeKeeps(s, a.j, g.procs[a.j]);
  }

  /** If a slot's lock is free, its thread is at no place where it holds it. */
  lemma NobodyIn(s: State, j: nat)
    requires Inv(s) && j < NPROC && s.plock[j] == -1
    ensures s.procs[j].on >= 0 ==> ProcHolds(s.procs[j], j) != j
  {
    if s.procs[j].on >= 0 && ProcHolds(s.procs[j], j) == j { OwnLock(s, j); }
  }

  // ----- wakeup -----

  /** Under the lock of slot i, held by CPU c for another agent than thread i, a recorded nap on chan is over after the
      test. */
  lemma WokenIsAwake(s: State, c: nat, i: nat, chan: nat, n: Nap)
    requires Inv(s) && c < |s.cpus| && i < NPROC && s.plock[i] == c && n in s.released && n.p == i && n.chan == chan
    requires s.cpus[c].mode != Run || s.cpus[c].proc != i || s.cpus[c].irq.Handler?
    ensures !Waits(Woken(s.procs[i], chan), n)
  {
    var x := s.procs[i];
    assert ProcOk(s, i);
    if x.on >= 0 && ProcHolds(x, i) == i { OwnLock(s, i); }
  }

  lemma PokeWoken(s: State, c: nat, i: nat, chan: nat)
    requires Inv(s) && c < |s.cpus| && i < NPROC && s.plock[i] == c
    requires s.cpus[c].mode != Run || s.cpus[c].proc != i || s.cpus[c].irq.Handler?
    ensures Inv(Put(s, i, Woken(s.procs[i], chan)))
  {
    var x := s.procs[i];
    assert ProcOk(s, i);
    if x.on >= 0 && ProcHolds(x, i) == i { OwnLock(s, i); }
    PokeKeeps(s, i, Woken(x, chan));
  }

  lemma WakeKeeps(s: State, p: nat)
    requires Inv(s) && Enabled(s, WakeStep(p))
    ensures Inv(Apply(s, WakeStep(p)))
  {
    var x, c := s.procs[p], s.procs[p].on;
    var g := Apply(s, WakeStep(p));
    assert ProcOk(s, p);
    if x.pc.loop.Locked? {
      TestKeeps(s, p);
    } else {
      ThreadKeeps(s, g, p, g.procs[p]);
    }
  }

  /** The test of wakeup's loop. */
  lemma TestKeeps(s: State, p: nat)
    requires Inv(s) && p < NPROC && Active(s, p) && InWakeup(s.procs[p]) && s.procs[p].pc.loop.Locked?
    ensures var pc := s.procs[p].pc; var i := pc.loop.i;
            i < NPROC && Inv(SetPc(Put(s, i, Woken(s.procs[i], pc.chan)), p, Waking(pc.chan, Checked(i))))
  {
    var x, c := s.procs[p], s.procs[p].on;
    var chan, i := x.pc.chan, x.pc.loop.i;
    assert ProcOk(s, p) && Holds(s, c) == i && s.plock[i] == c;
    PokeWoken(s, c, i, chan);
    var h := Put(s, i, Woken(s.procs[i], chan));
    assert ProcOk(h, p) && h.procs[p] == x;
    forall n | n in x.seen && n.chan == chan && n.p < i + 1 ensures !Waits(h.procs[n.p], n) {
      if n.p == i { WokenIsAwake(s, c, i, chan, n); }
    }
    hide Inv, Local, Hist;
    ThreadKeeps(h, SetPc(h, p, Waking(chan, Checked(i))), p, x.(pc := Waking(chan, Checked(i))));
  }

  lemma IrqWakeKeeps(s: State, c: nat)
    requires Inv(s) && Enabled(s, IrqWakeStep(c))
    ensures Inv(Apply(s, IrqWakeStep(c)))
  {
    var y, irq := s.cpus[c], s.cpus[c].irq;
    var g := Apply(s, IrqWakeStep(c));
    assert CpuOk(s, c);
    if irq.pc.loop.Locked? {
      IrqTestKeeps(s, c);
    } else {
      if irq.pc.loop.At? && irq.pc.loop.i == Myproc(y) { RunningIsAwake(s, c); }
      CpuKeeps(s, g, c, g.cpus[c]);
    }
  }

  /** The thread under a handler, which holds no lock, waits for no wakeup. */
  lemma RunningIsAwake(s: State, c: nat)
    requires Inv(s) && c < |s.cpus| && s.cpus[c].irq.Handler? && s.cpus[c].mode == Run
    ensures forall n :: !Waits(s.procs[s.cpus[c].proc], n)
  {
    assert CpuOk(s, c) && ProcOk(s, s.cpus[c].proc);
  }

  lemma IrqTestKeeps(s: State, c: nat)
    requires Inv(s) && c < |s.cpus| && s.cpus[c].irq.Handler? && s.cpus[c].irq.pc.Waking?
    requires s.cpus[c].irq.pc.loop.Locked?
    ensures var irq := s.cpus[c].irq; var i := irq.pc.loop.i;
            && i < NPROC
            && Inv(SetIrq(Put(s, i, Woken(s.procs[i], irq.pc.chan)), c, irq.(pc := Waking(irq.pc.chan, Checked(i)))))
  {
    var irq := s.cpus[c].irq;
    var chan, i := irq.pc.chan, irq.pc.loop.i;
    assert CpuOk(s, c) && Holds(s, c) == i && s.plock[i] == c;
    PokeWoken(s, c, i, chan);
    var h := Put(s, i, Woken(s.procs[i], chan));
    assert CpuOk(h, c);
    forall n | n in irq.seen && n.chan == chan && n.p < i + 1 ensures !Waits(h.procs[n.p], n) {
      if n.p == i { WokenIsAwake(s, c, i, chan, n); }
    }
    hide Inv, Local, Hist;
    var g := SetIrq(h, c, irq.(pc := Waking(chan, Checked(i))));
    CpuKeeps(h, g, c, g.cpus[c]);
  }

  lemma StepKeepsInv(s: State, a: Action)
    requires Inv(s) && Enabled(s, a)
    ensures Inv(Apply(s, a))
  {
    hide Inv, SleepNext, YieldNext, SchedNext, LoopEffect, LoopNext, SleepEnabled, YieldEnabled, SchedEnabled,
         LoopEnabled;
    match a
    case SleepStep(p) => InvShape(s); SleepKeeps(s, p);
    case WakeStep(p) => WakeKeeps(s, p);
    case Interrupt(p) => InterruptKeeps(s, p);
    case YieldStep(p) => InvShape(s); YieldKeeps(s, p);
    case ForkretStep(p) => ForkretKeeps(s, p);
    case Exit(p) => ExitKeeps(s, p);
    case SchedStep(c) => SchedKeeps(s, c);
    case IrqWakeStep(c) => IrqWakeKeeps(s, c);
    case Kill(_) => TouchKeeps(s, a);
    case Reap(_) => TouchKeeps(s, a);
    case Alloc(_) => TouchKeeps(s, a);
    case AcquireLk(_, _) => CodeKeeps(s, a);
    case ReleaseLk(_, _) => CodeKeeps(s, a);
    case CallSleep(_, _, _) => CodeKeeps(s, a);
    case CallWakeup(_, _) => CodeKeeps(s, a);
    case WakeReturn(_) => CodeKeeps(s, a);
    case _ => IrqKeeps(s, a);
  }

  lemma InvShape(s: State)
    requires Inv(s)
    ensures Shape(s)
  {
  }

  // ----- runs -----

  ghost predicate CanRun(s: State, acts: seq<Action>)
    decreases |acts|
  {
    acts == [] || (Shape(s) && Enabled(s, acts[0]) && CanRun(Apply(s, acts[0]), acts[1..]))
  }

  ghost function Exec(s: State, acts: seq<Action>): State
    requires CanRun(s, acts)
    decreases |acts|
  {
    if acts == [] then s else Exec(Apply(s, acts[0]), acts[1..])
  }

  lemma {:induction false} RunKeepsInv(s: State, acts: seq<Action>)
    requires Inv(s) && CanRun(s, acts)
    ensures Inv(Exec(s, acts))
    decreases |acts|
  {
    hide Inv, Enabled, Apply;
    if acts != [] {
      StepKeepsInv(s, acts[0]);
      RunKeepsInv(Apply(s, acts[0]), acts[1..]);
    }
  }

  /** From s to g what threads and handlers know only grows. */
  ghost predicate KnowMore(s: State, g: State) {
    && |g.procs| == |s.procs| && |g.cpus| == |s.cpus|
    && (forall p :: 0 <= p < |s.procs| ==> s.procs[p].seen <= g.procs[p].seen)
    && (forall c :: 0 <= c < |s.cpus| ==> g.cpus[c].irq == s.cpus[c].irq)
  }

  lemma SleepSeen(s: State, p: nat)
    requires p < |s.procs| && SleepEnabled(s, p)
    ensures KnowMore(s, SleepNext(s, p))
  {
  }

  lemma YieldSeen(s: State, p: nat)
    requires p < |s.procs| && YieldEnabled(s, p)
    ensures KnowMore(s, YieldNext(s, p))
  {
  }

  lemma SchedSeen(s: State, c: nat)
    requires Shape(s) && SchedEnabled(s, c)
    ensures KnowMore(s, SchedNext(s, c))
  {
  }

  lemma LoopSeen(s: State, loop: Loop, self: nat, chan: nat, c: nat)
    requires loop.i < |s.procs| && loop.i < |s.plock|
    ensures KnowMore(s, LoopEffect(s, loop, self, chan, c))
  {
  }

  lemma WakeSeen(s: State, p: nat)
    requires Shape(s) && Enabled(s, WakeStep(p))
    ensures KnowMore(s, Apply(s, WakeStep(p)))
  {
    hide LoopEffect;
    LoopSeen(s, s.procs[p].pc.loop, p, s.procs[p].pc.chan, s.procs[p].on);
  }

  lemma IrqWakeSeen(s: State, c: nat)
    requires Shape(s) && Enabled(s, IrqWakeStep(c))
    ensures var g := Apply(s, IrqWakeStep(c));
            && KnowMore(s, g.(cpus := s.cpus)) && |g.cpus| == |s.cpus|
            && (forall d :: 0 <= d < |s.cpus| && s.cpus[d].irq.Handler? ==>
                  g.cpus[d].irq.Handler? && g.cpus[d].irq.seen == s.cpus[d].irq.seen)
  {
    hide LoopEffect;
    var irq := s.cpus[c].irq;
    LoopSeen(s, irq.pc.loop, Myproc(s.cpus[c]), irq.pc.chan, c);
  }

  /** What a thread knows it keeps, as long as its slot is not given to a new process. */
  lemma SeenStep(s: State, a: Action, p: nat, n: Nap)
    requires Shape(s) && Enabled(s, a) && p < NPROC && n in s.procs[p].seen && a != Alloc(p)
    ensures |Apply(s, a).procs| == NPROC && n in Apply(s, a).procs[p].seen
  {
    hide SleepNext, YieldNext, SchedNext, LoopEffect;
    match a
    case SleepStep(q) => SleepSeen(s, q);
    case YieldStep(q) => YieldSeen(s, q);
    case SchedStep(c) => SchedSeen(s, c);
    case WakeStep(q) => WakeSeen(s, q);
    case IrqWakeStep(c) => IrqWakeSeen(s, c);
    case _ =>
  }

  lemma {:induction false} SeenStays(s: State, acts: seq<Action>, p: nat, n: Nap)
    requires CanRun(s, acts) && Inv(s) && p < NPROC && n in s.procs[p].seen
    requires forall i :: 0 <= i < |acts| ==> acts[i] != Alloc(p)
    ensures Shape(Exec(s, acts)) && n in Exec(s, acts).procs[p].seen
    decreases |acts|
  {
    hide Enabled, Apply;
    if acts != [] {
      SeenStep(s, acts[0], p, n);
      StepKeepsInv(s, acts[0]);
      SeenStays(Apply(s, acts[0]), acts[1..], p, n);
    }
  }

  /** The call of sleep that n records does not have its process SLEEPING. */
  ghost predicate Awake(s: State, n: Nap) {
    n.p < |s.procs| && !Waits(s.procs[n.p], n) && (s.procs[n.p].calls == n.call ==> s.procs[n.p].state != SLEEPING)
  }

  lemma AwakeAtReturn(s: State, seen: set<Nap>, chan: nat, n: Nap)
    requires Inv(s) && seen <= s.released && LoopOk(s.procs, seen, chan, At(NPROC)) && n in seen && n.chan == chan
    ensures Awake(s, n)
  {
    assert n.p < NPROC && ProcOk(s, n.p);
  }

  /** With step a process p acquires lk: by a call of acquire, or at the end of its own sleep. */
  predicate Acquires(s: State, a: Action, p: nat, lk: nat) {
    && p < |s.procs|
    && (a == AcquireLk(p, lk)
        || (a == SleepStep(p) && s.procs[p].pc.Sleep? && s.procs[p].pc.stage == Unlocked && s.procs[p].pc.lk == lk))
  }

  /** After either, p knows the naps that released lk before. */
  lemma AcquiredSees(s: State, a: Action, p: nat, lk: nat, n: Nap)
    requires Shape(s) && Enabled(s, a) && Acquires(s, a, p, lk) && n in s.released && n.lk == lk
    ensures p < |Apply(s, a).procs| && n in Apply(s, a).procs[p].seen
  {
  }

  /** No lost wakeups. A run from boot leads to s1, where process p acquires lk with step a; n is a call of
      sleep(chan, lk) that has released lk by then. However the run goes on, when a wakeup(chan) of p is about to
      return, n is awake. */
  lemma NoLostWakeup(s0: State, before: seq<Action>, a: Action, p: nat, lk: nat, after: seq<Action>, n: Nap)
    requires Init(s0) && CanRun(s0, before)
    requires var s1 := Exec(s0, before);
             && Shape(s1) && Enabled(s1, a) && Acquires(s1, a, p, lk) && n in s1.released && n.lk == lk
             && CanRun(Apply(s1, a), after)
    requires forall i :: 0 <= i < |after| ==> after[i] != Alloc(p)
    requires var s := Exec(Apply(Exec(s0, before), a), after); Enabled(s, WakeReturn(p)) && s.procs[p].pc.chan == n.chan
    ensures Awake(Exec(Apply(Exec(s0, before), a), after), n)
  {
    hide Enabled, Apply, Inv, CanRun, Exec, Init, Acquires;
    var s1 := Exec(s0, before);
    InitInv(s0);
    RunKeepsInv(s0, before);
    var s2 := Apply(s1, a);
    StepKeepsInv(s1, a);
    AcquiredSees(s1, a, p, lk, n);
    InvShape(s2);
    SeenStays(s2, after, p, n);
    RunKeepsInv(s2, after);
    ReturnsAwake(Exec(s2, after), p, n);
  }

  lemma ReturnsAwake(s: State, p: nat, n: Nap)
    requires Inv(s) && Enabled(s, WakeReturn(p)) && n in s.procs[p].seen && s.procs[p].pc.chan == n.chan
    ensures Awake(s, n)
  {
    assert ProcOk(s, p);
    AwakeAtReturn(s, s.procs[p].seen, n.chan, n);
  }

  lemma IrqSeenStep(s: State, a: Action, c: nat, n: Nap)
    requires Shape(s) && Enabled(s, a) && c < |s.cpus| && s.cpus[c].irq.Handler? && n in s.cpus[c].irq.seen
    requires a != IrqLeave(c)
    ensures |Apply(s, a).cpus| == |s.cpus| && Apply(s, a).cpus[c].irq.Handler? && n in Apply(s, a).cpus[c].irq.seen
  {
    hide SleepNext, YieldNext, SchedNext, LoopEffect;
    match a
    case SleepStep(q) => SleepSeen(s, q);
    case YieldStep(q) => YieldSeen(s, q);
    case SchedStep(d) => SchedSeen(s, d);
    case WakeStep(q) => WakeSeen(s, q);
    case IrqWakeStep(d) => IrqWakeSeen(s, d);
    case _ =>
  }

  lemma {:induction false} IrqSeenStays(s: State, acts: seq<Action>, c: nat, n: Nap)
    requires CanRun(s, acts) && Inv(s) && c < |s.cpus| && s.cpus[c].irq.Handler? && n in s.cpus[c].irq.seen
    requires forall i :: 0 <= i < |acts| ==> acts[i] != IrqLeave(c)
    ensures var g := Exec(s, acts); |g.cpus| == |s.cpus| && g.cpus[c].irq.Handler? && n in g.cpus[c].irq.seen
    decreases |acts|
  {
    hide Enabled, Apply;
    if acts != [] {
      IrqSeenStep(s, acts[0], c, n);
      StepKeepsInv(s, acts[0]);
      IrqSeenStays(Apply(s, acts[0]), acts[1..], c, n);
    }
  }

  /** The same for a wakeup from an interrupt handler that has acquired lk. */
  lemma NoLostWakeupFromHandler(s0: State, before: seq<Action>, c: nat, lk: nat, after: seq<Action>, n: Nap)
    requires Init(s0) && CanRun(s0, before)
    requires var s1 := Exec(s0, before);
             Shape(s1) && Enabled(s1, IrqAcquire(c, lk)) && n in s1.released && n.lk == lk
               && CanRun(Apply(s1, IrqAcquire(c, lk)), after)
    requires forall i :: 0 <= i < |after| ==> after[i] != IrqLeave(c)
    requires var s := Exec(Apply(Exec(s0, before), IrqAcquire(c, lk)), after);
             Enabled(s, IrqWakeReturn(c)) && s.cpus[c].irq.pc.chan == n.chan
    ensures Awake(Exec(Apply(Exec(s0, before), IrqAcquire(c, lk)), after), n)
  {
    var s1 := Exec(s0, before);
    InitInv(s0);
    RunKeepsInv(s0, before);
    var s2 := Apply(s1, IrqAcquire(c, lk));
    StepKeepsInv(s1, IrqAcquire(c, lk));
    IrqSeenStays(s2, after, c, n);
    RunKeepsInv(s2, after);
    var s := Exec(s2, after);
    assert CpuOk(s, c);
    AwakeAtReturn(s, s.cpus[c].irq.seen, n.chan, n);
  }

  /** In every run no process executes on two CPUs, and no two CPUs hold the lock of a slot. */
  lemma OneCpuPerProcess(s0: State, acts: seq<Action>, c: nat, d: nat)
    requires Init(s0) && CanRun(s0, acts) && c < |Exec(s0, acts).cpus| && d < |Exec(s0, acts).cpus| && c != d
    ensures var s := Exec(s0, acts);
            && (s.cpus[c].mode == Run && s.cpus[d].mode == Run ==> s.cpus[c].proc != s.cpus[d].proc)
            && (Holds(s, c) >= 0 ==> Holds(s, c) != Holds(s, d))
  {
    InitInv(s0);
    RunKeepsInv(s0, acts);
    var s := Exec(s0, acts);
    assert CpuOk(s, c) && CpuOk(s, d);
    HoldsRange(s, c);
    if Holds(s, c) >= 0 { HeldIsLocked(s, c); }
    if Holds(s, d) >= 0 && Holds(s, d) < NPROC { HeldIsLocked(s, d); }
  }
}
