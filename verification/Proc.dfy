/** The table-scanning code of kernel/proc.c as it runs undisturbed on one CPU: wakeup, kill, find_proc and
    co_yield up to its swtch, over the lock code of kernel/spinlock.c. */
module Proc {
  import opened Common
  import opened SchedMachine
  import opened CoYield

  /** No process lock is held, and the interrupt bit agrees with the nesting depth. */
  ghost predicate Calm(s: State) {
    s.cpu.noff >= 0 && (s.cpu.noff > 0 ==> !s.cpu.intr) && forall i :: PLock(i) !in s.locks
  }

  /** wakeup's effect on one process. */
  function Woken(p: SchedMachine.Proc, chan: nat): SchedMachine.Proc {
    if p.state == SLEEPING && p.chan == Addr(chan) then p.(state := RUNNABLE) else p
  }

  function Killed(p: SchedMachine.Proc): SchedMachine.Proc {
    p.(killed := true, state := if p.state == SLEEPING then RUNNABLE else p.state)
  }

  datatype CoResult = Refused | SwitchTo(slot: nat)

  class Kernel {
    var procs: seq<SchedMachine.Proc>
    var locks: set<LockId>
    var cpu: Cpu

    ghost function Snap(): State
      reads this
    {
      State(procs, locks, cpu, SchedLoop, 1)
    }

    method PushOff()
      modifies `cpu
      ensures Snap() == SchedMachine.PushOff(old(Snap()))
    {
      var was := cpu.intr;
      cpu := cpu.(intr := false);
      if cpu.noff == 0 { cpu := cpu.(intena := was); }
      cpu := cpu.(noff := cpu.noff + 1);
    }

    method PopOff() returns (ok: bool)
      modifies `cpu
      ensures ok <==> SchedMachine.PopOff(old(Snap())).Ok?
      ensures ok ==> Snap() == SchedMachine.PopOff(old(Snap())).s
    {
      if cpu.intr { return false; }
      if cpu.noff < 1 { return false; }
      cpu := cpu.(noff := cpu.noff - 1);
      if cpu.noff == 0 && cpu.intena { cpu := cpu.(intr := true); }
      return true;
    }

    method AcquireLock(l: LockId) returns (ok: bool)
      modifies `cpu, `locks
      ensures ok <==> Acquire(old(Snap()), l).Ok?
      ensures ok ==> Snap() == Acquire(old(Snap()), l).s
    {
      PushOff();
      if l in locks { return false; }
      locks := locks + {l};
      return true;
    }

    method ReleaseLock(l: LockId) returns (ok: bool)
      modifies `cpu, `locks
      ensures ok <==> Release(old(Snap()), l).Ok?
      ensures ok ==> Snap() == Release(old(Snap()), l).s
    {
      if l !in locks { return false; }
      locks := locks - {l};
      ok := PopOff();
    }

    /** wakeup: exactly the sleepers on chan become RUNNABLE, the caller excepted; all locks are given back. */
    method Wakeup(chan: nat) returns (ok: bool)
      requires Calm(Snap())
      modifies this
      ensures ok && Calm(Snap()) && locks == old(locks) && cpu.proc == old(cpu.proc) && cpu.noff == old(cpu.noff)
      ensures |procs| == |old(procs)|
      ensures forall i :: 0 <= i < |procs| ==>
                procs[i] == if cpu.proc == Some(i) then old(procs)[i] else Woken(old(procs)[i], chan)
    {
      var i := 0;
      while i < |procs|
        invariant 0 <= i <= |procs| == |old(procs)|
        invariant Calm(Snap()) && locks == old(locks) && cpu.proc == old(cpu.proc) && cpu.noff == old(cpu.noff)
        invariant forall j :: 0 <= j < i ==>
                    procs[j] == if cpu.proc == Some(j) then old(procs)[j] else Woken(old(procs)[j], chan)
        invariant forall j :: i <= j < |procs| ==> procs[j] == old(procs)[j]
      {
        if cpu.proc != Some(i) {
          assert PLock(i) !in locks;
          ok := AcquireLock(PLock(i));
          if procs[i].state == SLEEPING && procs[i].chan == Addr(chan) {
            procs := procs[i := procs[i].(state := RUNNABLE)];
          }
          assert locks - {PLock(i)} == old(locks);
          ok := ReleaseLock(PLock(i));
          assert ok;
        }
        i := i + 1;
      }
      return true;
    }

    /** kill: marks and, if it sleeps, wakes the first slot with this pid; -1 if there is none. */
    method Kill(pid: int) returns (r: int)
      requires Calm(Snap())
      modifies this
      ensures Calm(Snap()) && locks == old(locks) && cpu.noff == old(cpu.noff)
      ensures r == -1 ==> procs == old(procs) && forall i :: 0 <= i < |procs| ==> procs[i].pid != pid
      ensures r != -1 ==>
                exists k :: && 0 <= k < |old(procs)| && old(procs)[k].pid == pid
                            && (forall i :: 0 <= i < k ==> old(procs)[i].pid != pid)
                            && procs == old(procs)[k := Killed(old(procs)[k])]
    {
      var i := 0;
      while i < |procs|
        invariant 0 <= i <= |procs| && procs == old(procs)
        invariant Calm(Snap()) && locks == old(locks) && cpu.noff == old(cpu.noff)
        invariant forall j :: 0 <= j < i ==> procs[j].pid != pid
      {
        assert PLock(i) !in locks;
        var ok := AcquireLock(PLock(i));
        if procs[i].pid == pid {
          procs := procs[i := procs[i].(killed := true)];
          if procs[i].state == SLEEPING {
            procs := procs[i := procs[i].(state := RUNNABLE)];
          }
          assert locks - {PLock(i)} == old(locks);
          ok := ReleaseLock(PLock(i));
          assert ok;
          assert procs == old(procs)[i := Killed(old(procs)[i])];
          return 0;
        }
        assert locks - {PLock(i)} == old(locks);
        ok := ReleaseLock(PLock(i));
        assert ok;
        i := i + 1;
      }
      return -1;
    }

    /** find_proc: the first live slot with this pid, with exactly its lock added. */
    method FindProc(pid: int) returns (found: Option<nat>)
      requires Calm(Snap())
      modifies `locks, `cpu
      ensures found.None? ==>
                && Calm(Snap()) && locks == old(locks) && cpu.noff == old(cpu.noff) && cpu.proc == old(cpu.proc)
                && forall i :: 0 <= i < |procs| ==> procs[i].pid != pid || procs[i].state == UNUSED
      ensures found.Some? ==>
                && found.value < |procs| && procs[found.value].pid == pid && procs[found.value].state != UNUSED
                && (forall i :: 0 <= i < found.value ==> procs[i].pid != pid || procs[i].state == UNUSED)
                && locks == old(locks) + {PLock(found.value)} && PLock(found.value) !in old(locks)
                && cpu.noff == old(cpu.noff) + 1 && !cpu.intr && cpu.proc == old(cpu.proc)
    {
      var i := 0;
      while i < |procs|
        invariant 0 <= i <= |procs|
        invariant Calm(Snap()) && locks == old(locks) && cpu.noff == old(cpu.noff) && cpu.proc == old(cpu.proc)
        invariant forall j :: 0 <= j < i ==> procs[j].pid != pid || procs[j].state == UNUSED
      {
        assert PLock(i) !in locks;
        var ok := AcquireLock(PLock(i));
        if procs[i].pid == pid && procs[i].state != UNUSED { return Some(i); }
        assert locks - {PLock(i)} == old(locks);
        ok := ReleaseLock(PLock(i));
        assert ok;
        i := i + 1;
      }
      return None;
    }

    /** The peer waits: both values change hands. */
    method Exchange(p: nat, t: nat, value: int)
      requires p < |procs| && t < |procs| && p != t
      modifies `procs
      ensures procs == AfterHandOff(old(Snap()), p, t, MeetMine(old(procs)[p], old(procs)[t], value),
                                    MeetTheirs(old(procs)[t], value))
    {
      procs := procs[p := procs[p].(a1 := value)];
      procs := procs[p := procs[p].(a0 := procs[t].a1)];
      if procs[t].a0 == -1 { procs := procs[t := procs[t].(a0 := value)]; }
      procs := procs[p := procs[p].(chan := CoChan(t), state := SLEEPING, resume := InCoYield)];
      procs := procs[t := procs[t].(state := RUNNING, chan := NoChan)];
    }

    /** The peer does not wait: leave our value and no answer. */
    method Park(p: nat, t: nat, value: int)
      requires p < |procs| && t < |procs| && p != t
      modifies `procs
      ensures procs == AfterHandOff(old(Snap()), p, t, ParkMine(old(procs)[p], value), old(procs)[t])
    {
      procs := procs[p := procs[p].(a1 := value)];
      procs := procs[p := procs[p].(a0 := -1)];
      procs := procs[p := procs[p].(chan := CoChan(t), state := SLEEPING, resume := InCoYield)];
      procs := procs[t := procs[t].(state := RUNNING)];
    }

    /** co_yield by process p up to its swtch; none of its lock calls panics. Refused calls change no process
        and give back every lock; a call that goes through leaves exactly the target's lock held, one level deep. */
    method CoYieldCall(p: nat, pid: int, value: int) returns (r: CoResult)
      requires p < |procs| && cpu.proc == Some(p) && locks == {} && cpu.noff == 0
      requires forall i, j :: 0 <= i < j < |procs| && procs[i].pid != 0 ==> procs[i].pid != procs[j].pid
      modifies this
      ensures r == Refused ==> procs == old(procs) && locks == {} && cpu.noff == 0 && cpu.proc == Some(p)
      ensures r.SwitchTo? ==>
                && var t := r.slot;
                && t < |old(procs)| && t != p
                && (Meets(old(Snap()), p, t, pid) || Parks(old(Snap()), p, t, pid))
                && procs == AfterHandOff(old(Snap()), p, t,
                                         if Meets(old(Snap()), p, t, pid)
                                         then MeetMine(old(procs)[p], old(procs)[t], value)
                                         else ParkMine(old(procs)[p], value),
                                         if Meets(old(Snap()), p, t, pid)
                                         then MeetTheirs(old(procs)[t], value) else old(procs)[t])
                && locks == {PLock(t)} && cpu.noff == 1 && !cpu.intr && cpu.proc == Some(t)
      ensures r == Refused <==>
                pid <= 0 || pid == old(procs)[p].pid ||
                forall t :: 0 <= t < |old(procs)| ==> !Meets(old(Snap()), p, t, pid) && !Parks(old(Snap()), p, t, pid)
    {
      var ok;
      if pid <= 0 || pid == procs[p].pid { return Refused; }
      var found := FindProc(pid);
      if found.None? { return Refused; }
      var t := found.value;
      ghost var s := old(Snap());
      assert forall i :: 0 <= i < |procs| && procs[i].pid == pid ==> i == t;
      assert locks == {PLock(t)} && {PLock(t)} - {PLock(t)} == {};
      assert Found(s, p, t, pid) <==> !procs[t].killed && !procs[p].killed;
      if procs[t].killed || procs[t].state == UNUSED || procs[t].state == ZOMBIE {
        ok := ReleaseLock(PLock(t));
        assert ok;
        return Refused;
      }
      if procs[t].state == SLEEPING {
        if procs[t].chan != CoChan(p) {
          ok := ReleaseLock(PLock(t));
          assert ok;
          return Refused;
        }
      } else if procs[t].state != RUNNABLE {
        ok := ReleaseLock(PLock(t));
        assert ok;
        return Refused;
      }
      ok := AcquireLock(PLock(p));
      assert ok;
      assert locks == {PLock(t), PLock(p)} && {PLock(t), PLock(p)} - {PLock(p)} == {PLock(t)};
      if procs[p].killed {
        ok := ReleaseLock(PLock(p));
        assert ok;
        ok := ReleaseLock(PLock(t));
        assert ok;
        return Refused;
      }
      if procs[t].state == SLEEPING {
        Exchange(p, t, value);
      } else {
        Park(p, t, value);
      }
      cpu := cpu.(proc := Some(t));
      ok := ReleaseLock(PLock(p));
      assert ok;
      return SwitchTo(t);
    }
  }
}
