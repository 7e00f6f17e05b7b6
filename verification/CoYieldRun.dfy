/** A run from boot in which co_yield does not return the value of the peer's matching call. */
module CoYieldRun {
  import opened Common
  import opened SchedMachine
  import opened SchedProofs
  import opened CoYield

  // ----- runs one step at a time -----

  lemma {:induction false} ExecSnoc(s: State, acts: seq<Action>, a: Action)
    requires CanRun(s, acts) && Exec(s, acts).Ok? && Enabled(Exec(s, acts).s, a)
    ensures CanRun(s, acts + [a]) && Exec(s, acts + [a]) == Step(Exec(s, acts).s, a)
    decreases |acts|
  {
    hide Enabled, Step;
    var all := acts + [a];
    if acts == [] {
      assert all[1..] == [];
    } else {
      assert all[0] == acts[0] && all[1..] == acts[1..] + [a];
      ExecSnoc(Step(s, acts[0]).s, acts[1..], a);
    }
  }

  /** The conversation acts leads from s, with nothing said, to r. */
  ghost predicate Told(s: State, acts: seq<Action>, x: nat, y: nat, talk: Talk, r: Result) {
    Slot(s, x) && Slot(s, y) && Conversation(s, acts, x, y) && Converse(s, acts, x, y, talk) == r
  }

  lemma {:induction false} ToldSnoc(s: State, acts: seq<Action>, x: nat, y: nat, talk: Talk, r: Result, a: Action)
    requires Told(s, acts, x, y, talk, r) && Slot(r.s, x) && Slot(r.s, y) && Inv(s)
    requires Enabled(r.s, a) && Allowed(r.s, a, x, y) && Step(r.s, a).Ok?
    requires Slot(Step(r.s, a).s, x) && Slot(Step(r.s, a).s, y)
    ensures Told(s, acts + [a], x, y, talk, Result(Step(r.s, a).s, Record(r.s, a, r.talk)))
    decreases |acts|
  {
    hide Enabled, Step, Record, Allowed, Inv;
    var all := acts + [a];
    if acts == [] {
      var t := Step(s, a).s;
      assert all[0] == a && all[1..] == [];
      assert Conversation(t, [], x, y) && Converse(t, [], x, y, Record(s, a, talk)) == Result(t, Record(s, a, talk));
    } else {
      assert all[0] == acts[0] && all[1..] == acts[1..] + [a];
      StepSafe(s, acts[0]);
      var t := Step(s, acts[0]).s;
      ToldSnoc(t, acts[1..], x, y, Record(s, acts[0], talk), r, a);
    }
  }

  // ----- two processes -----

  /** Slots 0 and 1 hold the processes 1 and 2, and process `p` runs outside the kernel. */
  ghost predicate Scene(r: Result, p: nat, q: nat) {
    && Inv(r.s) && |r.s.procs| >= 2 && r.s.procs[0].pid == 1 && r.s.procs[1].pid == 2
    && !r.s.procs[0].killed && !r.s.procs[1].killed && r.s.ctl == Run(p, Plain) && p + q == 1
    && r.talk.sent.Keys == {0, 1} && r.talk.got.Keys == {0, 1}
  }

  /** The peer is about to run for the first time. */
  predicate New(x: Proc) { x.state == RUNNABLE && x.resume == Forkret }

  /** The peer waits in co_yield for slot p. */
  predicate Waits(x: Proc, p: nat) { x.state == SLEEPING && x.chan == CoChan(p) && x.resume == InCoYield }

  /** After p's call with this value has switched to q, and q has come back: what the two slots and the record hold. */
  ghost predicate Switched(r: Result, u: Result, p: nat, q: nat, value: int)
    requires Scene(r, p, q)
  {
    var mine, theirs := r.s.procs[p], r.s.procs[q];
    var said := Say(r.talk, p, value);
    && Scene(u, q, p) && Waits(u.s.procs[p], q) && u.s.procs[p].a1 == value
    && (New(theirs) ==> u.s.procs[p].a0 == -1 && u.talk == said)
    && (Waits(theirs, p) ==>
          && u.s.procs[p].a0 == theirs.a1
          && u.talk == Hear(said, q, if theirs.a0 == -1 then value else theirs.a0))
  }

  /** p enters co_yield and looks through the slots before q's. */
  lemma Search(s: State, acts: seq<Action>, r: Result, p: nat, q: nat, value: int)
    returns (more: seq<Action>, u: Result)
    requires Inv(s) && Told(s, acts, 0, 1, Silence(0, 1), r) && Scene(r, p, q) && value != -1
    ensures Told(s, more, 0, 1, Silence(0, 1), u) && Inv(u.s) && u.talk == r.talk
    ensures u.s.ctl == Run(p, Finding(q, q + 1, value)) && |u.s.procs| == |r.s.procs|
    ensures u.s.procs == r.s.procs[p := r.s.procs[p].(a0 := q + 1, a1 := value)]
  {
    var a := ACoYield(q + 1, value);
    StepSafe(r.s, a);
    ToldSnoc(s, acts, 0, 1, Silence(0, 1), r, a);
    more, u := acts + [a], Result(Step(r.s, a).s, r.talk);
    if q == 1 { more, u := PassZero(s, more, u, p, value); }
  }

  lemma PassZero(s: State, acts: seq<Action>, r: Result, p: nat, value: int) returns (more: seq<Action>, u: Result)
    requires Inv(s) && Told(s, acts, 0, 1, Silence(0, 1), r) && Inv(r.s) && r.s.ctl == Run(p, Finding(0, 2, value))
    requires Slot(r.s, 0) && Slot(r.s, 1) && r.s.procs[0].pid != 2 && value != -1
    ensures Told(s, more, 0, 1, Silence(0, 1), u) && Inv(u.s) && u.talk == r.talk
    ensures u.s.ctl == Run(p, Finding(1, 2, value)) && u.s.procs == r.s.procs
  {
    FindPass(r.s, p, 0, 2, value);
    StepSafe(r.s, AFind);
    ToldSnoc(s, acts, 0, 1, Silence(0, 1), r, AFind);
    more, u := acts + [AFind], Result(Step(r.s, AFind).s, r.talk);
  }

  /** A round of find_proc at a slot with another pid. */
  lemma FindPass(s: State, p: nat, i: nat, pid: int, value: int)
    requires Inv(s) && s.ctl == Run(p, Finding(i, pid, value)) && Slot(s, i) && s.procs[i].pid != pid
    ensures FindRound(s, p, i, pid, value).Ok?
    ensures var t := FindRound(s, p, i, pid, value).s; t.procs == s.procs && t.ctl == Run(p, Finding(i + 1, pid, value))
  {
    FindSafe(s, p, i, pid, value);
  }

  /** The slots right after the hand-off. */
  function Handed(h: State, p: nat, q: nat, value: int): seq<Proc>
    requires Slot(h, p) && Slot(h, q)
  {
    if New(h.procs[q]) then AfterHandOff(h, p, q, ParkMine(h.procs[p], value), h.procs[q])
    else AfterHandOff(h, p, q, MeetMine(h.procs[p], h.procs[q], value), MeetTheirs(h.procs[q], value))
  }

  lemma HandsOver(h: State, talk: Talk, p: nat, q: nat, value: int)
    requires Inv(h) && h.ctl == Run(p, Finding(q, q + 1, value)) && Slot(h, p) && Slot(h, q) && p in talk.sent
    requires h.procs[q].pid == q + 1 && !h.procs[p].killed && !h.procs[q].killed
    requires New(h.procs[q]) || Waits(h.procs[q], p)
    ensures Enabled(h, AFind) && Step(h, AFind).Ok? && Inv(Step(h, AFind).s)
    ensures Step(h, AFind).s.ctl == Back(q) && Step(h, AFind).s.procs == Handed(h, p, q, value)
    ensures Record(h, AFind, talk) == Say(talk, p, value)
  {
    assert Enabled(h, AFind);
    StepSafe(h, AFind);
    FindOutcome(h, p, q, q + 1, value);
    assert h.procs[q].state != UNUSED;
  }

  lemma ComesBackTold(b: State, talk: Talk, q: nat)
    requires Inv(b) && b.ctl == Back(q) && (b.procs[q].resume == InCoYield || b.procs[q].resume == Forkret)
    requires q in talk.got
    ensures Enabled(b, AResume) && Step(b, AResume).Ok? && Inv(Step(b, AResume).s)
    ensures var t := Step(b, AResume).s;
            && t.ctl == Run(q, Plain)
            && t.procs == if b.procs[q].resume == Forkret then b.procs else b.procs[q := b.procs[q].(chan := NoChan)]
    ensures Record(b, AResume, talk) == if b.procs[q].resume == Forkret then talk else Hear(talk, q, b.procs[q].a0)
  {
    assert Enabled(b, AResume);
    StepSafe(b, AResume);
    ComesBack(b, q);
  }

  /** A whole call: p hands off to q, and q comes back. */
  lemma Call(s: State, acts: seq<Action>, r: Result, p: nat, q: nat, value: int) returns (more: seq<Action>, u: Result)
    requires Inv(s) && Told(s, acts, 0, 1, Silence(0, 1), r) && Scene(r, p, q) && value != -1
    requires New(r.s.procs[q]) || Waits(r.s.procs[q], p)
    ensures Told(s, more, 0, 1, Silence(0, 1), u) && Switched(r, u, p, q, value)
  {
    hide Told, Inv, Enabled, Step, Record;
    more, u := Search(s, acts, r, p, q, value);
    var h := u;
    HandsOver(h.s, h.talk, p, q, value);
    ToldSnoc(s, more, 0, 1, Silence(0, 1), h, AFind);
    more, u := more + [AFind], Result(Step(h.s, AFind).s, Say(h.talk, p, value));
    var b := u;
    ComesBackTold(b.s, b.talk, q);
    ToldSnoc(s, more, 0, 1, Silence(0, 1), b, AResume);
    more, u := more + [AResume], Result(Step(b.s, AResume).s, Record(b.s, AResume, b.talk));
  }

  lemma ComesBack(s: State, q: nat)
    requires Inv(s) && s.ctl == Back(q) && (s.procs[q].resume == InCoYield || s.procs[q].resume == Forkret)
    ensures ResumeAt(s, q).Ok?
    ensures var t := ResumeAt(s, q).s;
            && t.ctl == Run(q, Plain)
            && t.procs == if s.procs[q].resume == Forkret then s.procs else s.procs[q := s.procs[q].(chan := NoChan)]
  {
    ResumeSafe(s, q);
  }

  // ----- from boot -----

  /** The first process runs and forks a second one. */
  lemma TwoProcesses(s: State) returns (before: seq<Action>)
    requires Boot(s) && |s.procs| >= 2
    ensures CanRun(s, before) && Exec(s, before).Ok?
    ensures var t := Exec(s, before).s; Scene(Result(t, Silence(0, 1)), 0, 1) && New(t.procs[1]) && Strangers(t, 0, 1)
  {
    hide CanRun, Exec;
    assert CanRun(s, []) && Exec(s, []) == Ok(s) by { NoSteps(s); }
    assert Inv(s);
    before := [];
    StepSafe(s, APick(0));
    ExecSnoc(s, before, APick(0));
    before := before + [APick(0)];
    var t1 := Exec(s, before).s;
    assert t1.procs == s.procs[0 := s.procs[0].(state := RUNNING)] && t1.ctl == Back(0);
    StepSafe(t1, AResume);
    ExecSnoc(s, before, AResume);
    before := before + [AResume];
    var t2 := Exec(s, before).s;
    assert t2.procs == t1.procs && t2.ctl == Run(0, Plain) && t2.nextpid == 2;
    before := Born(s, before);
  }

  lemma Born(s: State, acts: seq<Action>) returns (more: seq<Action>)
    requires CanRun(s, acts) && Exec(s, acts).Ok?
    requires var t := Exec(s, acts).s;
             && Inv(t) && |t.procs| >= 2 && t.ctl == Run(0, Plain) && t.nextpid == 2 && t.procs[0].pid == 1
             && t.procs[1].state == UNUSED && !t.procs[0].killed && !t.procs[1].killed && t.procs[0].resume == Forkret
    ensures CanRun(s, more) && Exec(s, more).Ok?
    ensures var u := Exec(s, more).s; Scene(Result(u, Silence(0, 1)), 0, 1) && New(u.procs[1]) && Strangers(u, 0, 1)
  {
    hide CanRun, Exec;
    var t := Exec(s, acts).s;
    StepSafe(t, ATouch(1, Alloc));
    ExecSnoc(s, acts, ATouch(1, Alloc));
    more := acts + [ATouch(1, Alloc)];
    var t1 := Exec(s, more).s;
    assert t1.procs == t.procs[1 := t.procs[1].(state := USED, pid := 2, resume := Forkret)] && t1.ctl == t.ctl;
    StepSafe(t1, ATouch(1, Publish));
    ExecSnoc(s, more, ATouch(1, Publish));
    more := more + [ATouch(1, Publish)];
    var t2 := Exec(s, more).s;
    assert t2.procs == t1.procs[1 := t1.procs[1].(state := RUNNABLE)] && t2.ctl == t.ctl;
  }

  lemma NoSteps(s: State)
    ensures CanRun(s, []) && Exec(s, []) == Ok(s)
  {
  }

  lemma NothingSaid(s: State, x: nat, y: nat, talk: Talk)
    requires Slot(s, x) && Slot(s, y)
    ensures Told(s, [], x, y, talk, Result(s, talk))
  {
  }

  /** A record of what the two have said and heard. */
  function Notes(first: Option<nat>, sent0: seq<int>, sent1: seq<int>, got0: seq<int>, got1: seq<int>): Talk {
    Talk(first, map[0 := sent0, 1 := sent1], map[0 := got0, 1 := got1])
  }

  lemma ZeroSpoke(first: Option<nat>, sent0: seq<int>, sent1: seq<int>, got0: seq<int>, got1: seq<int>, v: int, w: int)
    ensures var talk := Say(Notes(first, sent0, sent1, got0, got1), 0, v);
            var f := if first.None? then Some(0) else first;
            && talk == Notes(f, sent0 + [v], sent1, got0, got1)
            && Hear(talk, 1, w) == Notes(f, sent0 + [v], sent1, got0, got1 + [w])
  {
  }

  lemma OneSpoke(first: Option<nat>, sent0: seq<int>, sent1: seq<int>, got0: seq<int>, got1: seq<int>, v: int, w: int)
    requires first.Some?
    ensures var talk := Say(Notes(first, sent0, sent1, got0, got1), 1, v);
            Hear(talk, 0, w) == Notes(first, sent0, sent1 + [v], got0 + [w], got1)
  {
  }

  /** The first two calls. */
  lemma FirstExchange(t: State) returns (acts: seq<Action>, v: Result)
    requires Scene(Result(t, Silence(0, 1)), 0, 1) && New(t.procs[1])
    ensures Told(t, acts, 0, 1, Silence(0, 1), v) && Scene(v, 0, 1) && Waits(v.s.procs[1], 0)
    ensures v.talk == Notes(Some(0), [1], [10], [10], []) && v.s.procs[1].a0 == 1 && v.s.procs[1].a1 == 10
  {
    hide Told, Inv, Say, Hear;
    NothingSaid(t, 0, 1, Silence(0, 1));
    var u;
    acts, u := Call(t, [], Result(t, Silence(0, 1)), 0, 1, 1);
    ZeroSpoke(None, [], [], [], [], 1, 0);
    assert [] + [1] == [1] && u.talk == Notes(Some(0), [1], [], [], []);
    acts, v := Call(t, acts, u, 1, 0, 10);
    OneSpoke(Some(0), [1], [], [], [], 10, 10);
    assert [] + [10] == [10];
  }

  lemma SecondExchange(t: State, acts: seq<Action>, v: Result) returns (more: seq<Action>, z: Result)
    requires Inv(t) && Told(t, acts, 0, 1, Silence(0, 1), v) && Scene(v, 0, 1) && Waits(v.s.procs[1], 0)
    requires v.talk == Notes(Some(0), [1], [10], [10], []) && v.s.procs[1].a0 == 1 && v.s.procs[1].a1 == 10
    ensures Told(t, more, 0, 1, Silence(0, 1), z) && z.talk == Notes(Some(0), [1, 2], [10, 20], [10, 10], [1])
  {
    hide Told, Inv, Say, Hear;
    var w;
    more, w := Call(t, acts, v, 0, 1, 2);
    ZeroSpoke(Some(0), [1], [10], [10], [], 2, 1);
    assert [1] + [2] == [1, 2] && [] + [1] == [1];
    assert w.talk == Notes(Some(0), [1, 2], [10], [10], [1]);
    more, z := Call(t, more, w, 1, 0, 20);
    OneSpoke(Some(0), [1, 2], [10], [10], [1], 20, 10);
    assert [10] + [20] == [10, 20] && [10] + [10] == [10, 10];
  }

  /** The values are not exchanged. From every boot state with room for two processes there is a run in which process 1
      passes 1 and 2, process 2 answers with 10 and 20, and process 1 hears 10 twice. */
  lemma NotExchanged(s: State) returns (before: seq<Action>, acts: seq<Action>)
    requires Boot(s) && |s.procs| >= 2
    ensures CanRun(s, before) && Exec(s, before).Ok?
    ensures Strangers(Exec(s, before).s, 0, 1) && Conversation(Exec(s, before).s, acts, 0, 1)
    ensures var talk := Converse(Exec(s, before).s, acts, 0, 1, Silence(0, 1)).talk;
            && talk.first == Some(0) && talk.sent == map[0 := [1, 2], 1 := [10, 20]]
            && talk.got == map[0 := [10, 10], 1 := [1]]
  {
    hide CanRun, Exec, Conversation, Converse, Inv, Boot;
    before := TwoProcesses(s);
    var t := Exec(s, before).s;
    var v;
    acts, v := FirstExchange(t);
    var z;
    acts, z := SecondExchange(t, acts, v);
  }
}
