/** Which value each co_yield call returns, in every run between two processes (kernel/proc.c:480-587). */
module CoYield {
  import opened Common
  import opened SchedMachine
  import opened SchedProofs

  /** What two processes said to each other so far: the values of the hand-offs each one made, the values
      its finished calls returned, and which one made the first hand-off. */
  datatype Talk = Talk(first: Option<nat>, sent: map<nat, seq<int>>, got: map<nat, seq<int>>)

  /** A step is a hand-off of process p if it is the end of p's co_yield that switches to the peer, and an
      answer if p comes back from such a switch. */
  predicate IsHandOff(s: State, a: Action)
    requires Enabled(s, a)
  {
    a.AFind? && Step(s, a).Ok? && Step(s, a).s.ctl.Back?
  }

  predicate IsAnswer(s: State, a: Action)
    requires Enabled(s, a)
  {
    a.AResume? && s.procs[s.ctl.p].resume == InCoYield
  }

  function Record(s: State, a: Action, talk: Talk): Talk
    requires Enabled(s, a)
  {
    if IsHandOff(s, a) && s.ctl.p in talk.sent then
      Say(talk, s.ctl.p, s.ctl.task.value)
    else if IsAnswer(s, a) && s.ctl.p in talk.got then
      Hear(talk, s.ctl.p, s.procs[s.ctl.p].a0)
    else talk
  }

  /** The two processes call co_yield only on each other and never with -1; nobody kills or reaps them. */
  predicate Allowed(s: State, a: Action, x: nat, y: nat)
    requires Slot(s, x) && Slot(s, y)
  {
    match a
    case ACoYield(pid, value) =>
      && (s.ctl.Run? && s.ctl.p == x ==> pid == s.procs[y].pid && value != -1)
      && (s.ctl.Run? && s.ctl.p == y ==> pid == s.procs[x].pid && value != -1)
    case ATouch(i, w) =>
      i == x || i == y ==> w.Wake? || w.Alloc? || w.Publish? || (w.KillPid? && Slot(s, i) && w.pid != s.procs[i].pid)
    case _ => true
  }

  // ----- the law -----

  /** x is between the hand-off and the return of a co_yield call. */
  predicate InCall(s: State, x: nat)
    requires Slot(s, x)
  {
    var p := s.procs[x];
    p.resume == InCoYield && (p.state == SLEEPING || p.state == RUNNABLE || s.ctl == Back(x))
  }

  predicate Parked(s: State, x: nat, y: nat)
    requires Slot(s, x)
  {
    s.procs[x].state == SLEEPING && s.procs[x].chan == CoChan(y) && s.procs[x].resume == InCoYield
  }

  predicate AimsAt(task: Task, pid: int) {
    task.Finding? ==> task.pid == pid && task.value != -1
  }

  /** x is alive, not killed, and any co_yield it is in the middle of looks for y. */
  predicate Ready(s: State, x: nat, y: nat)
    requires Slot(s, x) && Slot(s, y)
  {
    && !s.procs[x].killed && s.procs[x].pid > 0
    && (s.ctl.Run? && s.ctl.p == x ==> AimsAt(s.ctl.task, s.procs[y].pid))
    && (s.procs[x].resume.InYield? ==> AimsAt(s.procs[x].resume.task, s.procs[y].pid))
  }

  /** The value that call number k+1 of the first side returns. */
  function FirstAnswer(sent: seq<int>, k: nat): int
    requires sent != [] && k <= |sent|
  {
    if k == 0 then sent[0] else sent[k - 1]
  }

  /** What has been returned so far is right: the second side's calls return the first side's values in
      order; the first side's calls lag one behind from its second call on. */
  ghost predicate Delivered(talk: Talk, f: nat, g: nat)
    requires f in talk.sent && g in talk.sent && f in talk.got && g in talk.got
  {
    && (forall k :: 0 <= k < |talk.sent[f]| ==> talk.sent[f][k] != -1)
    && (forall k :: 0 <= k < |talk.sent[g]| ==> talk.sent[g][k] != -1)
    && |talk.got[g]| <= |talk.sent[f]| && |talk.got[f]| <= |talk.sent[g]| + 1
    && (talk.sent[g] == [] ==> talk.got[f] == [])
    && (forall k :: 0 <= k < |talk.got[g]| ==> talk.got[g][k] == talk.sent[f][k])
    && (forall k :: 0 <= k < |talk.got[f]| ==> talk.got[f][k] == FirstAnswer(talk.sent[g], k))
  }

  /** The first side waits; it has made one hand-off more than its peer. */
  ghost predicate FirstWaits(s: State, talk: Talk, f: nat, g: nat)
    requires Slot(s, f) && Slot(s, g)
    requires f in talk.sent && g in talk.sent && f in talk.got && g in talk.got
  {
    var n := |talk.sent[g]|;
    && |talk.sent[f]| == n + 1 && |talk.got[f]| == n
    && Parked(s, f, g)
    && s.procs[f].a1 == talk.sent[f][n]
    && s.procs[f].a0 == (if n == 0 then -1 else talk.sent[g][n - 1])
    && (InCall(s, g) ==> s.ctl == Back(g) && n >= 1 && |talk.got[g]| == n - 1 && s.procs[g].a0 == talk.sent[f][n - 1])
    && (!InCall(s, g) ==> |talk.got[g]| == n)
  }

  /** The second side waits; both have made the same number of hand-offs. */
  ghost predicate SecondWaits(s: State, talk: Talk, f: nat, g: nat)
    requires Slot(s, f) && Slot(s, g)
    requires f in talk.sent && g in talk.sent && f in talk.got && g in talk.got
  {
    var n := |talk.sent[g]|;
    && n >= 1 && |talk.sent[f]| == n && |talk.got[g]| == n - 1
    && Parked(s, g, f)
    && s.procs[g].a1 == talk.sent[g][n - 1]
    && s.procs[g].a0 == talk.sent[f][n - 1]
    && (InCall(s, f) ==>
          s.ctl == Back(f) && |talk.got[f]| == n - 1 && s.procs[f].a0 == FirstAnswer(talk.sent[g], n - 1))
    && (!InCall(s, f) ==> |talk.got[f]| == n)
  }

  ghost predicate Pair(s: State, x: nat, y: nat, talk: Talk) {
    && x != y && Slot(s, x) && Slot(s, y)
    && talk.sent.Keys == {x, y} && talk.got.Keys == {x, y}
    && (talk.first.Some? ==> talk.first.value in {x, y})
  }

  function Other(x: nat, y: nat, f: nat): nat {
    if f == x then y else x
  }

  ghost predicate Law(s: State, x: nat, y: nat, talk: Talk) {
    && Pair(s, x, y, talk)
    && Ready(s, x, y) && Ready(s, y, x)
    && (talk.first.None? ==>
          && !InCall(s, x) && !InCall(s, y)
          && talk.sent[x] == [] && talk.sent[y] == [] && talk.got[x] == [] && talk.got[y] == [])
    && (talk.first.Some? ==>
          var f := talk.first.value; var g := Other(x, y, f);
          && Delivered(talk, f, g)
          && (FirstWaits(s, talk, f, g) || SecondWaits(s, talk, f, g)))
  }

  // ----- steps that neither hand off between the two nor return from a hand-off -----

  /** What such a step does to process x. */
  predicate Quiet(s: State, t: State, x: nat, y: nat)
    requires Slot(s, x) && Slot(s, y)
  {
    && Slot(t, x) && Slot(t, y)
    && t.procs[x].pid == s.procs[x].pid && t.procs[x].killed == s.procs[x].killed
    && (Parked(s, x, y) ==> t.procs[x] == s.procs[x])
    && (InCall(t, x) <==> InCall(s, x))
    && (InCall(s, x) ==> t.procs[x].a0 == s.procs[x].a0 && (t.ctl == Back(x) <==> s.ctl == Back(x)))
    && (t.ctl.Run? && t.ctl.p == x ==> AimsAt(t.ctl.task, s.procs[y].pid))
    && (t.procs[x].resume.InYield? ==> AimsAt(t.procs[x].resume.task, s.procs[y].pid))
  }

  lemma QuietKeepsLaw(s: State, t: State, x: nat, y: nat, talk: Talk)
    requires Law(s, x, y, talk) && Quiet(s, t, x, y) && Quiet(s, t, y, x)
    ensures Law(t, x, y, talk)
  {
  }

  /** Both processes, seen from either side. */
  ghost predicate Context(s: State, x: nat, y: nat) {
    && Inv(s) && x != y && Slot(s, x) && Slot(s, y) && Ready(s, x, y) && Ready(s, y, x)
    && (InCall(s, x) ==> Parked(s, x, y) || s.ctl == Back(x))
  }

  lemma LawContext(s: State, x: nat, y: nat, talk: Talk)
    requires Inv(s) && Law(s, x, y, talk)
    ensures Context(s, x, y) && Context(s, y, x)
  {
  }

  lemma PickQuiet(s: State, i: nat, x: nat, y: nat)
    requires Context(s, x, y) && s.ctl.SchedLoop? && Slot(s, i)
    ensures SchedPick(s, i).Ok? && Quiet(s, SchedPick(s, i).s, x, y)
  {
    PickSafe(s, i);
  }

  lemma ReturnQuiet(s: State, x: nat, y: nat)
    requires Context(s, x, y) && s.ctl.SchedBack?
    ensures SchedReturn(s).Ok? && Quiet(s, SchedReturn(s).s, x, y)
  {
    ReturnSafe(s);
  }

  lemma YieldQuiet(s: State, p: nat, task: Task, x: nat, y: nat)
    requires Context(s, x, y) && s.ctl == Run(p, task)
    ensures Yield(s, p, task).Ok? && Quiet(s, Yield(s, p, task).s, x, y)
  {
    YieldSafe(s, p, task);
  }

  lemma SleepQuiet(s: State, p: nat, chan: nat, lk: nat, x: nat, y: nat)
    requires Context(s, x, y) && s.ctl == RunLocked(p, lk)
    ensures Sleep(s, p, chan, lk).Ok? && Quiet(s, Sleep(s, p, chan, lk).s, x, y)
  {
    SleepSafe(s, p, chan, lk);
  }

  lemma ExitQuiet(s: State, p: nat, x: nat, y: nat)
    requires Context(s, x, y) && s.ctl == RunLocked(p, WAITLOCK)
    ensures Exit(s, p).Ok? && Quiet(s, Exit(s, p).s, x, y)
  {
    ExitSafe(s, p);
  }

  lemma TouchedQuiet(s: State, i: nat, w: Touch, c: Cpu, x: nat, y: nat)
    requires Context(s, x, y) && Enabled(s, ATouch(i, w)) && Allowed(s, ATouch(i, w), x, y)
    ensures Quiet(s, Touched(s, i, w).(cpu := c), x, y)
  {
    assert ContextOk(s.procs[i]);
  }

  lemma TouchQuiet(s: State, i: nat, w: Touch, x: nat, y: nat)
    requires Context(s, x, y) && Enabled(s, ATouch(i, w)) && Allowed(s, ATouch(i, w), x, y)
    ensures TouchSlot(s, i, w).Ok? && Quiet(s, TouchSlot(s, i, w).s, x, y)
  {
    LockRound(s, i, w);
    var c := s.cpu.(intena := if s.cpu.noff == 0 then s.cpu.intr else s.cpu.intena);
    TouchedQuiet(s, i, w, c, x, y);
    hide TouchSlot, Touched, Quiet, Inv;
  }

  /** A process other than x and y comes back, or x comes back from something else than co_yield. */
  lemma ResumeQuiet(s: State, p: nat, x: nat, y: nat)
    requires Context(s, x, y) && s.ctl == Back(p) && (p == x ==> s.procs[p].resume != InCoYield)
    ensures ResumeAt(s, p).Ok? && Quiet(s, ResumeAt(s, p).s, x, y)
  {
    ResumeSafe(s, p);
  }

  // ----- co_yield itself -----

  /** find_proc's round at slot i finds the pid, and the call goes through. */
  predicate Found(s: State, p: nat, i: nat, pid: int)
    requires Slot(s, p)
  {
    && Slot(s, i) && s.procs[i].pid == pid && s.procs[i].state != UNUSED
    && !s.procs[i].killed && !s.procs[p].killed
  }

  predicate Meets(s: State, p: nat, i: nat, pid: int)
    requires Slot(s, p)
  {
    Found(s, p, i, pid) && s.procs[i].state == SLEEPING && s.procs[i].chan == CoChan(p)
  }

  predicate Parks(s: State, p: nat, i: nat, pid: int)
    requires Slot(s, p)
  {
    Found(s, p, i, pid) && s.procs[i].state == RUNNABLE
  }

  function AfterHandOff(s: State, p: nat, i: nat, mine: Proc, theirs: Proc): seq<Proc>
    requires Slot(s, p) && Slot(s, i)
  {
    s.procs[p := mine.(chan := CoChan(i), state := SLEEPING, resume := InCoYield)][i := theirs.(state := RUNNING)]
  }

  /** All outcomes of one round of the loop. */
  lemma FindOutcome(s: State, p: nat, i: nat, pid: int, value: int)
    requires Inv(s) && s.ctl == Run(p, Finding(i, pid, value))
    ensures FindRound(s, p, i, pid, value).Ok?
    ensures var t := FindRound(s, p, i, pid, value).s;
            if Meets(s, p, i, pid) then
              && t.ctl == Back(i)
              && t.procs == AfterHandOff(s, p, i, MeetMine(s.procs[p], s.procs[i], value),
                                         MeetTheirs(s.procs[i], value))
            else if Parks(s, p, i, pid) then
              t.ctl == Back(i) && t.procs == AfterHandOff(s, p, i, ParkMine(s.procs[p], value), s.procs[i])
            else
              t.procs == s.procs && t.ctl.Run? && t.ctl.p == p
                && (t.ctl.task == Plain || t.ctl.task == Finding(i + 1, pid, value))
  {
    FindSafe(s, p, i, pid, value);
  }

  /** A round that ends in no hand-off, or in one of a third process, leaves x as it was. */
  lemma FindQuiet(s: State, p: nat, i: nat, pid: int, value: int, x: nat, y: nat)
    requires Context(s, x, y) && Context(s, y, x) && s.ctl == Run(p, Finding(i, pid, value))
    requires p == x || p == y ==> !Meets(s, p, i, pid) && !Parks(s, p, i, pid)
    ensures FindRound(s, p, i, pid, value).Ok? && Quiet(s, FindRound(s, p, i, pid, value).s, x, y)
  {
    FindOutcome(s, p, i, pid, value);
    if Slot(s, i) { assert ContextOk(s.procs[i]); }
  }

  function Say(talk: Talk, p: nat, value: int): Talk
    requires p in talk.sent
  {
    talk.(first := if talk.first.None? then Some(p) else talk.first,
          sent := talk.sent[p := talk.sent[p] + [value]])
  }

  function Hear(talk: Talk, p: nat, value: int): Talk
    requires p in talk.got
  {
    talk.(got := talk.got[p := talk.got[p] + [value]])
  }

  /** A pid belongs to one slot. */
  lemma PidIsSlot(s: State, i: nat, y: nat)
    requires PidsOk(s) && Slot(s, i) && Slot(s, y) && s.procs[y].pid > 0 && s.procs[i].pid == s.procs[y].pid
    ensures i == y
  {
    assert i < y || y < i || i == y;
  }

  /** More values said do not disturb what was heard. */
  lemma SayKeepsDelivered(talk: Talk, f: nat, g: nat, p: nat, value: int)
    requires f != g && talk.sent.Keys == {f, g} && talk.got.Keys == {f, g} && p in {f, g} && value != -1
    requires Delivered(talk, f, g)
    ensures Delivered(Say(talk, p, value), f, g)
  {
    var later := Say(talk, p, value);
    assert forall k :: 0 <= k < |talk.sent[p]| ==> later.sent[p][k] == talk.sent[p][k];
  }

  /** The very first hand-off: p parks without an answer. */
  lemma FirstHandOff(s: State, p: nat, i: nat, pid: int, value: int, x: nat, y: nat, talk: Talk)
    requires Inv(s) && Law(s, x, y, talk) && talk.first.None? && s.ctl == Run(p, Finding(i, pid, value)) && p in {x, y}
    requires Meets(s, p, i, pid) || Parks(s, p, i, pid)
    ensures Law(FindRound(s, p, i, pid, value).s, x, y, Say(talk, p, value))
  {
    var peer := Other(x, y, p);
    PidIsSlot(s, i, peer);
    assert ContextOk(s.procs[i]);
    FindOutcome(s, p, i, pid, value);
    assert FirstWaits(FindRound(s, p, i, pid, value).s, Say(talk, p, value), p, peer);
  }

  /** The second side answers: it takes the first side's latest value and goes to sleep. */
  lemma SecondHandOff(s: State, p: nat, i: nat, pid: int, value: int, x: nat, y: nat, talk: Talk)
    requires Inv(s) && Law(s, x, y, talk) && talk.first.Some? && s.ctl == Run(p, Finding(i, pid, value)) && p in {x, y}
    requires FirstWaits(s, talk, talk.first.value, Other(x, y, talk.first.value))
    requires Meets(s, p, i, pid) || Parks(s, p, i, pid)
    ensures Law(FindRound(s, p, i, pid, value).s, x, y, Say(talk, p, value))
  {
    var f := talk.first.value;
    var g := Other(x, y, f);
    assert p == g;
    PidIsSlot(s, i, f);
    FindOutcome(s, p, i, pid, value);
    SayKeepsDelivered(talk, f, g, p, value);
    assert SecondWaits(FindRound(s, p, i, pid, value).s, Say(talk, p, value), f, g);
  }

  /** The first side calls again: it takes the second side's latest value, and the second side keeps the
      answer it was already given. */
  lemma LaterHandOff(s: State, p: nat, i: nat, pid: int, value: int, x: nat, y: nat, talk: Talk)
    requires Inv(s) && Law(s, x, y, talk) && talk.first.Some? && s.ctl == Run(p, Finding(i, pid, value)) && p in {x, y}
    requires SecondWaits(s, talk, talk.first.value, Other(x, y, talk.first.value))
    requires Meets(s, p, i, pid) || Parks(s, p, i, pid)
    ensures Law(FindRound(s, p, i, pid, value).s, x, y, Say(talk, p, value))
  {
    var f := talk.first.value;
    var g := Other(x, y, f);
    assert p == f;
    PidIsSlot(s, i, g);
    FindOutcome(s, p, i, pid, value);
    SayKeepsDelivered(talk, f, g, p, value);
    assert FirstWaits(FindRound(s, p, i, pid, value).s, Say(talk, p, value), f, g);
  }

  /** What coming back from a hand-off does to the state. */
  lemma AnswerOutcome(s: State, p: nat)
    requires Inv(s) && s.ctl == Back(p) && s.procs[p].resume == InCoYield
    ensures ResumeAt(s, p).Ok?
    ensures var t := ResumeAt(s, p).s; t.procs == s.procs[p := s.procs[p].(chan := NoChan)] && t.ctl == Run(p, Plain)
  {
    ResumeSafe(s, p);
  }

  lemma FirstHears(s: State, x: nat, y: nat, talk: Talk)
    requires Inv(s) && Law(s, x, y, talk) && talk.first.Some?
    requires s.ctl == Back(talk.first.value) && s.procs[talk.first.value].resume == InCoYield
    ensures var f := talk.first.value;
            ResumeAt(s, f).Ok? && Law(ResumeAt(s, f).s, x, y, Hear(talk, f, s.procs[f].a0))
  {
    var f := talk.first.value;
    var g := Other(x, y, f);
    AnswerOutcome(s, f);
    assert InCall(s, f);
    var heard := Hear(talk, f, s.procs[f].a0);
    assert SecondWaits(ResumeAt(s, f).s, heard, f, g);
  }

  lemma SecondHears(s: State, p: nat, x: nat, y: nat, talk: Talk)
    requires Inv(s) && Law(s, x, y, talk) && talk.first.Some? && p == Other(x, y, talk.first.value)
    requires s.ctl == Back(p) && s.procs[p].resume == InCoYield
    ensures ResumeAt(s, p).Ok? && Law(ResumeAt(s, p).s, x, y, Hear(talk, p, s.procs[p].a0))
  {
    var f := talk.first.value;
    AnswerOutcome(s, p);
    assert InCall(s, p);
    var heard := Hear(talk, p, s.procs[p].a0);
    assert FirstWaits(ResumeAt(s, p).s, heard, f, p);
  }

  lemma AnswerKeepsLaw(s: State, p: nat, x: nat, y: nat, talk: Talk)
    requires Inv(s) && Law(s, x, y, talk) && s.ctl == Back(p) && p in {x, y} && s.procs[p].resume == InCoYield
    ensures ResumeAt(s, p).Ok? && Law(ResumeAt(s, p).s, x, y, Hear(talk, p, s.procs[p].a0))
  {
    assert InCall(s, p);
    if Some(p) == talk.first {
      FirstHears(s, x, y, talk);
    } else {
      SecondHears(s, p, x, y, talk);
    }
  }

  // ----- all steps -----

  lemma FindKeepsLaw(s: State, p: nat, i: nat, pid: int, value: int, x: nat, y: nat, talk: Talk)
    requires Inv(s) && Law(s, x, y, talk) && s.ctl == Run(p, Finding(i, pid, value))
    ensures FindRound(s, p, i, pid, value).Ok?
    ensures var t := FindRound(s, p, i, pid, value).s;
            Law(t, x, y, if t.ctl.Back? && p in talk.sent then Say(talk, p, value) else talk)
  {
    LawContext(s, x, y, talk);
    FindOutcome(s, p, i, pid, value);
    if p in {x, y} && (Meets(s, p, i, pid) || Parks(s, p, i, pid)) {
      if talk.first.None? {
        FirstHandOff(s, p, i, pid, value, x, y, talk);
      } else if FirstWaits(s, talk, talk.first.value, Other(x, y, talk.first.value)) {
        SecondHandOff(s, p, i, pid, value, x, y, talk);
      } else {
        LaterHandOff(s, p, i, pid, value, x, y, talk);
      }
    } else {
      FindQuiet(s, p, i, pid, value, x, y);
      FindQuiet(s, p, i, pid, value, y, x);
      QuietKeepsLaw(s, FindRound(s, p, i, pid, value).s, x, y, talk);
    }
  }

  lemma ResumeKeepsLaw(s: State, p: nat, x: nat, y: nat, talk: Talk)
    requires Inv(s) && Law(s, x, y, talk) && s.ctl == Back(p)
    ensures ResumeAt(s, p).Ok?
    ensures Law(ResumeAt(s, p).s, x, y,
                if s.procs[p].resume == InCoYield && p in talk.got then Hear(talk, p, s.procs[p].a0) else talk)
  {
    LawContext(s, x, y, talk);
    if s.procs[p].resume == InCoYield && p in {x, y} {
      AnswerKeepsLaw(s, p, x, y, talk);
    } else {
      ResumeQuiet(s, p, x, y);
      ResumeQuiet(s, p, y, x);
      QuietKeepsLaw(s, ResumeAt(s, p).s, x, y, talk);
    }
  }

  /** Every other step is quiet for both. */
  lemma OtherStepQuiet(s: State, a: Action, x: nat, y: nat)
    requires Context(s, x, y) && Enabled(s, a) && Allowed(s, a, x, y) && !a.AFind? && !a.AResume?
    ensures Step(s, a).Ok? && Quiet(s, Step(s, a).s, x, y)
  {
    match a
    case ASetIntr(_) =>
    case APick(i) => PickQuiet(s, i, x, y);
    case AReturn => ReturnQuiet(s, x, y);
    case ATrap(_, _) =>
    case AYield => YieldQuiet(s, s.ctl.p, s.ctl.task, x, y);
    case ALock(_) =>
    case AUnlock =>
    case ASleep(chan) => SleepQuiet(s, s.ctl.p, chan, s.ctl.lk, x, y);
    case AExit => ExitQuiet(s, s.ctl.p, x, y);
    case ATouch(i, w) => TouchQuiet(s, i, w, x, y);
    case ACoYield(_, _) =>
  }

  lemma OtherStepKeepsLaw(s: State, a: Action, x: nat, y: nat, talk: Talk)
    requires Inv(s) && Law(s, x, y, talk) && Enabled(s, a) && Allowed(s, a, x, y) && !a.AFind? && !a.AResume?
    ensures Step(s, a).Ok? && Law(Step(s, a).s, x, y, Record(s, a, talk))
  {
    hide Inv, Quiet, Step, Enabled, InCall, Parked, Ready;
    LawContext(s, x, y, talk);
    OtherStepQuiet(s, a, x, y);
    OtherStepQuiet(s, a, y, x);
    assert Record(s, a, talk) == talk;
    QuietKeepsLaw(s, Step(s, a).s, x, y, talk);
  }

  lemma StepKeepsLaw(s: State, a: Action, x: nat, y: nat, talk: Talk)
    requires Inv(s) && Law(s, x, y, talk) && Enabled(s, a) && Allowed(s, a, x, y)
    ensures Step(s, a).Ok? && Law(Step(s, a).s, x, y, Record(s, a, talk))
  {
    hide Inv, Law;
    if a.AFind? {
      FindKeepsLaw(s, s.ctl.p, s.ctl.task.slot, s.ctl.task.pid, s.ctl.task.value, x, y, talk);
    } else if a.AResume? {
      ResumeKeepsLaw(s, s.ctl.p, x, y, talk);
    } else {
      OtherStepKeepsLaw(s, a, x, y, talk);
    }
  }

  /** A parked process leaves SLEEPING only by its peer's hand-off. */
  lemma ParkedUntilPeer(s: State, a: Action, x: nat, y: nat)
    requires Context(s, x, y) && Context(s, y, x) && Enabled(s, a) && Allowed(s, a, x, y) && Parked(s, x, y)
    ensures Step(s, a).Ok? && (Parked(Step(s, a).s, x, y) || (IsHandOff(s, a) && s.ctl.p == y))
  {
    if a.AFind? {
      var p, i, pid, value := s.ctl.p, s.ctl.task.slot, s.ctl.task.pid, s.ctl.task.value;
      FindOutcome(s, p, i, pid, value);
      if p != y { FindQuiet(s, p, i, pid, value, x, y); }
    } else if a.AResume? {
      ResumeQuiet(s, s.ctl.p, x, y);
    } else {
      OtherStepQuiet(s, a, x, y);
    }
  }

  // ----- every run -----

  /** A run in which x and y keep to the rules. */
  predicate Conversation(s: State, acts: seq<Action>, x: nat, y: nat)
    requires Slot(s, x) && Slot(s, y)
    decreases acts
  {
    acts == [] ||
    (&& Enabled(s, acts[0]) && Allowed(s, acts[0], x, y)
     && (Step(s, acts[0]).Ok? ==>
           && Slot(Step(s, acts[0]).s, x) && Slot(Step(s, acts[0]).s, y)
           && Conversation(Step(s, acts[0]).s, acts[1..], x, y)))
  }

  datatype Result = Result(s: State, talk: Talk)

  function Converse(s: State, acts: seq<Action>, x: nat, y: nat, talk: Talk): Result
    requires Slot(s, x) && Slot(s, y) && Conversation(s, acts, x, y)
    decreases acts
  {
    if acts == [] then Result(s, talk)
    else match Step(s, acts[0])
      case Panic => Result(s, talk)
      case Ok(t) => Converse(t, acts[1..], x, y, Record(s, acts[0], talk))
  }

  function Silence(x: nat, y: nat): Talk {
    Talk(None, map[x := [], y := []], map[x := [], y := []])
  }

  /** Two live processes, neither inside a co_yield. */
  predicate Strangers(s: State, x: nat, y: nat) {
    && x != y && Slot(s, x) && Slot(s, y) && Ready(s, x, y) && Ready(s, y, x)
    && !InCall(s, x) && !InCall(s, y)
  }

  lemma {:induction false} RunKeepsLaw(s: State, acts: seq<Action>, x: nat, y: nat, talk: Talk)
    requires Inv(s) && Law(s, x, y, talk) && Conversation(s, acts, x, y)
    ensures var r := Converse(s, acts, x, y, talk); Law(r.s, x, y, r.talk)
    decreases acts
  {
    if acts != [] {
      StepSafe(s, acts[0]);
      StepKeepsLaw(s, acts[0], x, y, talk);
      RunKeepsLaw(Step(s, acts[0]).s, acts[1..], x, y, Record(s, acts[0], talk));
    }
  }

  lemma BootSafe(s: State, acts: seq<Action>)
    requires Boot(s) && CanRun(s, acts) && Exec(s, acts).Ok?
    ensures Inv(Exec(s, acts).s)
  {
    hide Step, Enabled;
    RunSafe(s, acts);
  }

  lemma SilentLaw(s: State, x: nat, y: nat)
    requires Inv(s) && Strangers(s, x, y)
    ensures Law(s, x, y, Silence(x, y))
  {
  }

  lemma LawSays(s: State, x: nat, y: nat, talk: Talk)
    requires Law(s, x, y, talk)
    ensures talk.sent.Keys == {x, y} && talk.got.Keys == {x, y}
    ensures talk.first.None? ==> talk.got[x] == [] && talk.got[y] == []
    ensures talk.first.Some? ==>
              var f := talk.first.value; var g := Other(x, y, f);
              && f in {x, y} && |talk.got[g]| <= |talk.sent[f]|
              && (forall k :: 0 <= k < |talk.got[g]| ==> talk.got[g][k] == talk.sent[f][k])
              && |talk.got[f]| <= |talk.sent[g]| + 1 && (talk.sent[g] == [] ==> talk.got[f] == [])
              && (forall k :: 0 <= k < |talk.got[f]| ==> talk.got[f][k] == talk.sent[g][if k == 0 then 0 else k - 1])
  {
  }

  /** The value law. After any run of the machine, let two processes talk. The second side's k-th call
      returns the first side's k-th value; the first side's k-th call returns the second side's value
      number max(1, k-1). */
  lemma ValueLaw(s: State, before: seq<Action>, acts: seq<Action>, x: nat, y: nat)
    requires Boot(s) && CanRun(s, before) && Exec(s, before).Ok?
    requires Strangers(Exec(s, before).s, x, y) && Conversation(Exec(s, before).s, acts, x, y)
    ensures var talk := Converse(Exec(s, before).s, acts, x, y, Silence(x, y)).talk;
            && talk.sent.Keys == {x, y} && talk.got.Keys == {x, y}
            && (talk.first.None? ==> talk.got[x] == [] && talk.got[y] == [])
            && (talk.first.Some? ==>
                  var f := talk.first.value; var g := Other(x, y, f);
                  && f in {x, y} && |talk.got[g]| <= |talk.sent[f]|
                  && (forall k :: 0 <= k < |talk.got[g]| ==> talk.got[g][k] == talk.sent[f][k])
                  && |talk.got[f]| <= |talk.sent[g]| + 1 && (talk.sent[g] == [] ==> talk.got[f] == [])
                  && (forall k :: 0 <= k < |talk.got[f]| ==>
                        talk.got[f][k] == talk.sent[g][if k == 0 then 0 else k - 1]))
  {
    hide Law, Inv, Step, Enabled, Boot, CanRun;
    BootSafe(s, before);
    var t := Exec(s, before).s;
    SilentLaw(t, x, y);
    RunKeepsLaw(t, acts, x, y, Silence(x, y));
    var r := Converse(t, acts, x, y, Silence(x, y));
    LawSays(r.s, x, y, r.talk);
  }

  ghost predicate AllEqual(s: seq<int>, v: int) {
    forall k :: 0 <= k < |s| ==> s[k] == v
  }

  /** So when each side always passes the same value, every call returns the other side's value. */
  lemma ConstantsAreDelivered(s: State, before: seq<Action>, acts: seq<Action>, x: nat, y: nat, vx: int, vy: int)
    requires Boot(s) && CanRun(s, before) && Exec(s, before).Ok?
    requires Strangers(Exec(s, before).s, x, y) && Conversation(Exec(s, before).s, acts, x, y)
    requires var talk := Converse(Exec(s, before).s, acts, x, y, Silence(x, y)).talk;
             && talk.sent.Keys == {x, y}
             && AllEqual(talk.sent[x], vx) && AllEqual(talk.sent[y], vy)
    ensures var talk := Converse(Exec(s, before).s, acts, x, y, Silence(x, y)).talk;
            && talk.got.Keys == {x, y}
            && AllEqual(talk.got[x], vy) && AllEqual(talk.got[y], vx)
  {
    ValueLaw(s, before, acts, x, y);
  }

  /** The first side is one value behind: its call number k (from 0) returns the value of the peer's call with the same
      number exactly if it is the very first or the peer repeated itself. */
  lemma OneBehind(s: State, before: seq<Action>, acts: seq<Action>, x: nat, y: nat, k: nat)
    requires Boot(s) && CanRun(s, before) && Exec(s, before).Ok?
    requires Strangers(Exec(s, before).s, x, y) && Conversation(Exec(s, before).s, acts, x, y)
    requires var talk := Converse(Exec(s, before).s, acts, x, y, Silence(x, y)).talk;
             && talk.first.Some? && talk.first.value in talk.got && Other(x, y, talk.first.value) in talk.sent
             && k < |talk.got[talk.first.value]| && k < |talk.sent[Other(x, y, talk.first.value)]|
    ensures var talk := Converse(Exec(s, before).s, acts, x, y, Silence(x, y)).talk;
            var got, sent := talk.got[talk.first.value], talk.sent[Other(x, y, talk.first.value)];
            got[k] == sent[k] <==> k == 0 || sent[k] == sent[k - 1]
  {
    ValueLaw(s, before, acts, x, y);
  }
}
