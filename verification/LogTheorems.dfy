/** What holds of every run of the log machine, with crashes anywhere. */
module LogTheorems {
  import opened Common
  import opened LogLayout
  import opened LogMachine
  import opened LogProofs

  /** Run a list of actions; None if one of them is not possible. */
  function Exec(g: Geometry, s: State, acts: seq<Action>): Option<State>
    decreases acts
  {
    if acts == [] then Some(s)
    else if Enabled(g, s, acts[0]) then Exec(g, Apply(g, s, acts[0]), acts[1..])
    else None
  }

  /** The labels of a run, all that the specification sees of it. */
  function Labels(g: Geometry, s: State, acts: seq<Action>): seq<Label>
    requires Exec(g, s, acts).Some?
    decreases acts
  {
    if acts == [] then []
    else [LabelOf(g, s, acts[0])] + Labels(g, Apply(g, s, acts[0]), acts[1..])
  }

  function SpecRun(st: Store, ls: seq<Label>): Store
    decreases ls
  {
    if ls == [] then st else SpecRun(Spec(st, ls[0]), ls[1..])
  }

  lemma {:induction false} RunKeepsInv(g: Geometry, s: State, st: Store, acts: seq<Action>)
    requires Inv(g, s, st) && Exec(g, s, acts).Some?
    ensures Inv(g, Exec(g, s, acts).value, SpecRun(st, Labels(g, s, acts)))
    decreases acts
  {
    if acts != [] {
      ActionKeeps(g, s, st, acts[0]);
      var l := LabelOf(g, s, acts[0]);
      RunKeepsInv(g, Apply(g, s, acts[0]), Spec(st, l), acts[1..]);
      assert Labels(g, s, acts)[1..] == Labels(g, Apply(g, s, acts[0]), acts[1..]);
    }
  }

  /** Crash atomicity. After any run from a fresh disk, with crashes between any two disk writes and
      inside recovery, the disk image recovers to exactly the state after the transactions whose header
      write completed. */
  lemma CrashAtomicity(g: Geometry, s: State, st: Store, acts: seq<Action>)
    requires Init(g, s, st) && Exec(g, s, acts).Some?
    ensures var d, spec := Exec(g, s, acts).value.disk, SpecRun(st, Labels(g, s, acts));
            && Fits(g, d) && HeaderCountOk(d[g.start]) && HeaderFits(g, d, DecodeHeader(d[g.start]))
            && SameHome(g, Recover(g, d), spec.durable)
  {
    InitInv(g, s, st);
    RunKeepsInv(g, s, st, acts);
    RecoverYieldsDurable(g, Exec(g, s, acts).value.disk, SpecRun(st, Labels(g, s, acts)).durable);
  }

  /** Whenever the log is open for operations, recovery and install are over: the home blocks on disk
      are the durable state themselves and the header on disk is empty. */
  lemma OpenMeansInstalled(g: Geometry, s: State, st: Store, acts: seq<Action>)
    requires Init(g, s, st) && Exec(g, s, acts).Some? && Exec(g, s, acts).value.phase == Open
    ensures var d, spec := Exec(g, s, acts).value.disk, SpecRun(st, Labels(g, s, acts));
            && Fits(g, d) && HeaderCountOk(d[g.start]) && DecodeHeader(d[g.start]) == []
            && SameHome(g, d, spec.durable)
  {
    InitInv(g, s, st);
    RunKeepsInv(g, s, st, acts);
  }

  /** A locked, valid buffer without unlogged changes shows the last logged contents of its block, whatever
      has been evicted, committed or installed meanwhile. */
  lemma ReadersSeeLastLogged(g: Geometry, s: State, st: Store, acts: seq<Action>, i: nat, b: int, who: nat)
    requires Init(g, s, st) && Exec(g, s, acts).Some?
    requires var t := Exec(g, s, acts).value;
             Owns(t, i, b, who) && Home(g, t.disk, b) && !t.phase.Boot? && !t.phase.Recovering?
    ensures var t, spec := Exec(g, s, acts).value, SpecRun(st, Labels(g, s, acts));
            b < |spec.current| && t.bufs[i].data == spec.current[b]
  {
    InitInv(g, s, st);
    RunKeepsInv(g, s, st, acts);
    var t, spec := Exec(g, s, acts).value, SpecRun(st, Labels(g, s, acts));
    assert BufOk(g, t, spec, t.bufs[i]);
  }

  /** Pinning: a logged, not yet installed block has exactly one buffer, and its reference count is the
      references handed out plus one pin. So bget cannot recycle it. */
  lemma LoggedBlocksStayCached(g: Geometry, s: State, st: Store, acts: seq<Action>, b: int)
    requires Init(g, s, st) && Exec(g, s, acts).Some? && b in Pinned(Exec(g, s, acts).value)
    ensures var t := Exec(g, s, acts).value;
            exists i :: 0 <= i < |t.bufs| && HasKey(t, i, b) && t.bufs[i].valid
              && t.bufs[i].refcnt == t.bufs[i].refs + 1
              && (forall j :: 0 <= j < |t.bufs| && HasKey(t, j, b) ==> j == i)
              && (forall c :: !Enabled(g, t, GetMiss(i, c)))
  {
    InitInv(g, s, st);
    RunKeepsInv(g, s, st, acts);
    var t, spec := Exec(g, s, acts).value, SpecRun(st, Labels(g, s, acts));
    PinnedBuffer(g, t, spec, b);
  }

  lemma PinnedBuffer(g: Geometry, t: State, st: Store, b: int)
    requires |t.disk| == |st.current| && CacheOk(g, t, st) && b in Pinned(t)
    ensures exists i :: 0 <= i < |t.bufs| && HasKey(t, i, b) && t.bufs[i].valid
              && t.bufs[i].refcnt == t.bufs[i].refs + 1
              && (forall j :: 0 <= j < |t.bufs| && HasKey(t, j, b) ==> j == i)
              && (forall c :: !Enabled(g, t, GetMiss(i, c)))
  {
    assert Cached(t, b);
    var i :| 0 <= i < |t.bufs| && HasKey(t, i, b) && t.bufs[i].valid;
    assert BufOk(g, t, st, t.bufs[i]);
    assert forall j :: 0 <= j < |t.bufs| && HasKey(t, j, b) ==> j == i;
  }

  /** Reference counts of all other buffers are exactly the references handed out. */
  lemma RefcntCountsHolders(g: Geometry, s: State, st: Store, acts: seq<Action>, i: nat)
    requires Init(g, s, st) && Exec(g, s, acts).Some? && i < |Exec(g, s, acts).value.bufs|
    ensures var t := Exec(g, s, acts).value; var f := t.bufs[i];
            f.refcnt == f.refs + if f.key.Some? && f.key.value in Pinned(t) then 1 else 0
  {
    InitInv(g, s, st);
    RunKeepsInv(g, s, st, acts);
    assert BufOk(g, Exec(g, s, acts).value, SpecRun(st, Labels(g, s, acts)), Exec(g, s, acts).value.bufs[i]);
  }

  /** Reservations: the header plus every unused reservation fits in LOGSIZE; a commit never overlaps an
      operation; header entries are distinct; an operation that has not used up its reservation finds
      room for a new block in the in-memory header. */
  lemma ReservationsHold(g: Geometry, s: State, st: Store, acts: seq<Action>)
    requires Init(g, s, st) && Exec(g, s, acts).Some?
    ensures var t := Exec(g, s, acts).value;
            && |t.lh| + Unused(t.ops) <= LOGSIZE && Distinct(t.lh)
            && t.outstanding == |t.ops|
            && (t.committing ==> t.outstanding == 0)
            && forall k :: 0 <= k < |t.ops| && t.ops[k].added < MAXOPBLOCKS ==>
                 |t.lh| < LOGSIZE && (g.size - 1 >= LOGSIZE ==> !TooBig(g, t))
  {
    InitInv(g, s, st);
    RunKeepsInv(g, s, st, acts);
    UnusedNonNegative(Exec(g, s, acts).value.ops);
  }
}
