/** The log's promises read off the schedule, and what begin_op, log_write and end_op bring
    about by their own steps. */
module LogRuns {
  import opened Blocks
  import opened Common
  import opened Journal
  import opened Log
  import opened LogProtocol
  import opened LogSafety
  import BufferCache

  // ----- the updates of a schedule -----

  /** The updates made so far and not lost, of which the first `safe` survive a crash. */
  datatype Reading = Reading(past: seq<Rec>, safe: nat)

  /** log_write adds an update unless it panics, the header write of a commit saves all there
      are, and a crash loses the others. */
  ghost function Read(s: State, e: Event, r: Reading): Reading
    requires Enabled(s, e)
  {
    match e
    case LogWrite(p, b, data) =>
      if |s.lh| >= LOGSIZE || |s.lh| >= s.lay.size - 1 || s.outstanding < 1 then r
      else Reading(r.past + [Rec(s.procs[p].op, b, data)], r.safe)
    case CommitWrite(p) =>
      if s.procs[p].k == |s.lh| < BufferCache.NBUF then Reading(r.past, |r.past|) else r
    case Crash => if r.safe <= |r.past| then Reading(r.past[..r.safe], r.safe) else r
    case _ => r
  }

  ghost function ReadOff(s: State, es: Schedule<Event>, r: Reading): Reading
    decreases es
  {
    match es
    case Stop => r
    case Then(e, rest) => if Enabled(s, e) then ReadOff(Do(s, e), rest, Read(s, e, r)) else r
  }

  lemma StepReads(s: State, e: Event)
    requires Enabled(s, e)
    ensures Read(s, e, Reading(s.hist, s.cut)) == Reading(Do(s, e).hist, Do(s, e).cut)
  {
    hide CommitWrites, RecoverWrites, DiskOk, HeaderOk, WakeAll, DoLogWrite, DoCommitWrite;
    match e {
      case LogWrite(p, b, data) => LogWriteHist(s, p, b, data);
      case CommitWrite(p) => CommitWriteHist(s, p);
      case _ =>
    }
  }

  lemma LogWriteHist(s: State, p: nat, b: nat, data: Block)
    requires p < |s.procs| && s.procs[p].InOp?
    ensures var t := DoLogWrite(s, p, b, data);
            && t.cut == s.cut && t.disk == s.disk
            && t.hist == if |s.lh| >= LOGSIZE || |s.lh| >= s.lay.size - 1 || s.outstanding < 1 then s.hist
                         else s.hist + [Rec(s.procs[p].op, b, data)]
  {
    hide Listed;
    ListedHist(s, p, b, data);
  }

  lemma ListedHist(s: State, p: nat, b: nat, data: Block)
    requires p < |s.procs| && s.procs[p].InOp?
    ensures var t := Listed(s, p, b, data);
            t.cut == s.cut && t.disk == s.disk && t.hist == s.hist + [Rec(s.procs[p].op, b, data)]
  {
    hide Absorb;
  }

  lemma CommitWriteHist(s: State, p: nat)
    requires p < |s.procs| && s.procs[p].Committing? && HeaderOk(s.lay, s.lh) && s.procs[p].k < |Plan(s)|
    ensures var t := DoCommitWrite(s, p);
            t.hist == s.hist && t.cut == if s.procs[p].k == |s.lh| < BufferCache.NBUF then |s.hist| else s.cut
  {
    hide CommitWrites, HeaderOk;
  }

  lemma {:induction false} RunReads(s: State, es: Schedule<Event>, t: State)
    requires Runs(s, es, t)
    ensures ReadOff(s, es, Reading(s.hist, s.cut)) == Reading(t.hist, t.cut)
    decreases es
  {
    hide Enabled, Do, Read;
    if es.Then? {
      StepReads(s, es.event);
      RunReads(Do(s, es.event), es.rest, t);
    }
  }

  /** Crash atomicity in terms of the schedule: a recovery from the present disk delivers the
      initial home blocks with exactly the log_writes that came before the last header write,
      in their order, and these are whole operations. */
  lemma RecoversSchedule(s: State, es: Schedule<Event>, t: State)
    requires Init(s) && Runs(s, es, t)
    ensures var r := ReadOff(s, es, Reading([], 0));
            && r.safe <= |r.past| && DiskOk(t.lay, t.disk) && t.lay == s.lay
            && HomeEq(s.lay, Recovered(s.lay, t.disk), Replay(s.base, r.past, r.safe))
            && forall i, j :: 0 <= i < r.safe <= j < |r.past| ==> r.past[i].op != r.past[j].op
  {
    hide Runs, Replay, Recovered, HomeEq, DiskOk, ReadOff;
    assert s.hist == [] && s.cut == 0;
    hide Init;
    CrashAtomicity(s, es, t);
    Durability(s, es, t);
    RunReads(s, es, t);
  }

  /** While the system is up, bread shows every log_write of the schedule that no crash lost,
      the later over the earlier. */
  lemma BreadShowsSchedule(s: State, es: Schedule<Event>, t: State, b: nat)
    requires Init(s) && Runs(s, es, t) && t.phase.Running? && !t.lay.InLog(b)
    ensures var past := ReadOff(s, es, Reading([], 0)).past; t.View(b) == At(Replay(s.base, past, |past|), b)
  {
    hide Runs, Replay, ReadOff;
    assert s.hist == [] && s.cut == 0;
    hide Init;
    UpInvariant(s, es, t);
    Durability(s, es, t);
    RunReads(s, es, t);
  }

  // ----- single steps -----

  /** log_write panics exactly on a full log, also for a listed block. Otherwise bread shows
      the new data, listed or not, and every other block as before. */
  lemma LogWriteShows(s: State, p: nat, b: nat, data: Block, c: nat)
    requires Inv(s) && Enabled(s, LogWrite(p, b, data))
    ensures var t := Do(s, LogWrite(p, b, data));
            && (t.phase.Panicked? <==> |s.lh| >= LOGSIZE || |s.lh| >= s.lay.size - 1)
            && (!t.phase.Panicked? ==>
                  && t.View(c) == (if c == b then data else s.View(c))
                  && t.hist == s.hist + [Rec(s.procs[p].op, b, data)]
                  && b in t.lh && (c != b ==> (c in t.lh <==> c in s.lh)) && t.disk == s.disk)
  {
    hide Inv;
    if !s.LogFull() { LogWriteSpace(s, p, b, data); }
  }

  /** begin_op admits an operation exactly if no commit runs and the list and a budget for
      every operation fit LOGSIZE; otherwise the process sleeps. */
  lemma BeginExactly(s: State, p: nat)
    requires Enabled(s, TryBegin(p))
    ensures var t := Do(s, TryBegin(p));
            if !s.committing && |s.lh| + (s.outstanding + 1) * MAXOPBLOCKS <= LOGSIZE then
              && t.procs == s.procs[p := InOp(s.nextOp, 0)] && t.outstanding == s.outstanding + 1
              && t.nextOp == s.nextOp + 1
            else t == s.(procs := s.procs[p := Asleep])
  {}

  /** kill does not get a process out of begin_op: it tests again, and sleeps again. */
  lemma KilledSleepsAgain(s: State, es: Schedule<Event>, t: State, p: nat)
    requires Init(s) && Runs(s, es, t) && t.phase.Running? && p < |t.procs| && t.procs[p].Asleep?
    ensures Runs(t, Then(Kill(p), Then(TryBegin(p), Stop)), t)
  {
    UpInvariant(s, es, t);
    var m := Do(t, Kill(p));
    BeginExactly(m, p);
    assert t.procs[p := Wanting][p := Asleep] == t.procs;
    assert Runs(m, Then(TryBegin(p), Stop), t);
  }

  /** Only commit and recovery write to the disk, one block of their plan at a time; in
      particular a crash leaves the disk alone. */
  lemma DiskByPlan(s: State, e: Event)
    requires Enabled(s, e)
    ensures !e.CommitWrite? && !e.RecoverWrite? ==> Do(s, e).disk == s.disk
    ensures e.CommitWrite? ==>
              var w := Plan(s)[s.procs[e.p].k];
              Do(s, e).disk == if |s.lh| >= BufferCache.NBUF then s.disk else s.disk[w.block := w.data]
    ensures e.RecoverWrite? ==>
              var w := RecoverWrites(s.lay, s.origin)[s.phase.j]; Do(s, e).disk == s.disk[w.block := w.data]
  {
    hide CommitWrites, RecoverWrites, DiskOk, HeaderOk, WakeAll, DoLogWrite;
    if e.LogWrite? { LogWriteHist(s, e.p, e.b, e.data); }
  }

  // ----- end_op -----

  /** Every step of es is one of process p. */
  predicate OnlyBy(es: Schedule<Event>, p: nat) {
    es.Then? ==> ByProcess(es.event, p) && OnlyBy(es.rest, p)
  }

  predicate ByProcess(e: Event, p: nat) {
    match e
    case EndOp(q) => q == p
    case CommitWrite(q) => q == p
    case CommitDone(q) => q == p
    case _ => false
  }

  lemma StepFirst(s: State, e: Event, es: Schedule<Event>, t: State, p: nat)
    requires Enabled(s, e) && ByProcess(e, p) && Runs(Do(s, e), es, t) && OnlyBy(es, p)
    ensures Runs(s, Then(e, es), t) && OnlyBy(Then(e, es), p)
  {
    hide Enabled, Do;
  }

  /** p is in commit with k writes done, and the list leaves a buffer free. */
  ghost predicate Committer(s: State, p: nat, k: nat) {
    && s.phase.Running? && p < |s.procs| && s.procs[p] == Committing(k) && HeaderOk(s.lay, s.lh)
    && |s.lh| < BufferCache.NBUF && k <= |Plan(s)|
  }

  lemma CommitStep(s: State, p: nat, k: nat)
    requires Committer(s, p, k) && k < |Plan(s)|
    ensures Enabled(s, CommitWrite(p))
    ensures var t := Do(s, CommitWrite(p));
            Committer(t, p, k + 1) && t.hist == s.hist && Plan(t) == Plan(s) && |t.procs| == |s.procs|
  {
    hide CommitWrites, HeaderOk;
  }

  lemma {:induction false} CommitRuns(s: State, p: nat, k: nat) returns (es: Schedule<Event>, t: State)
    requires Committer(s, p, k)
    ensures Runs(s, es, t) && OnlyBy(es, p) && t.hist == s.hist && |t.procs| == |s.procs|
    ensures HeaderOk(t.lay, t.lh) && Committer(t, p, |Plan(t)|)
    decreases |Plan(s)| - k
  {
    hide Enabled, Do, Plan;
    if k == |Plan(s)| {
      es, t := Stop, s;
    } else {
      CommitStep(s, p, k);
      var fs;
      fs, t := CommitRuns(Do(s, CommitWrite(p)), p, k + 1);
      es := Then(CommitWrite(p), fs);
      StepFirst(s, CommitWrite(p), fs, t, p);
    }
  }

  lemma CommitReturns(s: State, p: nat)
    requires HeaderOk(s.lay, s.lh) && Committer(s, p, |Plan(s)|)
    ensures Enabled(s, CommitDone(p))
    ensures var t := Do(s, CommitDone(p));
            && t.phase.Running? && |t.procs| == |s.procs| && t.procs[p].Idle?
            && t.lh == [] && !t.committing && t.hist == s.hist
  {
    hide CommitWrites, HeaderOk;
  }

  /** The last end_op: in every run, unless the list takes all buffers, it commits and returns
      by its own steps alone. Every update is durable and installed then, and the log is
      empty. */
  lemma {:induction false} LastEndOpCommits(s: State, es: Schedule<Event>, t: State, p: nat)
    returns (fs: Schedule<Event>, u: State)
    requires Init(s) && Runs(s, es, t) && t.phase.Running? && p < |t.procs| && t.procs[p].InOp?
    requires t.outstanding == 1 && |t.lh| < BufferCache.NBUF
    ensures Runs(t, fs, u) && OnlyBy(fs, p)
    ensures u.phase.Running? && |u.procs| == |t.procs| && u.procs[p].Idle? && u.lh == [] && !u.committing
    ensures u.hist == t.hist && u.cut == |u.hist|
    ensures HomeEq(u.lay, u.disk, Replay(u.base, u.hist, |u.hist|))
  {
    InitInv(s);
    RunKeepsInv(s, es, t);
    EndOpCounts(t, p);
    var t1 := Do(t, EndOp(p));
    EndOpCommitter(t, p);
    hide Init, Runs, Inv, Enabled, Do, OnlyBy, Replay, Plan, HomeEq;
    StepKeepsInv(t, EndOp(p));
    var gs, t2 := CommitRuns(t1, p, 0);
    RunKeepsInv(t1, gs, t2);
    CommitReturns(t2, p);
    u := Do(t2, CommitDone(p));
    StepKeepsInv(t2, CommitDone(p));
    CommitReturnsDurable(t2, p);
    SettledDisk(u);
    var hs := Finish(t1, gs, t2, p);
    StepFirst(t, EndOp(p), hs, u, p);
    fs := Then(EndOp(p), hs);
  }

  lemma EndOpCommitter(t: State, p: nat)
    requires Inv(t) && t.phase.Running? && p < |t.procs| && t.procs[p].InOp? && !t.committing
    requires t.outstanding == 1 && |t.lh| < BufferCache.NBUF
    ensures Enabled(t, EndOp(p)) && Committer(Do(t, EndOp(p)), p, 0)
    ensures Do(t, EndOp(p)).hist == t.hist && |Do(t, EndOp(p)).procs| == |t.procs|
  {
    hide CommitWrites, Durable, OpsInv, CommitInv, DiskInv, SpaceInv, SleepInv;
  }

  lemma SettledDisk(u: State)
    requires Inv(u) && u.phase.Running? && !u.committing && u.cut == |u.hist|
    ensures HomeEq(u.lay, u.disk, Replay(u.base, u.hist, |u.hist|))
  {
    hide Durable, OpsInv, CommitInv, MemInv, SpaceInv, SleepInv, Replay;
  }

  lemma {:induction false} Finish(s: State, es: Schedule<Event>, t: State, p: nat) returns (fs: Schedule<Event>)
    requires Runs(s, es, t) && OnlyBy(es, p) && Enabled(t, CommitDone(p))
    ensures Runs(s, fs, Do(t, CommitDone(p))) && OnlyBy(fs, p)
    decreases es
  {
    hide Enabled, Do;
    if es.Stop? {
      fs := Then(CommitDone(p), Stop);
      StepFirst(t, CommitDone(p), Stop, Do(t, CommitDone(p)), p);
    } else {
      var gs := Finish(Do(s, es.event), es.rest, t, p);
      fs := Then(es.event, gs);
    }
  }
}
