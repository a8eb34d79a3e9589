/** Every step of the log protocol keeps its invariant, so every run is crash-safe. */
module LogSafety {
  import opened Blocks
  import opened Common
  import opened Journal
  import opened Log
  import opened LogProtocol
  import BufferCache

  // ----- steps that only move processes -----

  /** t differs from s in where its processes are, and no process enters commit. */
  ghost predicate Moved(s: State, t: State) {
    && t == s.(procs := t.procs, outstanding := t.outstanding, nextOp := t.nextOp)
    && |t.procs| == |s.procs|
    && s.nextOp <= t.nextOp
    && forall q :: 0 <= q < |t.procs| && t.procs[q].Committing? ==> t.procs[q] == s.procs[q]
  }

  lemma MovedKeeps(s: State, t: State)
    requires s.phase.Running? && Inv(s) && Moved(s, t)
    ensures Durable(t) && MemInv(t) && CommitInv(t) && DiskInv(t)
  {
    hide Recovered, CommitWrites, HomeEq, Replay, After, SpaceInv, OpsInv, SleepInv;
  }

  lemma MoveOps(s: State, t: State, p: nat)
    requires s.phase.Running? && Inv(s) && Moved(s, t) && p < |s.procs|
    requires forall q :: 0 <= q < |s.procs| && q != p && t.procs[q].InOp? ==> t.procs[q] == s.procs[q]
    requires t.procs[p].InOp? ==> s.nextOp <= t.procs[p].op < t.nextOp
    ensures OpsInv(t)
  {
    hide Recovered, CommitWrites, HomeEq, Replay, After, SpaceInv, Durable, MemInv, CommitInv, DiskInv, SleepInv;
  }

  lemma StepBegin(s: State, p: nat)
    requires Inv(s) && Enabled(s, CallBegin(p))
    ensures Inv(Do(s, CallBegin(p)))
  {
    hide Durable, MemInv, CommitInv, DiskInv, OpsInv, Ops, Reserved, Committers;
    CountUpdate(s.procs, p, Wanting, |s.procs|);
    MovedKeeps(s, Do(s, CallBegin(p)));
    MoveOps(s, Do(s, CallBegin(p)), p);
  }

  lemma StepKill(s: State, p: nat)
    requires Inv(s) && Enabled(s, Kill(p))
    ensures Inv(Do(s, Kill(p)))
  {
    hide Durable, MemInv, CommitInv, DiskInv, OpsInv, Ops, Reserved, Committers;
    CountUpdate(s.procs, p, Wanting, |s.procs|);
    MovedKeeps(s, Do(s, Kill(p)));
    MoveOps(s, Do(s, Kill(p)), p);
  }

  lemma TryBeginCounts(s: State, p: nat)
    requires Inv(s) && Enabled(s, TryBegin(p))
    ensures SpaceInv(Do(s, TryBegin(p))) && SleepInv(Do(s, TryBegin(p)))
  {
    hide Durable, MemInv, CommitInv, DiskInv, OpsInv, Ops, Reserved, Committers;
    if s.MustWait() {
      CountUpdate(s.procs, p, Asleep, |s.procs|);
    } else {
      CountUpdate(s.procs, p, InOp(s.nextOp, 0), |s.procs|);
      ClaimsAtLeast(s.procs, p, |s.procs|);
    }
  }

  lemma StepTryBegin(s: State, p: nat)
    requires Inv(s) && Enabled(s, TryBegin(p))
    ensures Inv(Do(s, TryBegin(p)))
  {
    hide Durable, MemInv, CommitInv, DiskInv, OpsInv, SpaceInv, SleepInv;
    TryBeginCounts(s, p);
    MovedKeeps(s, Do(s, TryBegin(p)));
    MoveOps(s, Do(s, TryBegin(p)), p);
  }

  // ----- log_write -----

  /** A panic leaves disk and history alone. */
  lemma PanicKeeps(s: State, why: Panic)
    requires Inv(s)
    ensures Inv(s.(phase := Panicked(why)))
  {
    hide Recovered, HomeEq, Replay, RunningInv, RecoveringInv, DiskOk;
  }

  lemma ListedDurable(s: State, p: nat, b: nat, data: Block)
    requires Inv(s) && Enabled(s, LogWrite(p, b, data))
    ensures Durable(Listed(s, p, b, data))
  {
    hide Recovered, HomeEq, Replay, RunningInv, RecoveringInv, Absorb, DiskOk, OpsInv, HeaderOk;
    ReplaySame(s.base, s.hist, s.hist + [Rec(s.procs[p].op, b, data)], s.cut);
  }

  lemma ListedOps(s: State, p: nat, b: nat, data: Block)
    requires Inv(s) && Enabled(s, LogWrite(p, b, data))
    ensures OpsInv(Listed(s, p, b, data))
  {
    hide RunningInv, RecoveringInv, Absorb, Durable;
  }

  lemma LogWriteSpace(s: State, p: nat, b: nat, data: Block)
    requires Inv(s) && Enabled(s, LogWrite(p, b, data))
    requires !s.LogFull()
    ensures !s.committing && s.outstanding > 0
    ensures SpaceInv(Listed(s, p, b, data)) && SleepInv(Listed(s, p, b, data))
  {
    hide Recovered, CommitWrites, HomeEq, Replay, MemInv, CommitInv;
    hide DiskInv, OpsInv, Durable, Ops, Reserved, Committers;
    CountUpdate(s.procs, p, InOp(s.procs[p].op, s.procs[p].used + 1), |s.procs|);
    CountNone(s.procs, |s.procs|);
  }

  lemma ListedMem(s: State, p: nat, b: nat, data: Block)
    requires Inv(s) && Enabled(s, LogWrite(p, b, data))
    requires !s.LogFull() && !s.committing && s.outstanding > 0
    ensures MemInv(Listed(s, p, b, data)) && DiskInv(Listed(s, p, b, data))
  {
    hide Recovered, CommitWrites, Replay, SpaceInv, SleepInv, OpsInv, Durable, CommitInv, ReadHead, GetWord;
    ReplaySame(s.base, s.hist, s.hist + [Rec(s.procs[p].op, b, data)], s.cut);
    ReplaySnoc(s.base, s.hist, Rec(s.procs[p].op, b, data));
  }

  lemma StepLogWrite(s: State, p: nat, b: nat, data: Block)
    requires Inv(s) && Enabled(s, LogWrite(p, b, data))
    ensures Inv(Do(s, LogWrite(p, b, data)))
  {
    hide Durable, OpsInv, SpaceInv, SleepInv, MemInv, DiskInv, Listed;
    if s.LogFull() {
      PanicKeeps(s, TooBig);
    } else {
      LogWriteSpace(s, p, b, data);
      ListedDurable(s, p, b, data);
      ListedOps(s, p, b, data);
      ListedMem(s, p, b, data);
      ListedNoCommit(s, p, b, data);
      ListedPhase(s, p, b, data);
    }
  }

  lemma ListedPhase(s: State, p: nat, b: nat, data: Block)
    requires p < |s.procs| && s.procs[p].InOp?
    ensures Listed(s, p, b, data).phase == s.phase && Listed(s, p, b, data).lay == s.lay
  {}

  lemma ListedNoCommit(s: State, p: nat, b: nat, data: Block)
    requires Inv(s) && Enabled(s, LogWrite(p, b, data))
    requires !s.LogFull() && !s.committing && s.outstanding > 0
    requires MemInv(Listed(s, p, b, data))
    ensures CommitInv(Listed(s, p, b, data))
  {
    hide Recovered, CommitWrites, Replay, After, MemInv, DiskInv, OpsInv, Durable;
    CountNone(s.procs, |s.procs|);
  }

  /** With more than LOGSIZE log blocks, an operation inside its budget never panics. */
  lemma BudgetedWriteFits(s: State, p: nat)
    requires Inv(s) && HasPc(s, p) && s.procs[p].InOp?
    requires s.procs[p].used < MAXOPBLOCKS && s.lay.size > LOGSIZE
    ensures !s.LogFull() && s.outstanding >= 1
  {
    hide Recovered, CommitWrites, HomeEq, Replay, MemInv, CommitInv, DiskInv, OpsInv, Durable;
    ClaimsAtLeast(s.procs, p, |s.procs|);
  }

  // ----- end_op -----

  lemma EndOpCounts(s: State, p: nat)
    requires Inv(s) && Enabled(s, EndOp(p))
    ensures !s.committing
    ensures SpaceInv(DoEndOp(s, p)) && SleepInv(DoEndOp(s, p))
  {
    hide Durable, MemInv, CommitInv, DiskInv, OpsInv, Ops, Reserved, Committers, WakeAll;
    ClaimsAtLeast(s.procs, p, |s.procs|);
    if s.outstanding == 1 {
      CountUpdate(s.procs, p, Committing(0), |s.procs|);
    } else {
      CountUpdate(s.procs, p, Idle, |s.procs|);
      CountWake(s.procs[p := Idle], |s.procs|);
    }
  }

  lemma EndOpLastOps(s: State, p: nat)
    requires Inv(s) && Enabled(s, EndOp(p)) && s.outstanding == 1 && !s.committing
    ensures OpsInv(DoEndOp(s, p)) && Durable(DoEndOp(s, p))
  {
    hide RunningInv, Replay, Recovered;
  }

  lemma EndOpLastMem(s: State, p: nat)
    requires Inv(s) && Enabled(s, EndOp(p)) && s.outstanding == 1 && !s.committing
    ensures MemInv(DoEndOp(s, p)) && DiskInv(DoEndOp(s, p))
  {
    hide Durable, OpsInv, CommitWrites, Replay, Recovered, SpaceInv, SleepInv, CommitInv;
  }

  lemma EndOpLastCommit(s: State, p: nat)
    requires Inv(s) && Enabled(s, EndOp(p)) && s.outstanding == 1 && !s.committing
    requires MemInv(DoEndOp(s, p))
    ensures CommitInv(DoEndOp(s, p))
  {
    hide Durable, OpsInv, CommitWrites, Replay, Recovered, Overlay, SleepInv;
    CountNone(s.procs, |s.procs|);
  }

  lemma EndOpLast(s: State, p: nat)
    requires Inv(s) && Enabled(s, EndOp(p)) && s.outstanding == 1 && !s.committing
    ensures Inv(DoEndOp(s, p))
  {
    hide Durable, OpsInv, SleepInv, MemInv, CommitInv, DiskInv, SpaceInv;
    EndOpCounts(s, p);
    EndOpLastOps(s, p);
    EndOpLastMem(s, p);
    EndOpLastCommit(s, p);
  }

  lemma StepEndOp(s: State, p: nat)
    requires Inv(s) && Enabled(s, EndOp(p))
    ensures Inv(Do(s, EndOp(p)))
  {
    hide Durable, MemInv, CommitInv, DiskInv, OpsInv;
    EndOpCounts(s, p);
    if s.outstanding == 1 {
      EndOpLast(s, p);
    } else {
      MovedKeeps(s, Do(s, EndOp(p)));
      MoveOps(s, Do(s, EndOp(p)), p);
    }
  }

  // ----- commit -----

  /** A commit writes the log and the logged home blocks, nothing else. */
  lemma PlanBlocks(lay: Layout, d: Disk, lh: seq<nat>, mem: Disk, k: nat)
    requires lay.Valid() && HeaderOk(lay, lh) && k < |CommitWrites(lay, d, lh, mem)|
    ensures lay.InLog(CommitWrites(lay, d, lh, mem)[k].block) || CommitWrites(lay, d, lh, mem)[k].block in lh
  {
    hide After, Sealed, WriteHead;
  }

  lemma CommitWriteDurable(s: State, p: nat)
    requires Inv(s) && Enabled(s, CommitWrite(p))
    ensures s.committing
    ensures Durable(WriteNext(s, p))
    ensures WriteNext(s, p).disk == After(s.origin, Plan(s), s.procs[p].k + 1)
    ensures WriteNext(s, p).cut == if s.procs[p].k < |s.lh| then s.cut else |s.hist|
  {
    hide CommitWrites, Replay, Recovered, Overlay, After;
    CountNone(s.procs, |s.procs|);
    var k := s.procs[p].k;
    CommitCrash(s.lay, s.origin, s.lh, s.pinned, k + 1);
    AfterNext(s.origin, Plan(s), k);
  }

  lemma CommitWriteMem(s: State, p: nat)
    requires Inv(s) && Enabled(s, CommitWrite(p)) && s.committing
    requires Durable(WriteNext(s, p))
    ensures MemInv(WriteNext(s, p)) && DiskInv(WriteNext(s, p))
  {
    hide CommitWrites, Replay, Recovered, Overlay, After, OpsInv, SpaceInv, CommitInv, SleepInv;
    PlanBlocks(s.lay, s.origin, s.lh, s.pinned, s.procs[p].k);
    var t := WriteNext(s, p);
    var w := Plan(s)[s.procs[p].k];
    forall b: nat | !s.lay.InLog(b) ensures t.View(b) == s.View(b) {
    }
  }

  lemma CommitWriteProcs(s: State, p: nat)
    requires Inv(s) && Enabled(s, CommitWrite(p)) && s.committing
    ensures SpaceInv(WriteNext(s, p)) && SleepInv(WriteNext(s, p)) && OpsInv(WriteNext(s, p))
  {
    hide CommitWrites, Replay, Recovered, Overlay, After, CommitInv, MemInv, DiskInv, Durable;
    CountUpdate(s.procs, p, Committing(s.procs[p].k + 1), |s.procs|);
    CountNone(s.procs, |s.procs|);
  }

  lemma StepCommitWrite(s: State, p: nat)
    requires Inv(s) && Enabled(s, CommitWrite(p))
    ensures Inv(Do(s, CommitWrite(p)))
  {
    hide CommitWrites, Replay, Recovered, Overlay, After, Durable, OpsInv, SleepInv, DiskInv;
    if |s.lh| >= BufferCache.NBUF {
      PanicKeeps(s, NoBuffers);
      return;
    }
    CommitWriteDurable(s, p);
    CommitWriteMem(s, p);
    CommitWriteProcs(s, p);
    var t := WriteNext(s, p);
    forall q | 0 <= q < |t.procs| && t.procs[q].Committing? ensures q == p {
      OneCommitter(s.procs, p, q);
    }
  }

  lemma CommitDoneDisk(s: State, p: nat)
    requires Inv(s) && Enabled(s, CommitDone(p))
    ensures s.committing && s.cut == |s.hist|
    ensures DiskOk(s.lay, s.disk) && Head(s.lay, s.disk) == []
    ensures HomeEq(s.lay, s.disk, Replay(s.base, s.hist, |s.hist|))
  {
    hide Replay, Recovered, Overlay, After, OpsInv, Durable, SleepInv, Sealed;
    CountNone(s.procs, |s.procs|);
    CommitCompletes(s.lay, s.origin, s.lh, s.pinned);
    assert s.lh != [] ==> s.procs[p].k > |s.lh|;
  }

  lemma StepCommitDone(s: State, p: nat)
    requires Inv(s) && Enabled(s, CommitDone(p))
    ensures Inv(Do(s, CommitDone(p)))
  {
    hide Durable, OpsInv, SpaceInv, SleepInv, MemInv, CommitInv, DiskInv;
    var t := Do(s, CommitDone(p));
    CommitDoneDisk(s, p);
    CommitDoneProcs(s, p);
    CommitDoneMem(s, p);
  }

  lemma CommitDoneProcs(s: State, p: nat)
    requires Inv(s) && Enabled(s, CommitDone(p)) && s.committing
    ensures var t := Do(s, CommitDone(p));
            && SpaceInv(t) && SleepInv(t) && OpsInv(t)
            && forall q :: 0 <= q < |t.procs| ==> !t.procs[q].Committing?
  {
    hide CommitWrites, Replay, Recovered, Overlay, After, MemInv, CommitInv, DiskInv, Durable;
    hide Ops, Reserved, Committers, WakeAll;
    CountUpdate(s.procs, p, Idle, |s.procs|);
    CountWake(s.procs[p := Idle], |s.procs|);
    CountNone(WakeAll(s.procs[p := Idle]), |s.procs|);
  }

  lemma CommitDoneMem(s: State, p: nat)
    requires Inv(s) && Enabled(s, CommitDone(p)) && s.committing && s.cut == |s.hist|
    requires DiskOk(s.lay, s.disk) && Head(s.lay, s.disk) == []
    requires HomeEq(s.lay, s.disk, Replay(s.base, s.hist, |s.hist|))
    requires var t := Do(s, CommitDone(p)); forall q :: 0 <= q < |t.procs| ==> !t.procs[q].Committing?
    ensures var t := Do(s, CommitDone(p)); Durable(t) && MemInv(t) && CommitInv(t) && DiskInv(t)
  {
    hide CommitWrites, Replay, Recovered, Overlay, After, OpsInv, SpaceInv, SleepInv, CommitInv;
    CommitDoneNone(s, p);
  }

  lemma CommitDoneNone(s: State, p: nat)
    requires Enabled(s, CommitDone(p)) && MemInv(Do(s, CommitDone(p)))
    requires var t := Do(s, CommitDone(p)); forall q :: 0 <= q < |t.procs| ==> !t.procs[q].Committing?
    ensures CommitInv(Do(s, CommitDone(p)))
  {
    hide CommitWrites, Replay, After, MemInv;
  }

  // ----- crash and recovery -----

  lemma StepCrash(s: State)
    requires Inv(s)
    ensures Enabled(s, Crash) && Inv(Do(s, Crash))
  {
    hide Replay, Recovered;
    ReplaySame(s.base, s.hist, s.hist[..s.cut], s.cut);
  }

  lemma StepRecoverWrite(s: State)
    requires Inv(s) && Enabled(s, RecoverWrite)
    ensures Inv(Do(s, RecoverWrite))
  {
    hide Replay, Recovered, After, RecoverWrites;
    AfterNext(s.origin, RecoverWrites(s.lay, s.origin), s.phase.j);
    RecoveryCrash(s.lay, s.origin, s.phase.j);
    RecoveryCrash(s.lay, s.origin, s.phase.j + 1);
  }

  lemma StepRecoverDone(s: State)
    requires Inv(s) && Enabled(s, RecoverDone)
    ensures Inv(Do(s, RecoverDone))
  {
    hide Replay, After, RecoverWrites, Ops, Reserved, Committers;
    var ws := RecoverWrites(s.lay, s.origin);
    RecoveredHead(s.lay, s.origin);
    EmptyLogRecovers(s.lay, s.disk);
    CountNone(s.procs, |s.procs|);
  }

  // ----- whole runs -----

  lemma StepKeepsInv(s: State, e: Event)
    requires Inv(s) && Enabled(s, e)
    ensures Inv(Do(s, e))
  {
    match e {
      case CallBegin(p) => StepBegin(s, p);
      case TryBegin(p) => StepTryBegin(s, p);
      case Kill(p) => StepKill(s, p);
      case LogWrite(p, b, data) => StepLogWrite(s, p, b, data);
      case EndOp(p) => StepEndOp(s, p);
      case CommitWrite(p) => StepCommitWrite(s, p);
      case CommitDone(p) => StepCommitDone(s, p);
      case Crash => StepCrash(s);
      case RecoverWrite => StepRecoverWrite(s);
      case RecoverDone => StepRecoverDone(s);
    }
  }

  lemma InitInv(s: State)
    requires Init(s)
    ensures Inv(s)
  {}

  /** The schedule es takes s to t. */
  ghost predicate Runs(s: State, es: Schedule<Event>, t: State)
    decreases es
  {
    match es
    case Stop => s == t
    case Then(e, rest) => Enabled(s, e) && Runs(Do(s, e), rest, t)
  }

  lemma {:induction false} RunKeepsInv(s: State, es: Schedule<Event>, t: State)
    requires Inv(s) && Runs(s, es, t)
    ensures Inv(t)
    decreases es
  {
    hide Inv, Enabled, Do;
    if es.Then? {
      StepKeepsInv(s, es.event);
      RunKeepsInv(Do(s, es.event), es.rest, t);
    }
  }

  /** Crash atomicity over whole runs: whatever the interleaving and however often
      power fails, a recovery from the present disk delivers the initial home blocks
      with exactly the committed updates replayed, and operations are committed whole. */
  lemma CrashAtomicity(s: State, es: Schedule<Event>, t: State)
    requires Init(s) && Runs(s, es, t)
    ensures Durable(t) && WholeOps(t)
  {
    hide Durable, WholeOps, RunningInv, RecoveringInv, Runs, Init;
    InitInv(s);
    RunKeepsInv(s, es, t);
  }

  /** While the system is up, bread sees every logged update in order; the log never
      exceeds its reservation; commit runs with no operation outstanding; nobody
      sleeps in begin_op without having to. */
  lemma UpInvariant(s: State, es: Schedule<Event>, t: State)
    requires Init(s) && Runs(s, es, t) && t.phase.Running?
    ensures forall b: nat :: !t.lay.InLog(b) ==> t.View(b) == At(Replay(t.base, t.hist, |t.hist|), b)
    ensures |t.lh| + Reserved(t.procs, |t.procs|) <= LOGSIZE && |t.lh| < t.lay.size
    ensures t.outstanding == Ops(t.procs, |t.procs|)
    ensures t.committing ==> t.outstanding == 0
    ensures t.outstanding == 0 && !t.committing ==> t.lh == [] && t.cut == |t.hist|
    ensures forall p :: 0 <= p < |t.procs| && t.procs[p].Asleep? ==>
              t.committing || |t.lh| + (t.outstanding + 1) * MAXOPBLOCKS > LOGSIZE
  {
    hide Runs, Init, Durable, CommitInv, DiskInv, Replay;
    InitInv(s);
    RunKeepsInv(s, es, t);
  }

  /** The two panics that only space can cause. */
  predicate SpacePanic(why: Panic) {
    why.TooBig? || why.NoBuffers?
  }

  lemma StepPanics(s: State, e: Event)
    requires Inv(s) && Enabled(s, e) && (s.phase.Panicked? ==> SpacePanic(s.phase.why))
    ensures Do(s, e).phase.Panicked? ==> SpacePanic(Do(s, e).phase.why)
  {
    hide Inv, CommitWrites, RecoverWrites, DiskOk, HeaderOk;
    match e {
      case LogWrite(p, b, data) => if !s.LogFull() { LogWriteSpace(s, p, b, data); }
      case EndOp(p) => EndOpCounts(s, p);
      case _ =>
    }
  }

  /** However many processes there are, "log_write outside of trans" and "log.committing" are
      out of reach in every run: only a full log or a full buffer cache panics. */
  lemma {:induction false} OnlySpacePanics(s: State, es: Schedule<Event>, t: State)
    requires Inv(s) && Runs(s, es, t) && (s.phase.Panicked? ==> SpacePanic(s.phase.why))
    ensures t.phase.Panicked? ==> SpacePanic(t.phase.why)
    decreases es
  {
    hide Inv, Enabled, Do;
    if es.Then? {
      StepPanics(s, es.event);
      StepKeepsInv(s, es.event);
      OnlySpacePanics(Do(s, es.event), es.rest, t);
    }
  }

  lemma StepKeepsCommitted(s: State, e: Event)
    requires s.cut <= |s.hist| && Enabled(s, e)
    ensures Do(s, e).lay == s.lay && Do(s, e).base == s.base && |Do(s, e).procs| == |s.procs|
    ensures s.cut <= Do(s, e).cut <= |Do(s, e).hist|
    ensures SamePrefix(s.hist, Do(s, e).hist, s.cut)
  {
    hide RecoverWrites, CommitWrites, HeaderOk, DiskOk, WakeAll, DoLogWrite;
    match e {
      case LogWrite(p, b, data) => LogWriteExtends(s, p, b, data);
      case _ =>
    }
  }

  lemma LogWriteExtends(s: State, p: nat, b: nat, data: Block)
    requires p < |s.procs| && s.procs[p].InOp? && s.cut <= |s.hist|
    ensures Extends(s, DoLogWrite(s, p, b, data))
  {
    hide Listed;
    ListedExtends(s, p, b, data);
  }

  ghost predicate Extends(s: State, t: State) {
    && t.lay == s.lay && t.base == s.base && |t.procs| == |s.procs|
    && t.cut == s.cut && SamePrefix(s.hist, t.hist, |s.hist|)
  }

  lemma ListedExtends(s: State, p: nat, b: nat, data: Block)
    requires p < |s.procs| && s.procs[p].InOp? && s.cut <= |s.hist|
    ensures Extends(s, Listed(s, p, b, data))
  {
    hide Absorb;
  }

  /** Durability: what is committed stays committed, in the same order, through every
      later step and crash. */
  lemma {:induction false} Durability(s: State, es: Schedule<Event>, t: State)
    requires s.cut <= |s.hist| && Runs(s, es, t)
    ensures t.lay == s.lay && t.base == s.base
    ensures s.cut <= t.cut <= |t.hist|
    ensures SamePrefix(s.hist, t.hist, s.cut)
    decreases es
  {
    hide Enabled, Do;
    if es.Then? {
      StepKeepsCommitted(s, es.event);
      Durability(Do(s, es.event), es.rest, t);
    }
  }

  /** The end_op that commits returns only when every update logged so far is durable. */
  lemma CommitReturnsDurable(s: State, p: nat)
    requires Inv(s) && Enabled(s, CommitDone(p))
    ensures Do(s, CommitDone(p)).cut == |Do(s, CommitDone(p)).hist|
    ensures Do(s, CommitDone(p)).hist == s.hist
  {
    hide Durable, OpsInv, RunningInv;
    CommitDoneDisk(s, p);
  }
}
