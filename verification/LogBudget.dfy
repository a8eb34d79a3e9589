/** When the reservation of begin_op really keeps the log from panicking.

    mkfs makes the log LOGSIZE blocks long, header included, while begin_op hands out
    LOGSIZE data blocks, so log_write panics on operations inside their budget. A longer
    log does not help an operation that logs a block again once its budget is used up,
    and it leads to a transaction that pins the whole buffer cache. */
module LogBudget {
  import opened Blocks
  import opened Common
  import opened Journal
  import opened Log
  import opened LogProtocol
  import opened LogSafety
  import BufferCache

  /** A run in which every log_write comes from an operation with budget left. In any
      run an operation adds at most MAXOPBLOCKS blocks to the log; here it also stops
      calling log_write once it has added that many. */
  ghost predicate BudgetedRun(s: State, es: Schedule<Event>, t: State)
    decreases es
  {
    match es
    case Stop => s == t
    case Then(e, rest) => Enabled(s, e) && InBudget(s, e) && BudgetedRun(Do(s, e), rest, t)
  }

  ghost predicate InBudget(s: State, e: Event)
    requires Enabled(s, e)
  {
    e.LogWrite? ==> s.procs[e.p].used < MAXOPBLOCKS
  }

  lemma {:induction false} BudgetedRuns(s: State, es: Schedule<Event>, t: State)
    requires BudgetedRun(s, es, t)
    ensures Runs(s, es, t)
    decreases es
  {
    hide Enabled, Do, InBudget;
    if es.Then? { BudgetedRuns(Do(s, es.event), es.rest, t); }
  }

  lemma {:induction false} RunAppend(s: State, es: Schedule<Event>, m: State, fs: Schedule<Event>, t: State)
    requires BudgetedRun(s, es, m) && BudgetedRun(m, fs, t)
    ensures BudgetedRun(s, Concat(es, fs), t)
    decreases es
  {
    hide Enabled, Do, InBudget;
    if es.Then? { RunAppend(Do(s, es.event), es.rest, m, fs, t); }
  }

  lemma {:induction false} RunsAppend(s: State, es: Schedule<Event>, m: State, fs: Schedule<Event>, t: State)
    requires Runs(s, es, m) && Runs(m, fs, t)
    ensures Runs(s, Concat(es, fs), t)
    decreases es
  {
    hide Enabled, Do;
    if es.Then? { RunsAppend(Do(s, es.event), es.rest, m, fs, t); }
  }

  // ----- operations as lists of calls -----

  /** The blocks that operation op logged in the first n updates of hist, in order. */
  function CallsOf(hist: seq<Rec>, op: nat, n: nat): seq<nat>
    requires n <= |hist|
  {
    if n == 0 then []
    else if hist[n - 1].op == op then CallsOf(hist, op, n - 1) + [hist[n - 1].block]
    else CallsOf(hist, op, n - 1)
  }

  /** The calls of log_write that operation op has made. */
  function Calls(hist: seq<Rec>, op: nat): seq<nat> {
    CallsOf(hist, op, |hist|)
  }

  /** The blocks that operation op has listed, as if it were alone. */
  function Own(hist: seq<Rec>, op: nat): seq<nat> {
    ListOf(Calls(hist, op), |Calls(hist, op)|)
  }

  /** A run in which the calls of every operation form a frugal list, whatever the other
      operations do. */
  ghost predicate FrugalRun(s: State, es: Schedule<Event>, t: State)
    decreases es
  {
    match es
    case Stop => s == t
    case Then(e, rest) => Enabled(s, e) && Thrifty(s, e) && FrugalRun(Do(s, e), rest, t)
  }

  ghost predicate Thrifty(s: State, e: Event)
    requires Enabled(s, e)
  {
    e.LogWrite? ==> Frugal(Calls(s.hist, s.procs[e.p].op) + [e.b])
  }

  /** What a process is charged for is no more than its operation has listed. */
  ghost predicate Accounted(s: State) {
    s.phase.Running? ==>
      forall p :: 0 <= p < |s.procs| && s.procs[p].InOp? ==> s.procs[p].used <= |Own(s.hist, s.procs[p].op)|
  }

  lemma {:induction false} CallsSame(hist: seq<Rec>, r: Rec, op: nat, n: nat)
    requires n <= |hist|
    ensures CallsOf(hist + [r], op, n) == CallsOf(hist, op, n)
  {
    if n > 0 { CallsSame(hist, r, op, n - 1); }
  }

  lemma {:induction false} CallIn(hist: seq<Rec>, op: nat, n: nat, b: nat) returns (i: nat)
    requires n <= |hist| && b in CallsOf(hist, op, n)
    ensures i < n && hist[i].op == op && hist[i].block == b
  {
    i := n - 1;
    if !(hist[i].op == op && hist[i].block == b) { i := CallIn(hist, op, n - 1, b); }
  }

  lemma {:induction false} ListedCalled(calls: seq<nat>, n: nat, b: nat)
    requires n <= |calls| && b in ListOf(calls, n)
    ensures b in calls
  {
    if b != calls[n - 1] { ListedCalled(calls, n - 1, b); }
  }

  /** One more call by operation op. */
  lemma OwnGrows(hist: seq<Rec>, r: Rec, op: nat)
    ensures Own(hist + [r], op) == if r.op == op then Absorb(Own(hist, op), r.block) else Own(hist, op)
  {
    CallsSame(hist, r, op, |hist|);
    if r.op == op { ListOfSame(Calls(hist, op), r.block, |Calls(hist, op)|); }
  }

  /** A block that is not listed at all is not in the operation's own list: its calls are not
      committed yet, so their blocks are listed. */
  lemma NewToOp(s: State, p: nat, b: nat)
    requires Inv(s) && HasPc(s, p) && s.procs[p].InOp? && b !in s.lh
    ensures b !in Own(s.hist, s.procs[p].op)
  {
    hide Durable, CommitInv, DiskInv, SpaceInv, SleepInv;
    var op := s.procs[p].op;
    assert MemInv(s) && OpsInv(s);
    if b in Own(s.hist, op) {
      ListedCalled(Calls(s.hist, op), |Calls(s.hist, op)|, b);
      var i := CallIn(s.hist, op, |s.hist|, b);
    }
  }

  lemma WriteAccounted(s: State, p: nat, b: nat, data: Block)
    requires Inv(s) && Enabled(s, LogWrite(p, b, data)) && Accounted(s)
    ensures Accounted(DoLogWrite(s, p, b, data))
  {
    hide Inv, Own;
    var t := DoLogWrite(s, p, b, data);
    if t.phase.Running? {
      if b !in s.lh { NewToOp(s, p, b); }
      forall q | 0 <= q < |t.procs| && t.procs[q].InOp? ensures t.procs[q].used <= |Own(t.hist, t.procs[q].op)| {
        OwnGrows(s.hist, Rec(s.procs[p].op, b, data), s.procs[q].op);
      }
    }
  }

  lemma StepAccounted(s: State, e: Event)
    requires Inv(s) && Enabled(s, e) && Accounted(s)
    ensures Accounted(Do(s, e))
  {
    hide Inv, CommitWrites, RecoverWrites, DiskOk, HeaderOk, DoLogWrite, Own;
    match e {
      case LogWrite(p, b, data) => WriteAccounted(s, p, b, data);
      case RecoverDone => RecoveredIdle(s);
      case _ =>
    }
  }

  lemma RecoveredIdle(s: State)
    requires Inv(s) && s.phase.Recovering?
    ensures forall p :: 0 <= p < |s.procs| ==> s.procs[p].Idle?
  {
    hide Durable, OpsInv;
  }

  /** A call that keeps the operation's own list frugal is inside the budget. */
  lemma FrugalCall(s: State, p: nat, b: nat)
    requires Accounted(s) && HasPc(s, p) && s.procs[p].InOp? && Frugal(Calls(s.hist, s.procs[p].op) + [b])
    ensures s.procs[p].used < MAXOPBLOCKS
  {
    var calls := Calls(s.hist, s.procs[p].op);
    ListOfSame(calls, b, |calls|);
    assert |ListOf(calls + [b], |calls|)| < MAXOPBLOCKS;
  }

  /** Operations that are frugal each by itself stay inside begin_op's reservation together,
      in any interleaving. */
  lemma {:induction false} FrugalIsBudgeted(s: State, es: Schedule<Event>, t: State)
    requires Inv(s) && Accounted(s) && FrugalRun(s, es, t)
    ensures BudgetedRun(s, es, t)
    decreases es
  {
    hide Inv, Enabled, Do, Accounted, Thrifty, InBudget;
    if es.Then? {
      var e := es.event;
      ThriftyInBudget(s, e);
      StepAccounted(s, e);
      StepKeepsInv(s, e);
      FrugalIsBudgeted(Do(s, e), es.rest, t);
    }
  }

  lemma ThriftyInBudget(s: State, e: Event)
    requires Enabled(s, e) && Accounted(s) && Thrifty(s, e)
    ensures InBudget(s, e)
  {
    hide Accounted, Frugal;
    if e.LogWrite? { FrugalCall(s, e.p, e.b); }
  }

  /** An operation that makes the calls of a frugal list, as every operation of FileSystem
      does, is thrifty at each of them. */
  lemma FrugalSoFar(calls: seq<nat>, i: nat)
    requires Frugal(calls) && i < |calls|
    ensures Frugal(calls[..i] + [calls[i]])
  {
    var head := calls[..i] + [calls[i]];
    forall n | 0 <= n < |head| ensures |ListOf(head, n)| < MAXOPBLOCKS { ListOfPrefix(calls, head, n); }
  }

  lemma {:induction false} ListOfPrefix(calls: seq<nat>, head: seq<nat>, n: nat)
    requires n <= |head| && head <= calls
    ensures ListOf(head, n) == ListOf(calls, n)
  {
    if n > 0 { ListOfPrefix(calls, head, n - 1); }
  }

  // ----- logs that are large enough -----

  lemma StepFits(s: State, e: Event)
    requires Inv(s) && Enabled(s, e) && s.lay.size > LOGSIZE && s.phase != Panicked(TooBig)
    requires InBudget(s, e)
    ensures Do(s, e).phase != Panicked(TooBig)
  {
    hide Inv;
    match e {
      case LogWrite(p, b, data) => BudgetedWriteFits(s, p);
      case _ =>
    }
  }

  lemma InvCut(s: State)
    requires Inv(s)
    ensures s.cut <= |s.hist|
  {}

  lemma {:induction false} RoomyLogFits(s: State, es: Schedule<Event>, t: State)
    requires Inv(s) && s.lay.size > LOGSIZE && s.phase != Panicked(TooBig)
    requires BudgetedRun(s, es, t)
    ensures t.phase != Panicked(TooBig)
    decreases es
  {
    hide Inv, Enabled, Do, InBudget;
    if es.Then? {
      StepFits(s, es.event);
      StepKeepsInv(s, es.event);
      InvCut(s);
      StepKeepsCommitted(s, es.event);
      RoomyLogFits(Do(s, es.event), es.rest, t);
    }
  }

  // ----- a single process -----

  /** At most one process: the log holds what its current operation added. */
  ghost predicate Lone(s: State) {
    && |s.procs| <= 1 && |s.lh| <= MAXOPBLOCKS && !s.phase.Panicked?
    && (|s.procs| == 1 && s.procs[0].InOp? ==> s.phase.Running? && |s.lh| == s.procs[0].used)
  }

  /** The log blocks one operation needs: its budget and the header, and one more if it
      may log a block again after using up its budget. */
  ghost predicate Enough(s: State, e: Event)
    requires Enabled(s, e)
  {
    s.lay.size > if InBudget(s, e) then MAXOPBLOCKS else MAXOPBLOCKS + 1
  }

  lemma SpaceFacts(s: State)
    requires Inv(s) && s.phase.Running? && |s.procs| == 1
    ensures s.procs[0].InOp? ==> s.outstanding == 1 && !s.committing && s.procs[0].used <= MAXOPBLOCKS
    ensures !s.procs[0].InOp? && !s.procs[0].Committing? ==> s.lh == []
  {
    hide Durable, MemInv, CommitInv, DiskInv, OpsInv, SleepInv;
    assert Ops(s.procs, 1) == Ops(s.procs, 0) + One(s.procs[0].InOp?);
    assert Committers(s.procs, 1) == Committers(s.procs, 0) + One(s.procs[0].Committing?);
  }

  lemma LoneWrite(s: State, p: nat, b: nat, data: Block)
    requires Enabled(s, LogWrite(p, b, data)) && Lone(s) && Enough(s, LogWrite(p, b, data))
    requires s.outstanding == 1 && s.procs[0].used <= MAXOPBLOCKS
    ensures Lone(DoLogWrite(s, p, b, data))
  {}

  lemma LoneStep(s: State, e: Event)
    requires Inv(s) && Enabled(s, e) && Lone(s) && (|s.procs| == 0 || Enough(s, e))
    ensures Lone(Do(s, e))
  {
    hide Inv, CommitWrites, RecoverWrites, DiskOk, HeaderOk, DoLogWrite;
    if s.phase.Running? && |s.procs| == 1 { SpaceFacts(s); }
    match e {
      case LogWrite(p, b, data) => LoneWrite(s, p, b, data);
      case CommitWrite(p) => assert Do(s, e) == WriteNext(s, p);
      case _ =>
    }
  }

  lemma {:induction false} LoneBudgeted(s: State, es: Schedule<Event>, t: State)
    requires Inv(s) && Lone(s) && BudgetedRun(s, es, t)
    requires |s.procs| == 0 || s.lay.size > MAXOPBLOCKS
    ensures !t.phase.Panicked?
    decreases es
  {
    hide Inv, Enabled, Do, InBudget;
    if es.Then? {
      LoneStep(s, es.event);
      StepKeepsInv(s, es.event);
      InvCut(s);
      StepKeepsCommitted(s, es.event);
      LoneBudgeted(Do(s, es.event), es.rest, t);
    }
  }

  lemma {:induction false} LoneRuns(s: State, es: Schedule<Event>, t: State)
    requires Inv(s) && Lone(s) && Runs(s, es, t)
    requires |s.procs| == 0 || s.lay.size > MAXOPBLOCKS + 1
    ensures !t.phase.Panicked?
    decreases es
  {
    hide Inv, Enabled, Do, InBudget;
    if es.Then? {
      LoneStep(s, es.event);
      StepKeepsInv(s, es.event);
      InvCut(s);
      StepKeepsCommitted(s, es.event);
      LoneRuns(Do(s, es.event), es.rest, t);
    }
  }

  // ----- runs that fill the log -----

  ghost predicate Quiet(s: State) {
    && s.lh == [] && s.outstanding == 0 && !s.committing
    && forall p :: 0 <= p < |s.procs| ==> s.procs[p].Idle?
  }

  lemma {:induction false} FinishRecovery(s: State) returns (es: Schedule<Event>, t: State)
    requires Inv(s) && s.phase.Recovering? && Quiet(s)
    ensures BudgetedRun(s, es, t)
    ensures t.phase.Running? && Quiet(t) && t.lay == s.lay && |t.procs| == |s.procs|
    decreases |RecoverWrites(s.lay, s.origin)| - s.phase.j
  {
    if s.phase.j == |RecoverWrites(s.lay, s.origin)| {
      es, t := Then(RecoverDone, Stop), Do(s, RecoverDone);
    } else {
      StepKeepsInv(s, RecoverWrite);
      var fs;
      fs, t := FinishRecovery(Do(s, RecoverWrite));
      es := Then(RecoverWrite, fs);
    }
  }

  /** Operations are running and m distinct blocks behind the log are listed. */
  ghost predicate Filled(s: State, m: nat) {
    && s.phase.Running? && !s.committing && s.outstanding >= 1 && |s.lh| == m
    && s.lay.start + s.lay.size + LOGSIZE <= WORD_LIMIT
    && forall i :: 0 <= i < m ==> s.lh[i] < s.lay.start + s.lay.size + m
  }

  ghost predicate Used(s: State, p: nat, n: nat) {
    p < |s.procs| && s.procs[p].InOp? && s.procs[p].used == n
  }

  lemma Enter(s: State, p: nat) returns (es: Schedule<Event>, t: State)
    requires s.phase.Running? && p < |s.procs| && s.procs[p].Idle? && !s.MustWait()
    ensures BudgetedRun(s, es, t)
    ensures t == s.(procs := s.procs[p := InOp(s.nextOp, 0)], outstanding := s.outstanding + 1, nextOp := s.nextOp + 1)
  {
    var m := Do(s, CallBegin(p));
    es, t := Then(CallBegin(p), Then(TryBegin(p), Stop)), Do(m, TryBegin(p));
  }

  lemma WriteFresh(s: State, m: nat, p: nat, n: nat) returns (e: Event)
    requires Filled(s, m) && m < LOGSIZE && Used(s, p, n) && n < MAXOPBLOCKS
    ensures Enabled(s, e) && InBudget(s, e) && Do(s, e).lay == s.lay
    ensures if s.LogFull() then Do(s, e).phase == Panicked(TooBig)
            else && Filled(Do(s, e), m + 1) && Do(s, e).outstanding == s.outstanding
                 && Do(s, e).procs == s.procs[p := InOp(s.procs[p].op, n + 1)]
  {
    hide CommitWrites, RecoverWrites, DiskOk, WakeAll;
    var b := s.lay.start + s.lay.size + m;
    e := LogWrite(p, b, Zero);
    assert b !in s.lh;
    assert Do(s, e) == DoLogWrite(s, p, b, Zero);
  }

  /** The outcome of writing up to m listed blocks: the log overflowed, or it has room. */
  ghost predicate FilledOrFull(s: State, m: nat) {
    s.phase == Panicked(TooBig) || (Filled(s, m) && m < s.lay.size)
  }

  lemma {:induction false} WriteMany(s: State, m: nat, p: nat, n: nat, k: nat) returns (es: Schedule<Event>, t: State)
    requires Filled(s, m) && m < s.lay.size && Used(s, p, n) && n + k <= MAXOPBLOCKS && m + k <= LOGSIZE
    ensures BudgetedRun(s, es, t) && FilledOrFull(t, m + k) && t.lay == s.lay
    ensures t.phase.Running? ==> t.outstanding == s.outstanding && t.procs == s.procs[p := InOp(s.procs[p].op, n + k)]
    decreases k
  {
    hide Enabled, Do, InBudget;
    if k == 0 {
      es, t := Stop, s;
    } else {
      var e := WriteFresh(s, m, p, n);
      if s.LogFull() {
        es, t := Then(e, Stop), Do(s, e);
      } else {
        var fs;
        fs, t := WriteMany(Do(s, e), m + 1, p, n + 1, k - 1);
        es := Then(e, fs);
      }
    }
  }

  /** One operation logs its whole budget. */
  lemma FillOne(s: State) returns (es: Schedule<Event>, t: State)
    requires s.phase.Running? && Quiet(s) && |s.procs| >= 1 && s.lay.size > 0
    requires s.lay.start + s.lay.size + LOGSIZE <= WORD_LIMIT
    ensures BudgetedRun(s, es, t) && t.lay == s.lay && FilledOrFull(t, MAXOPBLOCKS)
    ensures t.phase.Running? ==> t.outstanding == 1 && Used(t, 0, MAXOPBLOCKS)
    ensures t.phase.Running? ==> t.procs == s.procs[0 := t.procs[0]]
  {
    hide BudgetedRun;
    var e0, s1 := Enter(s, 0);
    var e1, s2 := WriteMany(s1, 0, 0, 0, MAXOPBLOCKS);
    RunAppend(s, e0, s1, e1, s2);
    es, t := Concat(e0, e1), s2;
  }

  /** Process 1 is in an operation that has logged nothing while process 0 ends its first
      operation and begins a second. */
  lemma TurnOver(s: State) returns (es: Schedule<Event>, t: State)
    requires Filled(s, MAXOPBLOCKS) && s.outstanding == 1 && |s.procs| >= 2
    requires Used(s, 0, MAXOPBLOCKS) && s.procs[1].Idle?
    ensures BudgetedRun(s, es, t) && t.lay == s.lay && Filled(t, MAXOPBLOCKS) && t.outstanding == 2
    ensures Used(t, 0, 0) && Used(t, 1, 0)
  {
    hide BudgetedRun;
    var e1, s1 := Enter(s, 1);
    var e2, s2 := Leave(s1, 0);
    var e3, s3 := Enter(s2, 0);
    RunAppend(s, e1, s1, e2, s2);
    RunAppend(s, Concat(e1, e2), s2, e3, s3);
    es, t := Concat(Concat(e1, e2), e3), s3;
  }

  lemma Leave(s: State, p: nat) returns (es: Schedule<Event>, t: State)
    requires s.phase.Running? && p < |s.procs| && s.procs[p].InOp? && !s.committing && s.outstanding > 1
    ensures BudgetedRun(s, es, t)
    ensures t == s.(procs := WakeAll(s.procs[p := Idle]), outstanding := s.outstanding - 1)
  {
    es, t := Then(EndOp(p), Stop), Do(s, EndOp(p));
  }

  /** Two processes log LOGSIZE distinct blocks in three operations, each inside its
      budget, unless log_write panics on the way. */
  lemma FillTwo(s: State) returns (es: Schedule<Event>, t: State)
    requires s.phase.Running? && Quiet(s) && |s.procs| >= 2 && s.lay.size > 0
    requires s.lay.start + s.lay.size + LOGSIZE <= WORD_LIMIT
    ensures BudgetedRun(s, es, t) && t.lay == s.lay && FilledOrFull(t, LOGSIZE)
    ensures t.phase.Running? ==> t.outstanding == 2 && Used(t, 0, MAXOPBLOCKS) && Used(t, 1, MAXOPBLOCKS)
  {
    hide BudgetedRun;
    es, t := FillOne(s);
    if t.phase.Running? {
      var e1, s1 := TurnOver(t);
      RunAppend(s, es, t, e1, s1);
      es := Concat(es, e1);
      var e2, s2 := WriteMany(s1, MAXOPBLOCKS, 0, 0, MAXOPBLOCKS);
      RunAppend(s, es, s1, e2, s2);
      es, t := Concat(es, e2), s2;
      if t.phase.Running? {
        var e3, s3 := WriteMany(s2, 2 * MAXOPBLOCKS, 1, 0, MAXOPBLOCKS);
        RunAppend(s, es, s2, e3, s3);
        es, t := Concat(es, e3), s3;
      }
    }
  }

  /** A freshly initialised system, recovered and then filled by one or two processes. */
  lemma Fill(s: State) returns (es: Schedule<Event>, t: State)
    requires Init(s) && |s.procs| >= 1 && s.lay.start + s.lay.size + LOGSIZE <= WORD_LIMIT
    ensures BudgetedRun(s, es, t) && t.lay == s.lay && Inv(t)
    ensures FilledOrFull(t, if |s.procs| == 1 then MAXOPBLOCKS else LOGSIZE)
    ensures t.phase.Running? && |s.procs| == 1 ==> Used(t, 0, MAXOPBLOCKS)
    ensures t.phase.Running? && |s.procs| > 1 ==>
              t.outstanding == 2 && Used(t, 0, MAXOPBLOCKS) && Used(t, 1, MAXOPBLOCKS)
  {
    InitInv(s);
    hide BudgetedRun, Inv;
    var e0, s1 := FinishRecovery(s);
    var e1;
    if |s.procs| == 1 { e1, t := FillOne(s1); } else { e1, t := FillTwo(s1); }
    RunAppend(s, e0, s1, e1, t);
    es := Concat(e0, e1);
    BudgetedRuns(s, es, t);
    RunKeepsInv(s, es, t);
  }

  /** An operation that has used up its budget logs one of its blocks again. */
  lemma Relog(s: State, p: nat) returns (es: Schedule<Event>, t: State)
    requires Inv(s) && Filled(s, |s.lh|) && Used(s, p, MAXOPBLOCKS) && s.lh != [] && s.LogFull()
    ensures Runs(s, es, t) && t.phase == Panicked(TooBig)
  {
    hide Durable, CommitInv, DiskInv, SpaceInv, SleepInv, OpsInv;
    var e := LogWrite(p, s.lh[0], Zero);
    assert MemInv(s);
    es, t := Then(e, Stop), Do(s, e);
  }

  /** The two operations end, and commit finds every buffer pinned. */
  lemma CommitFull(s: State) returns (es: Schedule<Event>, t: State)
    requires Inv(s) && Filled(s, LOGSIZE) && s.outstanding == 2
    requires Used(s, 0, MAXOPBLOCKS) && Used(s, 1, MAXOPBLOCKS)
    ensures BudgetedRun(s, es, t) && t.phase == Panicked(NoBuffers)
  {
    hide Durable, CommitInv, DiskInv, SpaceInv, SleepInv, OpsInv, BudgetedRun;
    assert HeaderOk(s.lay, s.lh) by { assert MemInv(s); }
    var e0, s1 := Leave(s, 0);
    var e1, s2 := LastCommit(s1, 1);
    RunAppend(s, e0, s1, e1, s2);
    es, t := Concat(e0, e1), s2;
  }

  lemma LastCommit(s: State, p: nat) returns (es: Schedule<Event>, t: State)
    requires s.phase.Running? && p < |s.procs| && s.procs[p].InOp? && !s.committing && s.outstanding == 1
    requires HeaderOk(s.lay, s.lh) && |s.lh| == LOGSIZE
    ensures BudgetedRun(s, es, t) && t.phase == Panicked(NoBuffers)
  {
    var s1 := Do(s, EndOp(p));
    es, t := Then(EndOp(p), Then(CommitWrite(p), Stop)), Do(s1, CommitWrite(p));
  }

  // ----- the exact conditions -----

  /** The blocks begin_op's reservation lets a transaction reach. */
  function Reach(n: nat): nat {
    if n == 0 then 0 else if n == 1 then MAXOPBLOCKS else LOGSIZE
  }

  /** Operations that stop at their budget never overflow the log, in any run, exactly when
      the log is longer than what a transaction can reach: for two or more processes, when
      it has more than LOGSIZE blocks. */
  lemma BudgetSafeIff(s: State)
    requires Init(s) && s.lay.start + s.lay.size + LOGSIZE <= WORD_LIMIT
    ensures (forall es: Schedule<Event>, t: State :: BudgetedRun(s, es, t) ==> t.phase != Panicked(TooBig))
            <==> s.lay.size > Reach(|s.procs|)
  {
    InitInv(s);
    hide Inv, Enabled, Do;
    if s.lay.size > Reach(|s.procs|) {
      forall es: Schedule<Event>, t: State | BudgetedRun(s, es, t) ensures t.phase != Panicked(TooBig) {
        if |s.procs| <= 1 { LoneBudgeted(s, es, t); } else { RoomyLogFits(s, es, t); }
      }
    } else {
      var es, t := Fill(s);
    }
  }

  /** So a kernel whose operations are frugal, as those of FileSystem are, never overflows a
      log longer than what a transaction can reach. */
  lemma FrugalSafe(s: State, es: Schedule<Event>, t: State)
    requires Init(s) && s.lay.start + s.lay.size + LOGSIZE <= WORD_LIMIT && FrugalRun(s, es, t)
    requires s.lay.size > Reach(|s.procs|)
    ensures t.phase != Panicked(TooBig)
  {
    InitInv(s);
    hide Inv, Enabled, Do;
    FrugalIsBudgeted(s, es, t);
    BudgetSafeIff(s);
  }

  /** Longer logs do not make the kernel safe: with two or more processes some run of
      operations inside their budget panics whatever the log size, in log_write or for want
      of a buffer in commit. */
  lemma BudgetPanicIff(s: State)
    requires Init(s) && s.lay.start + s.lay.size + LOGSIZE <= WORD_LIMIT
    ensures (forall es: Schedule<Event>, t: State :: BudgetedRun(s, es, t) ==> !t.phase.Panicked?)
            <==> |s.procs| == 0 || (|s.procs| == 1 && s.lay.size > MAXOPBLOCKS)
  {
    InitInv(s);
    hide Inv, Enabled, Do;
    if |s.procs| <= 1 && s.lay.size > Reach(|s.procs|) {
      forall es: Schedule<Event>, t: State | BudgetedRun(s, es, t) ensures !t.phase.Panicked? {
        LoneBudgeted(s, es, t);
      }
    } else {
      var es, t := Fill(s);
      if t.phase.Running? {
        var fs, u := CommitFull(t);
        RunAppend(s, es, t, fs, u);
      }
    }
  }

  /** Runs in which an operation adds at most MAXOPBLOCKS blocks but may log them again: no
      log size protects two or more processes from log_write's panic. */
  lemma RelogPanicIff(s: State)
    requires Init(s) && s.lay.start + s.lay.size + LOGSIZE <= WORD_LIMIT
    ensures (forall es: Schedule<Event>, t: State :: Runs(s, es, t) ==> t.phase != Panicked(TooBig))
            <==> |s.procs| == 0 || (|s.procs| == 1 && s.lay.size > MAXOPBLOCKS + 1)
  {
    InitInv(s);
    hide Inv, Enabled, Do;
    if |s.procs| == 0 || (|s.procs| == 1 && s.lay.size > MAXOPBLOCKS + 1) {
      forall es: Schedule<Event>, t: State | Runs(s, es, t) ensures t.phase != Panicked(TooBig) {
        LoneRuns(s, es, t);
      }
    } else {
      var es, t := Fill(s);
      BudgetedRuns(s, es, t);
      if t.phase.Running? {
        var fs, u := Relog(t, if |s.procs| == 1 then 0 else 1);
        RunsAppend(s, es, t, fs, u);
      }
    }
  }
}
