/** begin_op, log_write, end_op, commit and recovery as a state machine: any number
    of processes, any interleaving, and a power failure at any step.

    A step is one critical section under log.lock, or one disk write. The fields
    base, hist, cut and origin are history: they record what happened and guide no step. */
module LogProtocol {
  import opened Blocks
  import opened Journal
  import opened Log
  import BufferCache

  /** One logged update: operation op gave block the content data. */
  datatype Rec = Rec(op: nat, block: nat, data: Block)

  datatype Pc =
    | Idle                       // outside begin_op .. end_op
    | Wanting                    // in begin_op, runnable
    | Asleep                     // in begin_op, SLEEPING on &log
    | InOp(op: nat, used: nat)   // between begin_op and end_op; used blocks added to the log
    | Committing(k: nat)         // in commit, k of its writes are on disk

  datatype Phase = Recovering(j: nat) | Running | Panicked(why: Panic)

  datatype Panic =
    | TooBig       // log_write: "too big a transaction"
    | OutsideOp    // log_write: "log_write outside of trans"
    | NestedCommit // end_op: "log.committing"
    | NoBuffers    // bget, called by write_log: "bget: no buffers"

  datatype State = State(
    lay: Layout,
    phase: Phase,
    procs: seq<Pc>,
    lh: seq<nat>,
    outstanding: nat,
    committing: bool,
    pinned: Disk,
    disk: Disk,
    nextOp: nat,
    base: Disk,        // home blocks at the very beginning
    hist: seq<Rec>,    // updates that were logged and not lost in a crash
    cut: nat,          // hist[..cut] is committed
    origin: Disk)      // the disk when the current commit or recovery started
  {
    function View(b: nat): Block {
      if b in pinned then pinned[b] else At(disk, b)
    }

    predicate MustWait() {
      committing || |lh| + (outstanding + 1) * MAXOPBLOCKS > LOGSIZE
    }

    predicate LogFull() {
      |lh| >= LOGSIZE || |lh| >= lay.size - 1
    }
  }

  /** wakeup(&log). */
  function WakeAll(procs: seq<Pc>): (r: seq<Pc>)
    ensures |r| == |procs|
    ensures forall i :: 0 <= i < |procs| ==> r[i] == if procs[i].Asleep? then Wanting else procs[i]
  {
    seq(|procs|, i requires 0 <= i < |procs| => if procs[i].Asleep? then Wanting else procs[i])
  }

  /** d with the first n updates of rs made in order. */
  function Replay(d: Disk, rs: seq<Rec>, n: nat): Disk
    requires n <= |rs|
  {
    if n == 0 then d else Replay(d, rs, n - 1)[rs[n - 1].block := rs[n - 1].data]
  }

  datatype Event =
    | CallBegin(p: nat)
    | TryBegin(p: nat)
    | Kill(p: nat)
    | LogWrite(p: nat, b: nat, data: Block)
    | EndOp(p: nat)
    | CommitWrite(p: nat)
    | CommitDone(p: nat)
    | Crash
    | RecoverWrite
    | RecoverDone

  predicate HasPc(s: State, p: nat) {
    s.phase.Running? && p < |s.procs|
  }

  ghost predicate Enabled(s: State, e: Event) {
    match e
    case CallBegin(p) => HasPc(s, p) && s.procs[p].Idle?
    case TryBegin(p) => HasPc(s, p) && s.procs[p].Wanting?
    case Kill(p) => HasPc(s, p) && s.procs[p].Asleep?
    // each operation adds at most MAXOPBLOCKS blocks to the log
    case LogWrite(p, b, data) =>
      && HasPc(s, p) && s.procs[p].InOp? && (s.procs[p].used < MAXOPBLOCKS || b in s.lh)
      && b < WORD_LIMIT && !s.lay.InLog(b)
    case EndOp(p) => HasPc(s, p) && s.procs[p].InOp? && s.outstanding > 0
    case CommitWrite(p) =>
      HasPc(s, p) && s.procs[p].Committing? && HeaderOk(s.lay, s.lh) && s.procs[p].k < |Plan(s)|
    case CommitDone(p) =>
      HasPc(s, p) && s.procs[p].Committing? && HeaderOk(s.lay, s.lh) && s.procs[p].k == |Plan(s)|
    case Crash => s.cut <= |s.hist|
    case RecoverWrite =>
      s.phase.Recovering? && DiskOk(s.lay, s.origin) && s.phase.j < |RecoverWrites(s.lay, s.origin)|
    case RecoverDone =>
      s.phase.Recovering? && DiskOk(s.lay, s.origin) && s.phase.j == |RecoverWrites(s.lay, s.origin)|
  }

  /** The writes of the commit in progress, which Log.Commit issues in this order. */
  function Plan(s: State): seq<Write>
    requires HeaderOk(s.lay, s.lh)
  {
    CommitWrites(s.lay, s.origin, s.lh, s.pinned)
  }

  ghost function Do(s: State, e: Event): State
    requires Enabled(s, e)
  {
    match e
    case CallBegin(p) => s.(procs := s.procs[p := Wanting])
    case TryBegin(p) =>
      if s.MustWait() then s.(procs := s.procs[p := Asleep])
      else s.(procs := s.procs[p := InOp(s.nextOp, 0)], outstanding := s.outstanding + 1, nextOp := s.nextOp + 1)
    case Kill(p) => s.(procs := s.procs[p := Wanting])
    case LogWrite(p, b, data) => DoLogWrite(s, p, b, data)
    case EndOp(p) => DoEndOp(s, p)
    case CommitWrite(p) => DoCommitWrite(s, p)
    // lh.n = 0 and the bunpin calls happen during the last writes; nothing reads
    // either while committing is set
    case CommitDone(p) =>
      s.(procs := WakeAll(s.procs[p := Idle]), committing := false, lh := [], pinned := map[])
    case Crash =>
      s.(phase := Recovering(0), procs := seq(|s.procs|, _ => Idle), lh := [], outstanding := 0,
         committing := false, pinned := map[], hist := s.hist[..s.cut],
         origin := s.disk)
    case RecoverWrite =>
      var w := RecoverWrites(s.lay, s.origin)[s.phase.j];
      s.(phase := Recovering(s.phase.j + 1), disk := s.disk[w.block := w.data])
    case RecoverDone => s.(phase := Running)
  }

  function DoLogWrite(s: State, p: nat, b: nat, data: Block): State
    requires p < |s.procs| && s.procs[p].InOp?
  {
    if s.LogFull() then s.(phase := Panicked(TooBig))
    else if s.outstanding < 1 then s.(phase := Panicked(OutsideOp))
    else Listed(s, p, b, data)
  }

  function Listed(s: State, p: nat, b: nat, data: Block): State
    requires p < |s.procs| && s.procs[p].InOp?
  {
    s.(lh := Absorb(s.lh, b),
       pinned := s.pinned[b := data],
       procs := if b in s.lh then s.procs else s.procs[p := InOp(s.procs[p].op, s.procs[p].used + 1)],
       hist := s.hist + [Rec(s.procs[p].op, b, data)])
  }

  function DoEndOp(s: State, p: nat): State
    requires p < |s.procs| && s.outstanding > 0
  {
    if s.committing then s.(phase := Panicked(NestedCommit))
    else if s.outstanding == 1 then
      s.(outstanding := 0, committing := true, procs := s.procs[p := Committing(0)], origin := s.disk)
    else
      s.(outstanding := s.outstanding - 1, procs := WakeAll(s.procs[p := Idle]))
  }

  /** write_log needs a buffer for the log block beside the buffers log_write pinned.
      This is the best case: no other buffer is in use. */
  function DoCommitWrite(s: State, p: nat): State
    requires p < |s.procs| && s.procs[p].Committing? && HeaderOk(s.lay, s.lh) && s.procs[p].k < |Plan(s)|
  {
    if |s.lh| >= BufferCache.NBUF then s.(phase := Panicked(NoBuffers)) else WriteNext(s, p)
  }

  function WriteNext(s: State, p: nat): State
    requires p < |s.procs| && s.procs[p].Committing? && HeaderOk(s.lay, s.lh) && s.procs[p].k < |Plan(s)|
  {
    var k := s.procs[p].k;
    var w := Plan(s)[k];
    s.(disk := s.disk[w.block := w.data],
       procs := s.procs[p := Committing(k + 1)],
       cut := if k == |s.lh| then |s.hist| else s.cut)
  }

  // ----- invariants -----

  /** What a recovery started now would deliver: the committed updates, all of them
      and no others. */
  ghost predicate Durable(s: State) {
    && s.cut <= |s.hist| && DiskOk(s.lay, s.disk)
    && HomeEq(s.lay, Recovered(s.lay, s.disk), Replay(s.base, s.hist, s.cut))
  }

  /** Every operation is committed as a whole or not at all. */
  ghost predicate WholeOps(s: State) {
    && s.cut <= |s.hist|
    && forall i, j :: 0 <= i < s.cut <= j < |s.hist| ==> s.hist[i].op != s.hist[j].op
  }

  /** Committed operations are over, and running ones are distinct. */
  ghost predicate OpsInv(s: State) {
    && WholeOps(s)
    && (forall i :: 0 <= i < |s.hist| ==> s.hist[i].op < s.nextOp)
    && (forall p :: 0 <= p < |s.procs| && s.procs[p].InOp? ==> s.procs[p].op < s.nextOp)
    && forall i, p :: 0 <= i < s.cut && 0 <= p < |s.procs| && s.procs[p].InOp? ==> s.hist[i].op != s.procs[p].op
  }

  function One(b: bool): nat {
    if b then 1 else 0
  }

  /** How many of the first n processes are inside an operation. */
  function Ops(procs: seq<Pc>, n: nat): nat
    requires n <= |procs|
  {
    if n == 0 then 0 else Ops(procs, n - 1) + One(procs[n - 1].InOp?)
  }

  function Committers(procs: seq<Pc>, n: nat): nat
    requires n <= |procs|
  {
    if n == 0 then 0 else Committers(procs, n - 1) + One(procs[n - 1].Committing?)
  }

  /** Log space that the first n processes may still claim. */
  function Reserved(procs: seq<Pc>, n: nat): int
    requires n <= |procs|
  {
    if n == 0 then 0 else Reserved(procs, n - 1) + Claim(procs[n - 1])
  }

  function Claim(pc: Pc): int {
    if pc.InOp? then MAXOPBLOCKS - pc.used else 0
  }

  ghost predicate SpaceInv(s: State) {
    && s.outstanding == Ops(s.procs, |s.procs|)
    && (forall p :: 0 <= p < |s.procs| && s.procs[p].InOp? ==> s.procs[p].used <= MAXOPBLOCKS)
    && |s.lh| + Reserved(s.procs, |s.procs|) <= LOGSIZE
    && (s.outstanding == 0 && !s.committing ==> s.lh == [])
    && (s.committing ==> s.outstanding == 0)
    && Committers(s.procs, |s.procs|) == One(s.committing)
  }

  /** No lost wakeup: a process asleep in begin_op has to wait. */
  ghost predicate SleepInv(s: State) {
    forall p :: 0 <= p < |s.procs| && s.procs[p].Asleep? ==> s.MustWait()
  }

  /** The in-memory side: bread returns the last logged content of every home block. */
  ghost predicate MemInv(s: State) {
    && HeaderOk(s.lay, s.lh)
    && (forall b :: b in s.pinned <==> b in s.lh)
    && (forall i :: s.cut <= i < |s.hist| ==> s.hist[i].block in s.lh)
    && (s.lh == [] ==> s.cut == |s.hist|)
    && forall b: nat :: !s.lay.InLog(b) ==> s.View(b) == At(Replay(s.base, s.hist, |s.hist|), b)
  }

  ghost predicate CommitInv(s: State)
    requires MemInv(s)
  {
    forall p :: 0 <= p < |s.procs| && s.procs[p].Committing? ==>
      && s.procs[p].k <= |Plan(s)|
      && s.disk == After(s.origin, Plan(s), s.procs[p].k)
      && (if s.procs[p].k > |s.lh| then s.cut == |s.hist|
          else s.cut <= |s.hist| && HomeEq(s.lay, s.origin, Replay(s.base, s.hist, s.cut)))
  }

  ghost predicate DiskInv(s: State) {
    && s.cut <= |s.hist|
    && if s.committing then
         && DiskOk(s.lay, s.origin) && Head(s.lay, s.origin) == []
         && HomeEq(s.lay, Overlay(s.origin, s.lh, s.pinned), Replay(s.base, s.hist, |s.hist|))
       else
         && DiskOk(s.lay, s.disk) && Head(s.lay, s.disk) == []
         && HomeEq(s.lay, s.disk, Replay(s.base, s.hist, s.cut))
  }

  ghost predicate RunningInv(s: State) {
    SpaceInv(s) && SleepInv(s) && MemInv(s) && CommitInv(s) && DiskInv(s)
  }

  ghost predicate RecoveringInv(s: State)
    requires s.phase.Recovering?
  {
    && DiskOk(s.lay, s.origin)
    && s.phase.j <= |RecoverWrites(s.lay, s.origin)|
    && s.disk == After(s.origin, RecoverWrites(s.lay, s.origin), s.phase.j)
    && s.lh == [] && s.pinned == map[] && s.outstanding == 0 && !s.committing
    && s.cut == |s.hist|
    && forall p :: 0 <= p < |s.procs| ==> s.procs[p].Idle?
  }

  ghost predicate Inv(s: State) {
    && Durable(s)
    && OpsInv(s)
    && (s.phase.Running? ==> RunningInv(s))
    && (s.phase.Recovering? ==> RecoveringInv(s))
  }

  ghost predicate Init(s: State) {
    && s.phase == Recovering(0)
    && DiskOk(s.lay, s.disk) && s.origin == s.disk && s.base == Recovered(s.lay, s.disk)
    && s.lh == [] && s.pinned == map[] && s.outstanding == 0 && !s.committing
    && s.hist == [] && s.cut == 0
    && forall p :: 0 <= p < |s.procs| ==> s.procs[p].Idle?
  }

  // ----- counting processes -----

  lemma {:induction false} CountUpdate(procs: seq<Pc>, p: nat, pc: Pc, n: nat)
    requires p < |procs| && n <= |procs|
    ensures p >= n ==> Ops(procs[p := pc], n) == Ops(procs, n) && Reserved(procs[p := pc], n) == Reserved(procs, n)
                       && Committers(procs[p := pc], n) == Committers(procs, n)
    ensures p < n ==> Ops(procs[p := pc], n) == Ops(procs, n) - One(procs[p].InOp?) + One(pc.InOp?)
    ensures p < n ==> Reserved(procs[p := pc], n) == Reserved(procs, n) - Claim(procs[p]) + Claim(pc)
    ensures p < n ==>
              Committers(procs[p := pc], n) == Committers(procs, n) - One(procs[p].Committing?) + One(pc.Committing?)
  {
    if n > 0 { CountUpdate(procs, p, pc, n - 1); }
  }

  lemma {:induction false} CountWake(procs: seq<Pc>, n: nat)
    requires n <= |procs|
    ensures Ops(WakeAll(procs), n) == Ops(procs, n) && Reserved(WakeAll(procs), n) == Reserved(procs, n)
    ensures Committers(WakeAll(procs), n) == Committers(procs, n)
  {
    if n > 0 { CountWake(procs, n - 1); }
  }

  lemma {:induction false} CountNone(procs: seq<Pc>, n: nat)
    requires n <= |procs|
    ensures Ops(procs, n) == 0 <==> forall p :: 0 <= p < n ==> !procs[p].InOp?
    ensures Ops(procs, n) == 0 ==> Reserved(procs, n) == 0
    ensures Committers(procs, n) == 0 <==> forall p :: 0 <= p < n ==> !procs[p].Committing?
  {
    if n > 0 { CountNone(procs, n - 1); }
  }

  lemma OneCommitter(procs: seq<Pc>, p: nat, q: nat)
    requires p < |procs| && q < |procs| && procs[p].Committing? && procs[q].Committing?
    requires Committers(procs, |procs|) <= 1
    ensures p == q
  {
    assert q != p ==> procs[p := Idle][q].Committing?;
    CountUpdate(procs, p, Idle, |procs|);
    CountNone(procs[p := Idle], |procs|);
  }

  lemma {:induction false} ClaimsAtLeast(procs: seq<Pc>, p: nat, n: nat)
    requires p < n <= |procs|
    requires forall q :: 0 <= q < |procs| && procs[q].InOp? ==> procs[q].used <= MAXOPBLOCKS
    ensures Reserved(procs, n) >= Claim(procs[p])
    ensures procs[p].InOp? ==> Ops(procs, n) > 0
    ensures Reserved(procs, n) <= MAXOPBLOCKS * Ops(procs, n)
  {
    if n > 1 { ClaimsAtLeast(procs, if p < n - 1 then p else 0, n - 1); }
  }

  // ----- the history -----

  ghost predicate SamePrefix(rs: seq<Rec>, us: seq<Rec>, n: nat) {
    n <= |rs| && n <= |us| && forall i :: 0 <= i < n ==> rs[i] == us[i]
  }

  lemma {:induction false} ReplaySame(d: Disk, rs: seq<Rec>, us: seq<Rec>, n: nat)
    requires SamePrefix(rs, us, n)
    ensures Replay(d, rs, n) == Replay(d, us, n)
  {
    if n > 0 { ReplaySame(d, rs, us, n - 1); }
  }

  lemma ReplaySnoc(d: Disk, rs: seq<Rec>, r: Rec)
    ensures Replay(d, rs + [r], |rs| + 1) == Replay(d, rs, |rs|)[r.block := r.data]
  {
    ReplaySame(d, rs, rs + [r], |rs|);
  }
}
