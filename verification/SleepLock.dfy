/** Sleep locks over sleep, wakeup and kill: any number of processes on one lock, any
    interleaving.

    A step is what runs between two lock operations. The section of wakeup or kill
    under another process's p->lock touches that process alone and is one step; it
    has to wait while the process itself holds p->lock on its way to sleep. */
module SleepLock {
  import opened Common

  datatype Pc =
    | Out
    | Entering          // at acquire(&lk->lk), from acquiresleep or back from sleep
    | Testing           // at the while test, holding lk->lk
    | Dozing            // in sleep, holding lk->lk and p->lock
    | Falling           // past release(lk), still holding p->lock
    | Down              // switched out: SLEEPING, or RUNNABLE again
    | Taken             // locked is set, lk->lk still held
    | Holding           // in the caller's critical section
    | Leaving           // in releasesleep, at acquire(&lk->lk)
    | Clearing          // about to clear locked
    | Waking(j: nat)    // in wakeup, process j comes next
    | Woken             // wakeup is over, lk->lk still held

  datatype Proc = Proc(pc: Pc, asleep: bool)   // asleep: SLEEPING with chan == lk

  datatype State = State(procs: seq<Proc>, inner: Option<nat>, locked: bool, pid: Option<nat>)

  datatype Event =
    | Call(p: nat)      // enter acquiresleep or releasesleep
    | Acquire(p: nat)   // acquire(&lk->lk)
    | Test(p: nat)      // while (lk->locked)
    | Release(p: nat)   // release(&lk->lk)
    | Fall(p: nat)      // become SLEEPING and switch
    | Resume(p: nat)    // scheduled again; p->lock is dropped
    | Clear(p: nat)     // locked = 0, pid = 0
    | WakeNext(p: nat)  // one round of the loop in wakeup
    | Kill(q: nat)

  /** p->lock is held across steps only on the way into sleep. */
  predicate HoldsOwnLock(pc: Pc) {
    pc.Dozing? || pc.Falling?
  }

  predicate HoldsInner(pc: Pc) {
    pc.Testing? || pc.Dozing? || pc.Taken? || pc.Clearing? || pc.Waking? || pc.Woken?
  }

  /** Between setting locked and clearing it. */
  predicate Owns(pc: Pc) {
    pc.Taken? || pc.Holding? || pc.Leaving? || pc.Clearing?
  }

  predicate Enabled(s: State, e: Event) {
    match e
    case Call(p) => p < |s.procs| && (s.procs[p].pc.Out? || s.procs[p].pc.Holding?)
    case Acquire(p) => p < |s.procs| && (s.procs[p].pc.Entering? || s.procs[p].pc.Leaving?) && s.inner.None?
    case Test(p) => p < |s.procs| && s.procs[p].pc.Testing?
    case Release(p) => p < |s.procs| && (s.procs[p].pc.Dozing? || s.procs[p].pc.Taken? || s.procs[p].pc.Woken?)
    case Fall(p) => p < |s.procs| && s.procs[p].pc.Falling?
    case Resume(p) => p < |s.procs| && s.procs[p].pc.Down? && !s.procs[p].asleep
    case Clear(p) => p < |s.procs| && s.procs[p].pc.Clearing?
    case WakeNext(p) =>
      && p < |s.procs| && s.procs[p].pc.Waking?
      && (s.procs[p].pc.j < |s.procs| && s.procs[p].pc.j != p ==> !HoldsOwnLock(s.procs[s.procs[p].pc.j].pc))
    case Kill(q) => q < |s.procs| && !HoldsOwnLock(s.procs[q].pc)
  }

  function Move(s: State, p: nat, pc: Pc): State
    requires p < |s.procs|
  {
    s.(procs := s.procs[p := s.procs[p].(pc := pc)])
  }

  /** wakeup's and kill's effect on a SLEEPING process. */
  function Rouse(s: State, q: nat): State
    requires q < |s.procs|
  {
    s.(procs := s.procs[q := s.procs[q].(asleep := false)])
  }

  function Do(s: State, e: Event): State
    requires Enabled(s, e)
  {
    match e
    case Call(p) => Move(s, p, if s.procs[p].pc.Out? then Entering else Leaving)
    case Acquire(p) => Move(s, p, if s.procs[p].pc.Entering? then Testing else Clearing).(inner := Some(p))
    case Test(p) =>
      if s.locked then Move(s, p, Dozing) else Move(s, p, Taken).(locked := true, pid := Some(p))
    case Release(p) =>
      var pc := if s.procs[p].pc.Dozing? then Falling else if s.procs[p].pc.Taken? then Holding else Out;
      Move(s, p, pc).(inner := None)
    case Fall(p) => s.(procs := s.procs[p := Proc(Down, true)])
    case Resume(p) => Move(s, p, Entering)
    case Clear(p) => Move(s, p, Waking(0)).(locked := false, pid := None)
    case WakeNext(p) =>
      var j := s.procs[p].pc.j;
      if j >= |s.procs| then Move(s, p, Woken)
      else Move(if j == p then s else Rouse(s, j), p, Waking(j + 1))
    case Kill(q) => Rouse(s, q)
  }

  // ----- the invariant -----

  /** q has decided to sleep: it cannot notice a cleared lock without a wakeup. */
  predicate Sleepy(s: State, q: nat)
    requires q < |s.procs|
  {
    s.procs[q].pc.Falling? || s.procs[q].asleep
  }

  /** The process holding lk->lk is in wakeup and has yet to reach q. */
  predicate WakeupDue(s: State, q: nat) {
    && s.inner.Some? && s.inner.value < |s.procs|
    && s.procs[s.inner.value].pc.Waking? && s.procs[s.inner.value].pc.j <= q
  }

  predicate ProcInv(s: State, q: nat)
    requires q < |s.procs|
  {
    && (HoldsInner(s.procs[q].pc) <==> s.inner == Some(q))
    && (Owns(s.procs[q].pc) <==> s.pid == Some(q))
    && (s.procs[q].asleep ==> s.procs[q].pc.Down?)
    && (s.procs[q].pc.Dozing? ==> s.locked)
    && (Sleepy(s, q) && !s.locked ==> WakeupDue(s, q))
  }

  predicate Inv(s: State) {
    && (s.locked <==> s.pid.Some?)
    && (s.pid.Some? ==> s.pid.value < |s.procs|)
    && forall q :: 0 <= q < |s.procs| ==> ProcInv(s, q)
  }

  predicate Init(s: State) {
    && s.inner.None? && !s.locked && s.pid.None?
    && forall q :: 0 <= q < |s.procs| ==> s.procs[q] == Proc(Out, false)
  }

  lemma RouseKeepsProc(s: State, e: Event, q: nat)
    requires Inv(s) && Enabled(s, e) && q < |s.procs| && (e.Kill? || e.WakeNext?)
    ensures ProcInv(Do(s, e), q)
  {
    assert ProcInv(s, q);
    if e.WakeNext? { assert ProcInv(s, e.p); }
  }

  lemma OwnStepKeepsProc(s: State, e: Event, q: nat)
    requires Inv(s) && Enabled(s, e) && q < |s.procs| && !e.Kill? && !e.WakeNext?
    ensures ProcInv(Do(s, e), q)
  {
    assert ProcInv(s, q) && ProcInv(s, e.p);
  }

  lemma StepKeepsInv(s: State, e: Event)
    requires Inv(s) && Enabled(s, e)
    ensures Inv(Do(s, e))
  {
    var t := Do(s, e);
    assert !e.Kill? ==> ProcInv(s, e.p);
    hide ProcInv;
    forall q | 0 <= q < |t.procs| ensures ProcInv(t, q) {
      if e.Kill? || e.WakeNext? { RouseKeepsProc(s, e, q); } else { OwnStepKeepsProc(s, e, q); }
    }
  }

  // ----- whole runs -----

  predicate Runs(s: State, es: Schedule<Event>, t: State)
    decreases es
  {
    match es
    case Stop => s == t
    case Then(e, rest) => Enabled(s, e) && Runs(Do(s, e), rest, t)
  }

  lemma {:induction false} RunKeepsInv(s: State, es: Schedule<Event>, t: State)
    requires Inv(s) && Runs(s, es, t)
    ensures Inv(t)
    decreases es
  {
    hide Inv, Enabled, Do;
    if es.Then? {
      StepKeepsInv(s, es.event);
      RunKeepsInv(Do(s, es.event), es.rest, t);
    }
  }

  /** Mutual exclusion in every run: processes between acquiresleep and releasesleep
      are one and the same, and it is the one holdingsleep answers for. */
  lemma MutualExclusion(s: State, es: Schedule<Event>, t: State, p: nat, q: nat)
    requires Init(s) && Runs(s, es, t) && p < |t.procs| && q < |t.procs|
    ensures t.procs[p].pc.Holding? && t.procs[q].pc.Holding? ==> p == q
    ensures t.procs[p].pc.Holding? ==> t.locked && t.pid == Some(p)
    ensures t.locked && t.pid == Some(p) ==> Owns(t.procs[p].pc)
  {
    hide Runs;
    RunKeepsInv(s, es, t);
    assert ProcInv(t, p) && ProcInv(t, q);
  }

  /** No lost wakeup in any run, kills included: when lk->lk is free and the lock is
      free, nobody sleeps on it and nobody is past the release inside sleep. */
  lemma NoLostWakeup(s: State, es: Schedule<Event>, t: State, q: nat)
    requires Init(s) && Runs(s, es, t) && q < |t.procs|
    requires t.inner.None? && !t.locked
    ensures !t.procs[q].asleep && !t.procs[q].pc.Falling? && !t.procs[q].pc.Dozing?
  {
    hide Runs;
    RunKeepsInv(s, es, t);
    assert ProcInv(t, q);
  }

  /** Every step of es is one of process p. */
  predicate OnlyBy(es: Schedule<Event>, p: nat) {
    es.Then? ==> !es.event.Kill? && es.event.p == p && OnlyBy(es.rest, p)
  }

  /** So a free lock can be taken: whoever is inside acquiresleep gets it by its own steps alone. */
  lemma FreeLockCanBeTaken(s: State, es: Schedule<Event>, t: State, p: nat) returns (fs: Schedule<Event>, u: State)
    requires Init(s) && Runs(s, es, t) && p < |t.procs|
    requires t.inner.None? && !t.locked && (t.procs[p].pc.Entering? || t.procs[p].pc.Down?)
    ensures Runs(t, fs, u) && OnlyBy(fs, p)
    ensures p < |u.procs| && u.procs[p].pc.Holding? && u.pid == Some(p)
  {
    NoLostWakeup(s, es, t, p);
    var t1 := if t.procs[p].pc.Down? then Do(t, Resume(p)) else t;
    var t2 := Do(t1, Acquire(p));
    var t3 := Do(t2, Test(p));
    u := Do(t3, Release(p));
    var rest := Then(Acquire(p), Then(Test(p), Then(Release(p), Stop)));
    assert Runs(t3, Then(Release(p), Stop), u);
    assert Runs(t2, Then(Test(p), Then(Release(p), Stop)), u);
    assert Runs(t1, rest, u);
    OnlyByNext(Release(p), Stop, p);
    OnlyByNext(Test(p), Then(Release(p), Stop), p);
    OnlyByNext(Acquire(p), Then(Test(p), Then(Release(p), Stop)), p);
    OnlyByNext(Resume(p), rest, p);
    fs := if t.procs[p].pc.Down? then Then(Resume(p), rest) else rest;
  }

  lemma OnlyByNext(e: Event, es: Schedule<Event>, p: nat)
    requires !e.Kill? && e.p == p && OnlyBy(es, p)
    ensures OnlyBy(Then(e, es), p)
  {}

  /** One step of p in front of a run of p's steps. */
  lemma StepFirst(s: State, e: Event, es: Schedule<Event>, t: State, p: nat)
    requires Enabled(s, e) && !e.Kill? && e.p == p && Runs(Do(s, e), es, t) && OnlyBy(es, p)
    ensures Runs(s, Then(e, es), t) && OnlyBy(Then(e, es), p)
  {}

  /** In t every process but p is where it was in s. */
  predicate OthersStay(s: State, t: State, p: nat) {
    && |t.procs| == |s.procs|
    && forall q :: 0 <= q < |s.procs| && q != p ==> t.procs[q].pc == s.procs[q].pc
  }

  /** p is in wakeup, has come to process j, and nobody is on the way into sleep. */
  predicate Rousing(s: State, p: nat, j: nat) {
    && p < |s.procs| && s.procs[p] == Proc(Waking(j), false) && j <= |s.procs|
    && s.inner == Some(p) && !s.locked && s.pid.None?
    && (forall q :: 0 <= q < |s.procs| ==> !HoldsOwnLock(s.procs[q].pc))
    && forall q :: 0 <= q < j ==> !s.procs[q].asleep
  }

  lemma {:induction false} WakeupRuns(s: State, p: nat, j: nat) returns (es: Schedule<Event>, t: State)
    requires Rousing(s, p, j)
    ensures Runs(s, es, t) && OnlyBy(es, p) && OthersStay(s, t, p)
    ensures Rousing(t, p, |t.procs|)
    decreases |s.procs| - j
  {
    if j == |s.procs| {
      es, t := Stop, s;
    } else {
      var fs;
      fs, t := WakeupRuns(Do(s, WakeNext(p)), p, j + 1);
      es := Then(WakeNext(p), fs);
      StepFirst(s, WakeNext(p), fs, t, p);
    }
  }

  /** releasesleep does what it is for: unless somebody is on the way into sleep, the holder
      gets out by its own steps alone, the lock is free then and nobody sleeps on it. */
  lemma ReleaseFrees(s: State, es: Schedule<Event>, t: State, p: nat) returns (fs: Schedule<Event>, u: State)
    requires Init(s) && Runs(s, es, t) && p < |t.procs| && t.procs[p].pc.Holding? && t.inner.None?
    requires forall q :: 0 <= q < |t.procs| ==> !t.procs[q].pc.Falling?
    ensures Runs(t, fs, u) && OnlyBy(fs, p) && OthersStay(t, u, p)
    ensures u.procs[p].pc.Out? && u.inner.None? && !u.locked && u.pid.None?
    ensures forall q :: 0 <= q < |u.procs| ==> !u.procs[q].asleep
  {
    var es1, t1 := ReleaseStarts(s, es, t, p);
    hide Enabled, Do, Runs;
    var es2, t2 := WakeupRuns(t1, p, 0);
    var es3, t3 := ReleaseEnds(t2, p);
    RunsAppend(t1, es2, t2, es3, t3, p);
    RunsAppend(t, es1, t1, Concat(es2, es3), t3, p);
    fs, u := Concat(es1, Concat(es2, es3)), t3;
  }

  lemma ReleaseStarts(s: State, es: Schedule<Event>, t: State, p: nat) returns (fs: Schedule<Event>, u: State)
    requires Init(s) && Runs(s, es, t) && p < |t.procs| && t.procs[p].pc.Holding? && t.inner.None?
    requires forall q :: 0 <= q < |t.procs| ==> !t.procs[q].pc.Falling?
    ensures Runs(t, fs, u) && OnlyBy(fs, p) && OthersStay(t, u, p) && Rousing(u, p, 0)
  {
    RunKeepsInv(s, es, t);
    forall q | 0 <= q < |t.procs| ensures !HoldsOwnLock(t.procs[q].pc) { assert ProcInv(t, q); }
    assert ProcInv(t, p);
    hide Runs;
    var t1 := Do(t, Call(p));
    var t2 := Do(t1, Acquire(p));
    u := Do(t2, Clear(p));
    fs := ThreeSteps(t, Call(p), Acquire(p), Clear(p), p);
  }

  lemma ThreeSteps(s: State, a: Event, b: Event, c: Event, p: nat) returns (fs: Schedule<Event>)
    requires !a.Kill? && !b.Kill? && !c.Kill? && a.p == b.p == c.p == p
    requires Enabled(s, a) && Enabled(Do(s, a), b) && Enabled(Do(Do(s, a), b), c)
    ensures Runs(s, fs, Do(Do(Do(s, a), b), c)) && OnlyBy(fs, p)
  {
    hide Enabled, Do;
    var u := Do(Do(Do(s, a), b), c);
    StepFirst(Do(Do(s, a), b), c, Stop, u, p);
    StepFirst(Do(s, a), b, Then(c, Stop), u, p);
    StepFirst(s, a, Then(b, Then(c, Stop)), u, p);
    fs := Then(a, Then(b, Then(c, Stop)));
  }

  lemma ReleaseEnds(s: State, p: nat) returns (fs: Schedule<Event>, u: State)
    requires Rousing(s, p, |s.procs|)
    ensures Runs(s, fs, u) && OnlyBy(fs, p) && OthersStay(s, u, p)
    ensures u.procs[p].pc.Out? && u.inner.None? && !u.locked && u.pid.None?
    ensures forall q :: 0 <= q < |u.procs| ==> !u.procs[q].asleep
  {
    var m := Do(s, WakeNext(p));
    u := Do(m, Release(p));
    fs := Then(WakeNext(p), Then(Release(p), Stop));
    StepFirst(m, Release(p), Stop, u, p);
    StepFirst(s, WakeNext(p), Then(Release(p), Stop), u, p);
  }

  lemma {:induction false} RunsAppend(s: State, es: Schedule<Event>, m: State, fs: Schedule<Event>, t: State, p: nat)
    requires Runs(s, es, m) && OnlyBy(es, p) && Runs(m, fs, t) && OnlyBy(fs, p)
    ensures Runs(s, Concat(es, fs), t) && OnlyBy(Concat(es, fs), p)
    decreases es
  {
    hide Enabled, Do;
    if es.Then? { RunsAppend(Do(s, es.event), es.rest, m, fs, t, p); }
  }

  /** acquiresleep of a lock that is held does not spin: by its own steps alone the process
      is asleep, with the inner lock free. */
  lemma HeldLockSleeps(s: State, es: Schedule<Event>, t: State, p: nat) returns (fs: Schedule<Event>, u: State)
    requires Init(s) && Runs(s, es, t) && p < |t.procs| && t.procs[p].pc.Out? && t.inner.None? && t.locked
    ensures Runs(t, fs, u) && OnlyBy(fs, p) && OthersStay(t, u, p)
    ensures u == t.(procs := t.procs[p := Proc(Down, true)])
  {
    var t1 := Do(t, Call(p));
    var t2 := Do(t1, Acquire(p));
    var t3 := Do(t2, Test(p));
    var t4 := Do(t3, Release(p));
    u := Do(t4, Fall(p));
    fs := Then(Fall(p), Stop);
    StepFirst(t4, Fall(p), Stop, u, p);
    StepFirst(t3, Release(p), fs, u, p);
    StepFirst(t2, Test(p), Then(Release(p), fs), u, p);
    StepFirst(t1, Acquire(p), Then(Test(p), Then(Release(p), fs)), u, p);
    StepFirst(t, Call(p), Then(Acquire(p), Then(Test(p), Then(Release(p), fs))), u, p);
    fs := Then(Call(p), Then(Acquire(p), Then(Test(p), Then(Release(p), fs))));
  }

  /** A sleeper that is killed runs on, to test the lock again; nothing else changes. */
  lemma KilledRunsOn(s: State, es: Schedule<Event>, t: State, q: nat) returns (u: State)
    requires Init(s) && Runs(s, es, t) && q < |t.procs| && t.procs[q].asleep
    ensures Runs(t, Then(Kill(q), Then(Resume(q), Stop)), u)
    ensures u == t.(procs := t.procs[q := Proc(Entering, false)])
  {
    RunKeepsInv(s, es, t);
    assert ProcInv(t, q);
    var m := Do(t, Kill(q));
    u := Do(m, Resume(q));
    assert Runs(m, Then(Resume(q), Stop), u);
  }
}
