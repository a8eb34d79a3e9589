/** What calls of fork, exit, wait and kill bring about. The status that wait returns is read
    off the schedule, and each call is shown to do its work by its own steps alone. */
module ExitWaitRuns {
  import opened Common
  import opened ExitWait
  import opened ExitWaitSafety

  // ----- the status that wait returns -----

  /** One call of exit: the pid that made it, and its argument. */
  datatype Call = Call(pid: nat, status: int)

  /** The calls of exit in the schedule es from s on, behind those in `calls`. */
  function ExitCalls(s: State, es: Schedule<Event>, calls: seq<Call>): seq<Call>
    decreases es
  {
    match es
    case Stop => calls
    case Then(e, rest) =>
      if !Enabled(s, e) then calls
      else ExitCalls(Do(s, e), rest, NextCalls(s, e, calls))
  }

  function NextCalls(s: State, e: Event, calls: seq<Call>): seq<Call>
    requires Enabled(s, e)
  {
    if e.CallExit? then calls + [Call(s.books.pid[e.p], e.x)] else calls
  }

  predicate HasCalled(calls: seq<Call>, pid: nat) {
    exists i :: 0 <= i < |calls| && calls[i].pid == pid
  }

  /** The process in slot q has called exit exactly if it is inside exit or a zombie. */
  predicate SlotCalls(a: Proc, pid: nat, calls: seq<Call>) {
    && (InExit(a.pc) ==> Call(pid, a.pc.x) in calls)
    && (!a.st.Unused? && HasCalled(calls, pid) ==> InExit(a.pc) || a.st.Zombie?)
  }

  predicate CallsInv(s: State, calls: seq<Call>) {
    && s.Sized()
    && (forall i, j :: 0 <= i < j < |calls| ==> calls[i].pid != calls[j].pid)
    && (forall i :: 0 <= i < |calls| ==> calls[i].pid in s.books.home)
    && (forall k :: k in s.books.exits ==> Call(k, s.books.exits[k]) in calls)
    && forall q :: 0 <= q < |s.tab.procs| ==> SlotCalls(s.tab.procs[q], s.books.pid[q], calls)
  }

  /** Where a process is in exit, and with which status. */
  predicate SameExit(a: Proc, b: Proc) {
    && (InExit(a.pc) <==> InExit(b.pc)) && (InExit(a.pc) ==> a.pc.x == b.pc.x)
    && (a.st.Unused? <==> b.st.Unused?) && (a.st.Zombie? <==> b.st.Zombie?)
  }

  predicate SameExits(t: Table, u: Table) {
    && |u.procs| == |t.procs|
    && forall q :: 0 <= q < |t.procs| ==> SameExit(t.procs[q], u.procs[q])
  }

  lemma QuietCalls(s: State, u: State, calls: seq<Call>)
    requires CallsInv(s, calls) && u.Sized() && SameExits(s.tab, u.tab)
    requires u.books.pid == s.books.pid && u.books.exits == s.books.exits && u.books.home == s.books.home
    ensures CallsInv(u, calls)
  {
    forall q | 0 <= q < |u.tab.procs| ensures SlotCalls(u.tab.procs[q], u.books.pid[q], calls) {
      assert SlotCalls(s.tab.procs[q], s.books.pid[q], calls) && SameExit(s.tab.procs[q], u.tab.procs[q]);
    }
  }

  lemma SetExit(t: Table, p: nat, a: Proc)
    requires p < |t.procs| && SameExit(t.procs[p], a)
    ensures SameExits(t, Set(t, p, a)) && forall w :: SameExits(t, Set(t, p, a).(waitLock := w))
  {}

  lemma SetTwoExits(t: Table, k: nat, a: Proc, p: nat, pc: Pc)
    requires p < |t.procs| && k < |t.procs| && k != p && SameExit(t.procs[k], a)
    requires SameExit(t.procs[p], t.procs[p].(pc := pc))
    ensures SameExits(t, Move(Set(t, k, a), p, pc))
  {}

  /** What is known of p when it takes a step that reaches a second slot. */
  lemma OtherSlot(s: State, e: Event)
    requires Inv(s) && Enabled(s, e)
    ensures var a := s.tab.procs[e.p];
            && (e.Link? || e.Start? ==> a.pc.np != e.p && s.tab.procs[a.pc.np].st.Used?
                                        && !InExit(s.tab.procs[a.pc.np].pc))
            && (e.Reparent? && a.pc.j < |s.tab.procs| && Is(s.tab.procs[a.pc.j].parent, e.p) ==> a.pc.j != e.p)
            && (e.Wakeup? ==> Target(s.tab, a).value != e.p)
            && (e.Switch? && a.pc.Falling? ==> a.st.Runnable?)
  {
    hide BooksInv;
    var t, p := s.tab, e.p;
    SlotOf(t, p);
    hide AllOwn, AllFamilies;
    if e.Link? || e.Start? { SlotOf(t, t.procs[p].pc.np); }
    if e.Reparent? && t.procs[p].pc.j < |t.procs| { SlotOf(t, t.procs[p].pc.j); }
  }

  lemma OneExit(s: State, e: Event)
    requires Enabled(s, e) && !e.Fork? && !e.Link? && !e.Start? && !e.Reparent? && !e.Wakeup? && !e.Die? && !e.CallExit?
    requires s.tab.procs[e.p].pc.Falling? ==> s.tab.procs[e.p].st.Runnable?
    requires e.Scan? && !e.fault ==>
               var j := s.tab.procs[e.p].pc.j; !(Is(s.tab.procs[j].parent, e.p) && s.tab.procs[j].st.Zombie?)
    ensures |Do(s, e).tab.procs| == |s.tab.procs| && SameExit(s.tab.procs[e.p], Do(s, e).tab.procs[e.p])
  {}

  /** No step but exit's call, its end, fork and reaping moves anyone in or out of exit. */
  lemma ExitsKept(s: State, e: Event)
    requires Inv(s) && Enabled(s, e) && !e.Fork? && !e.CallExit? && !e.Die?
    requires e.Scan? && !e.fault ==>
               var j := s.tab.procs[e.p].pc.j; !(Is(s.tab.procs[j].parent, e.p) && s.tab.procs[j].st.Zombie?)
    ensures SameExits(s.tab, Do(s, e).tab)
  {
    hide Inv, SameExits, Set;
    OtherSlot(s, e);
    var t, p := s.tab, e.p;
    var a := t.procs[p];
    if e.Link? {
      SetTwoExits(t, a.pc.np, t.procs[a.pc.np].(parent := Some(p)), p, Starting(a.pc.np));
    } else if e.Start? {
      SetTwoExits(t, a.pc.np, t.procs[a.pc.np].(st := Runnable, pc := User), p, User);
    } else if e.Reparent? && a.pc.j < |t.procs| && Is(t.procs[a.pc.j].parent, p) {
      SetTwoExits(t, a.pc.j, t.procs[a.pc.j].(parent := Some(t.init)), p, Handing(a.pc.x, a.pc.j));
    } else if e.Wakeup? {
      var k := Target(t, a).value;
      SetTwoExits(t, k, Rouse(t.procs[k]), p, if a.pc.Handing? then Reparenting(a.pc.x, a.pc.j + 1) else Dying(a.pc.x));
    } else if e.Reparent? {
      SetExit(t, p, a.(pc := if a.pc.j >= |t.procs| then Telling(a.pc.x) else Reparenting(a.pc.x, a.pc.j + 1)));
    } else {
      OneMoves(s, e);
      OneExit(s, e);
      SetExit(t, p, Do(s, e).tab.procs[p]);
    }
  }

  lemma PidsDiffer(s: State, p: nat, q: nat)
    requires s.Sized() && BooksInv(s) && p < |s.tab.procs| && q < |s.tab.procs| && p != q
    requires !s.tab.procs[p].st.Unused? && !s.tab.procs[q].st.Unused?
    ensures s.books.pid[p] != s.books.pid[q]
  {
    assert PidInv(s.tab.procs[p], p, s.books.pid[p], s.books.xstate[p], s.books);
    assert PidInv(s.tab.procs[q], q, s.books.pid[q], s.books.xstate[q], s.books);
  }

  lemma CallAdds(calls: seq<Call>, c: Call)
    ensures forall pid :: HasCalled(calls + [c], pid) <==> HasCalled(calls, pid) || pid == c.pid
  {
    forall pid ensures HasCalled(calls + [c], pid) <==> HasCalled(calls, pid) || pid == c.pid {
      if HasCalled(calls, pid) {
        var i :| 0 <= i < |calls| && calls[i].pid == pid;
        assert (calls + [c])[i].pid == pid;
      }
      assert (calls + [c])[|calls|] == c;
    }
  }

  lemma ExitCalled(s: State, p: nat, x: int, calls: seq<Call>)
    requires Inv(s) && Enabled(s, CallExit(p, x)) && CallsInv(s, calls)
    ensures CallsInv(Do(s, CallExit(p, x)), calls + [Call(s.books.pid[p], x)])
  {
    SlotOf(s.tab, p);
    hide TableInv;
    var u, c := Do(s, CallExit(p, x)), Call(s.books.pid[p], x);
    assert SlotCalls(s.tab.procs[p], s.books.pid[p], calls);
    assert PidInv(s.tab.procs[p], p, s.books.pid[p], s.books.xstate[p], s.books);
    forall i | 0 <= i < |calls| ensures calls[i].pid != c.pid {
      assert calls[i].pid == c.pid ==> HasCalled(calls, c.pid);
    }
    CallAdds(calls, c);
    forall q | 0 <= q < |u.tab.procs| ensures SlotCalls(u.tab.procs[q], u.books.pid[q], calls + [c]) {
      assert SlotCalls(s.tab.procs[q], s.books.pid[q], calls);
      if q != p && !s.tab.procs[q].st.Unused? { PidsDiffer(s, p, q); }
    }
  }

  lemma ForkCalled(s: State, p: nat, np: nat, calls: seq<Call>)
    requires Inv(s) && Enabled(s, Fork(p, np)) && CallsInv(s, calls)
    ensures CallsInv(Do(s, Fork(p, np)), calls)
  {
    SlotOf(s.tab, np);
    hide TableInv;
    var u := Do(s, Fork(p, np));
    assert HasCalled(calls, s.books.nextPid) ==> s.books.nextPid in s.books.home;
    forall q | 0 <= q < |u.tab.procs| ensures SlotCalls(u.tab.procs[q], u.books.pid[q], calls) {
      assert SlotCalls(s.tab.procs[q], s.books.pid[q], calls);
    }
  }

  lemma DieCalled(s: State, p: nat, calls: seq<Call>)
    requires Inv(s) && Enabled(s, Die(p)) && CallsInv(s, calls)
    ensures CallsInv(Do(s, Die(p)), calls)
  {
    hide Inv;
    var u := Do(s, Die(p));
    assert SlotCalls(s.tab.procs[p], s.books.pid[p], calls);
    forall q | 0 <= q < |u.tab.procs| ensures SlotCalls(u.tab.procs[q], u.books.pid[q], calls) {
      assert SlotCalls(s.tab.procs[q], s.books.pid[q], calls);
    }
  }

  lemma ReapCalled(s: State, p: nat, calls: seq<Call>)
    requires Inv(s) && Enabled(s, Scan(p, false)) && CallsInv(s, calls)
    requires Is(s.tab.procs[s.tab.procs[p].pc.j].parent, p) && s.tab.procs[s.tab.procs[p].pc.j].st.Zombie?
    ensures CallsInv(Do(s, Scan(p, false)), calls)
  {
    hide Inv;
    var u := Do(s, Scan(p, false));
    forall q | 0 <= q < |u.tab.procs| ensures SlotCalls(u.tab.procs[q], u.books.pid[q], calls) {
      assert SlotCalls(s.tab.procs[q], s.books.pid[q], calls);
    }
  }

  lemma StepCalls(s: State, e: Event, calls: seq<Call>)
    requires Inv(s) && Enabled(s, e) && CallsInv(s, calls)
    ensures CallsInv(Do(s, e), NextCalls(s, e, calls))
  {
    hide Inv, CallsInv, BooksInv;
    match e {
      case CallExit(p, x) => ExitCalled(s, p, x, calls);
      case Fork(p, np) => ForkCalled(s, p, np, calls);
      case Die(p) => DieCalled(s, p, calls);
      case Scan(p, fault) =>
        var j := s.tab.procs[p].pc.j;
        if !fault && Is(s.tab.procs[j].parent, p) && s.tab.procs[j].st.Zombie? {
          ReapCalled(s, p, calls);
        } else {
          ExitsKept(s, e);
          QuietCalls(s, Do(s, e), calls);
        }
      case _ =>
        ExitsKept(s, e);
        QuietCalls(s, Do(s, e), calls);
    }
  }

  lemma {:induction false} RunCalls(s: State, es: Schedule<Event>, t: State, calls: seq<Call>)
    requires Inv(s) && CallsInv(s, calls) && Runs(s, es, t)
    ensures CallsInv(t, ExitCalls(s, es, calls)) && Inv(t)
    decreases es
  {
    hide Inv, Enabled, Do, CallsInv;
    if es.Then? {
      var e := es.event;
      StepCalls(s, e, calls);
      StepKeepsInv(s, e);
      RunCalls(Do(s, e), es.rest, t, NextCalls(s, e, calls));
    }
  }

  /** Over a whole run a pid calls exit at most once, and what wait returns for it is the
      argument of that very call in the schedule. */
  lemma StatusFromExit(s: State, es: Schedule<Event>, t: State, r: Reap)
    requires Init(s) && Runs(s, es, t) && r in t.books.reaps
    ensures var calls := ExitCalls(s, es, []);
            && Call(r.pid, r.status) in calls
            && forall i, j :: 0 <= i < j < |calls| ==> calls[i].pid != calls[j].pid
  {
    InitInv(s);
    hide Runs, TableInv, ExitCalls;
    assert CallsInv(s, []) by {
      forall q | 0 <= q < |s.tab.procs| ensures SlotCalls(s.tab.procs[q], s.books.pid[q], []) {}
    }
    RunCalls(s, es, t, []);
    assert ReapInv(r, t);
  }

  // ----- free slots -----

  /** What freeproc leaves. */
  predicate CleanSlot(s: State, q: nat)
    requires s.Sized() && q < |s.tab.procs|
  {
    s.tab.procs[q].st.Unused? ==> s.books.pid[q] == 0 && s.books.xstate[q] == 0 && !s.books.killed[q]
  }

  predicate Clean(s: State) {
    s.Sized() && forall q :: 0 <= q < |s.tab.procs| ==> CleanSlot(s, q)
  }

  lemma QuietClean(s: State, u: State)
    requires Clean(s) && u.Sized() && SameFlags(s.tab, u.tab)
    requires u.books.pid == s.books.pid && u.books.xstate == s.books.xstate && u.books.killed == s.books.killed
    ensures Clean(u)
  {
    forall q | 0 <= q < |u.tab.procs| ensures CleanSlot(u, q) { assert CleanSlot(s, q); }
  }

  lemma StepClean(s: State, e: Event)
    requires Inv(s) && Enabled(s, e) && Clean(s)
    ensures Clean(Do(s, e))
  {
    hide BooksInv, SameFlags;
    var u := Do(s, e);
    if e.Fork? || e.Die? || e.Kill?
       || (e.Scan? && !e.fault && ZombieChild(s.tab, e.p, s.tab.procs[e.p].pc.j)) {
      SlotOf(s.tab, e.p);
      hide TableInv;
      forall q | 0 <= q < |u.tab.procs| ensures CleanSlot(u, q) { assert CleanSlot(s, q); }
    } else {
      hide TableInv;
      FlagsKept(s, e);
      QuietClean(s, u);
    }
  }

  lemma {:induction false} RunClean(s: State, es: Schedule<Event>, t: State)
    requires Inv(s) && Clean(s) && Runs(s, es, t)
    ensures Clean(t)
    decreases es
  {
    hide Inv, Enabled, Do, Clean;
    if es.Then? {
      StepClean(s, es.event);
      StepKeepsInv(s, es.event);
      RunClean(Do(s, es.event), es.rest, t);
    }
  }

  /** In every run a free slot carries no pid, no status and no kill of an earlier process. */
  lemma FreeSlotsClean(s: State, es: Schedule<Event>, t: State, q: nat)
    requires Init(s) && Runs(s, es, t) && q < |t.tab.procs|
    ensures t.Sized() && CleanSlot(t, q)
  {
    InitInv(s);
    hide Runs, Inv;
    RunClean(s, es, t);
  }

  // ----- each call does its work by its own steps -----

  lemma StepFirst(s: State, e: Event, es: Schedule<Event>, t: State, p: nat)
    requires Enabled(s, e) && !e.Kill? && e.p == p && Runs(Do(s, e), es, t) && OnlyBy(es, p)
    ensures Runs(s, Then(e, es), t) && OnlyBy(Then(e, es), p)
  {
    hide Enabled, Do;
  }

  lemma {:induction false} RunsAppend(s: State, es: Schedule<Event>, m: State, fs: Schedule<Event>, t: State)
    requires Runs(s, es, m) && Runs(m, fs, t)
    ensures Runs(s, Concat(es, fs), t)
    decreases es
  {
    hide Enabled, Do;
    if es.Then? { RunsAppend(Do(s, es.event), es.rest, m, fs, t); }
  }

  lemma {:induction false} OnlyByAppend(es: Schedule<Event>, fs: Schedule<Event>, p: nat)
    requires OnlyBy(es, p) && OnlyBy(fs, p)
    ensures OnlyBy(Concat(es, fs), p)
  {
    if es.Then? { OnlyByAppend(es.rest, fs, p); }
  }

  lemma OneStep(s: State, a: Event, p: nat) returns (fs: Schedule<Event>)
    requires !a.Kill? && a.p == p && Enabled(s, a)
    ensures Runs(s, fs, Do(s, a)) && OnlyBy(fs, p)
  {
    hide Enabled, Do;
    fs := Then(a, Stop);
    StepFirst(s, a, Stop, Do(s, a), p);
  }

  lemma TwoSteps(s: State, a: Event, b: Event, p: nat) returns (fs: Schedule<Event>)
    requires !a.Kill? && !b.Kill? && a.p == b.p == p && Enabled(s, a) && Enabled(Do(s, a), b)
    ensures Runs(s, fs, Do(Do(s, a), b)) && OnlyBy(fs, p)
  {
    hide Enabled, Do;
    fs := Then(a, Then(b, Stop));
    StepFirst(Do(s, a), b, Stop, Do(Do(s, a), b), p);
    StepFirst(s, a, Then(b, Stop), Do(Do(s, a), b), p);
  }

  lemma Compose(s: State, es: Schedule<Event>, m: State, fs: Schedule<Event>, t: State, p: nat)
    requires Runs(s, es, m) && OnlyBy(es, p) && Runs(m, fs, t) && OnlyBy(fs, p)
    ensures Runs(s, Concat(es, fs), t) && OnlyBy(Concat(es, fs), p)
  {
    hide Runs, OnlyBy;
    RunsAppend(s, es, m, fs, t);
    OnlyByAppend(es, fs, p);
  }

  /** fork: in every run, a process outside the code above makes a free slot its child, with a
      pid that was never given before, and is back where it was. */
  lemma ForkMakesChild(s: State, es: Schedule<Event>, t: State, p: nat, np: nat)
    returns (fs: Schedule<Event>, u: State)
    requires Init(s) && Runs(s, es, t) && p < |t.tab.procs| && np < |t.tab.procs|
    requires t.tab.procs[p].pc.User? && t.tab.procs[np].st.Unused? && t.tab.waitLock.None?
    ensures Runs(t, fs, u) && OnlyBy(fs, p)
    ensures u.tab == t.tab.(procs := t.tab.procs[np := Proc(Runnable, User, Some(p))])
    ensures t.books.nextPid !in t.books.home && u.books.pid == t.books.pid[np := t.books.nextPid]
    ensures u.books.killed == t.books.killed && np < |u.books.killed| && !u.books.killed[np]
    ensures u.books.reaps == t.books.reaps
  {
    FreeSlotsClean(s, es, t, np);
    hide Init, TableInv, Clean;
    ReachedSlot(s, es, t, p);
    ReachedSlot(s, es, t, np);
    hide Runs, BooksInv, OnlyBy;
    NewPid(t);
    var t1 := Do(t, Fork(p, np));
    u := Do(Do(t1, Link(p)), Start(p));
    var es1 := OneStep(t, Fork(p, np), p);
    var es2 := TwoSteps(t1, Link(p), Start(p), p);
    Compose(t, es1, t1, es2, u, p);
    fs := Concat(es1, es2);
  }

  lemma NewPid(t: State)
    requires t.Sized() && BooksInv(t)
    ensures t.books.nextPid !in t.books.home
  {}

  // ----- exit -----

  /** From s to t every child of p in slot j or behind it was handed to init. */
  predicate HandedFrom(s: State, t: State, p: nat, j: nat) {
    && t.books == s.books && |t.tab.procs| == |s.tab.procs| && t.tab.init == s.tab.init
    && t.tab.waitLock == s.tab.waitLock
    && forall q :: 0 <= q < |s.tab.procs| ==>
         && t.tab.procs[q].parent ==
              (if q >= j && Is(s.tab.procs[q].parent, p) then Some(s.tab.init) else s.tab.procs[q].parent)
         && (q != p ==> t.tab.procs[q].pc == s.tab.procs[q].pc)
  }

  /** p is in reparent at slot j, and nobody is on the way into a sleep or out of exit. */
  predicate Giving(s: State, p: nat, x: int, j: nat) {
    && s.Sized() && p < |s.tab.procs| && p != s.tab.init && j <= |s.tab.procs| && s.tab.waitLock == Some(p)
    && s.tab.procs[p].pc == Reparenting(x, j) && !Is(s.tab.procs[p].parent, p)
    && forall q :: 0 <= q < |s.tab.procs| ==> !HoldsOwnLock(s.tab.procs[q].pc)
  }

  lemma GiveOne(s: State, p: nat, x: int, j: nat) returns (es: Schedule<Event>, t: State)
    requires Giving(s, p, x, j) && j < |s.tab.procs|
    ensures Runs(s, es, t) && OnlyBy(es, p) && Giving(t, p, x, j + 1)
    ensures t.books == s.books && t.tab.init == s.tab.init && |t.tab.procs| == |s.tab.procs|
    ensures forall q :: 0 <= q < |s.tab.procs| ==>
              && t.tab.procs[q].parent ==
                   (if q == j && Is(s.tab.procs[q].parent, p) then Some(s.tab.init) else s.tab.procs[q].parent)
              && (q != p ==> t.tab.procs[q].pc == s.tab.procs[q].pc)
  {
    hide Runs, OnlyBy;
    var m := Do(s, Reparent(p));
    if Is(s.tab.procs[j].parent, p) {
      t := Do(m, Wakeup(p));
      es := TwoSteps(s, Reparent(p), Wakeup(p), p);
    } else {
      t := m;
      es := OneStep(s, Reparent(p), p);
    }
  }

  lemma {:induction false} GiveAll(s: State, p: nat, x: int, j: nat) returns (es: Schedule<Event>, t: State)
    requires Giving(s, p, x, j)
    ensures Runs(s, es, t) && OnlyBy(es, p) && HandedFrom(s, t, p, j) && Giving(t, p, x, |t.tab.procs|)
    decreases |s.tab.procs| - j
  {
    hide Enabled, Do;
    if j == |s.tab.procs| {
      es, t := Stop, s;
    } else {
      var es1, t1 := GiveOne(s, p, x, j);
      var es2, t2 := GiveAll(t1, p, x, j + 1);
      Compose(s, es1, t1, es2, t2, p);
      es, t := Concat(es1, es2), t2;
    }
  }

  lemma ExitBegins(s: State, es: Schedule<Event>, t: State, p: nat, x: int) returns (fs: Schedule<Event>, u: State)
    requires Init(s) && Runs(s, es, t) && p < |t.tab.procs| && t.tab.procs[p].pc.User? && p != t.tab.init
    requires t.tab.waitLock.None? && forall q :: 0 <= q < |t.tab.procs| ==> !HoldsOwnLock(t.tab.procs[q].pc)
    ensures Runs(t, fs, u) && OnlyBy(fs, p) && Giving(u, p, x, 0)
    ensures u.books == t.books && |u.tab.procs| == |t.tab.procs| && u.tab.init == t.tab.init
    ensures forall q :: 0 <= q < |t.tab.procs| ==> u.tab.procs[q].parent == t.tab.procs[q].parent
    ensures u.tab.procs[p].parent.Some? && u.tab.procs[p].parent.value < |u.tab.procs|
  {
    hide Init, BooksInv, TableInv;
    ReachedSlot(s, es, t, p);
    hide Runs;
    u := Do(Do(t, CallExit(p, x)), Lock(p));
    fs := TwoSteps(t, CallExit(p, x), Lock(p), p);
  }

  lemma ExitEnds(s: State, p: nat, x: int) returns (fs: Schedule<Event>, u: State)
    requires Giving(s, p, x, |s.tab.procs|)
    requires s.tab.procs[p].parent.Some? && s.tab.procs[p].parent.value < |s.tab.procs|
    ensures Runs(s, fs, u) && OnlyBy(fs, p)
    ensures |u.tab.procs| == |s.tab.procs| && u.tab.procs[p].st.Zombie? && u.tab.procs[p].pc.Free?
    ensures u.tab.waitLock.None? && u.tab.init == s.tab.init && u.books.pid == s.books.pid
    ensures p < |u.books.xstate| && u.books.xstate[p] == x
    ensures forall q :: 0 <= q < |s.tab.procs| ==> u.tab.procs[q].parent == s.tab.procs[q].parent
  {
    hide Runs, OnlyBy;
    var m := Do(Do(s, Reparent(p)), Wakeup(p));
    var es1 := TwoSteps(s, Reparent(p), Wakeup(p), p);
    var es2;
    es2, u := DieSwitches(m, p, x);
    Compose(s, es1, m, es2, u, p);
    fs := Concat(es1, es2);
  }

  lemma DieSwitches(s: State, p: nat, x: int) returns (fs: Schedule<Event>, u: State)
    requires s.Sized() && p < |s.tab.procs| && s.tab.procs[p].pc == Dying(x)
    ensures Runs(s, fs, u) && OnlyBy(fs, p)
    ensures u.tab == s.tab.(procs := s.tab.procs[p := s.tab.procs[p].(st := Zombie, pc := Free)], waitLock := None)
    ensures u.books.pid == s.books.pid && u.books.xstate == s.books.xstate[p := x]
  {
    hide Runs, OnlyBy;
    u := Do(Do(s, Die(p)), Switch(p));
    fs := TwoSteps(s, Die(p), Switch(p), p);
  }

  /** exit(x): in every run, unless somebody is on the way into a sleep, the process ends as a
      zombie with status x by its own steps alone. Its children belong to init then, every
      other process keeps its parent, and its own parent is not left asleep. */
  lemma ExitLeavesZombie(s: State, es: Schedule<Event>, t: State, p: nat, x: int)
    returns (fs: Schedule<Event>, u: State)
    requires Init(s) && Runs(s, es, t) && p < |t.tab.procs| && t.tab.procs[p].pc.User? && p != t.tab.init
    requires t.tab.waitLock.None? && forall q :: 0 <= q < |t.tab.procs| ==> !HoldsOwnLock(t.tab.procs[q].pc)
    ensures Runs(t, fs, u) && OnlyBy(fs, p)
    ensures |u.tab.procs| == |t.tab.procs| && u.tab.procs[p].st.Zombie? && u.tab.procs[p].pc.Free?
    ensures p < |u.books.xstate| && u.books.xstate[p] == x && u.books.pid == t.books.pid && u.tab.waitLock.None?
    ensures forall q :: 0 <= q < |t.tab.procs| ==>
              u.tab.procs[q].parent ==
                if Is(t.tab.procs[q].parent, p) then Some(t.tab.init) else t.tab.procs[q].parent
    ensures t.tab.procs[p].parent.Some? && t.tab.procs[p].parent.value < |u.tab.procs|
    ensures !Sleepy(u.tab.procs[t.tab.procs[p].parent.value])
  {
    var es1, t1 := ExitBegins(s, es, t, p, x);
    hide Init, Runs, OnlyBy, Inv;
    var es2, t2 := GiveAll(t1, p, x, 0);
    var es3, t3 := ExitEnds(t2, p, x);
    Compose(t1, es2, t2, es3, t3, p);
    Compose(t, es1, t1, Concat(es2, es3), t3, p);
    fs, u := Concat(es1, Concat(es2, es3)), t3;
    RunsAppend(s, es, t, fs, u);
    var par := t.tab.procs[p].parent.value;
    if Sleepy(u.tab.procs[par]) { NoSleepOverZombie(s, Concat(es, fs), u, par, p); }
  }

  // ----- wait -----

  /** p's children are switched out. */
  predicate ChildrenOff(t: Table, p: nat) {
    forall c :: 0 <= c < |t.procs| && Is(t.procs[c].parent, p) ==> !HoldsOwnLock(t.procs[c].pc)
  }

  /** Process p has a child in a slot below j. */
  ghost predicate HasChild(procs: seq<Proc>, p: nat, j: nat) {
    exists c: nat :: c < j && IsChild(procs, c, p)
  }

  /** p is in wait at slot j, with havekids set as the earlier slots say, and none of them
      holds a zombie of p. */
  ghost predicate Looking(s: State, p: nat, j: nat) {
    && s.Sized() && p < |s.tab.procs| && j <= |s.tab.procs| && s.tab.waitLock == Some(p) && ChildrenOff(s.tab, p)
    && s.tab.procs[p].pc.Scanning? && s.tab.procs[p].pc.j == j
    && !s.tab.procs[p].st.Zombie?
    && (s.tab.procs[p].pc.kid.Some? <==> HasChild(s.tab.procs, p, j))
    && forall c :: 0 <= c < j ==> !ZombieChild(s.tab, p, c)
  }

  lemma LookOn(s: State, p: nat, j: nat)
    requires Looking(s, p, j) && j < |s.tab.procs| && !ZombieChild(s.tab, p, j)
    ensures Enabled(s, Scan(p, false)) && Looking(Do(s, Scan(p, false)), p, j + 1)
    ensures var m := Do(s, Scan(p, false)); m == s.(tab := s.tab.(procs := m.tab.procs)) && SameBut(s.tab, m.tab, p)
  {
    var m := Do(s, Scan(p, false));
    forall c: nat ensures IsChild(m.tab.procs, c, p) == IsChild(s.tab.procs, c, p) {}
    assert IsChild(s.tab.procs, j, p) <==> Is(s.tab.procs[j].parent, p);
    if HasChild(s.tab.procs, p, j) {
      var c: nat :| c < j && IsChild(s.tab.procs, c, p);
      assert IsChild(m.tab.procs, c, p);
    }
    forall c: nat ensures ZombieChild(m.tab, p, c) == ZombieChild(s.tab, p, c) {}
  }

  /** Only where p is differs. */
  predicate SameBut(t: Table, u: Table, p: nat) {
    && |u.procs| == |t.procs| && p < |t.procs| && u.init == t.init
    && u.procs == t.procs[p := t.procs[p].(pc := u.procs[p].pc)]
  }

  lemma {:induction false} LookAll(s: State, p: nat, j: nat) returns (es: Schedule<Event>, t: State)
    requires Looking(s, p, j) && forall c: nat :: !ZombieChild(s.tab, p, c)
    ensures Runs(s, es, t) && OnlyBy(es, p) && Looking(t, p, |t.tab.procs|)
    ensures t.books == s.books && SameBut(s.tab, t.tab, p)
    decreases |s.tab.procs| - j
  {
    hide Enabled, Do;
    if j == |s.tab.procs| {
      es, t := Stop, s;
    } else {
      LookOn(s, p, j);
      var m := Do(s, Scan(p, false));
      forall c: nat ensures !ZombieChild(m.tab, p, c) { assert !ZombieChild(s.tab, p, c); }
      var fs;
      fs, t := LookAll(m, p, j + 1);
      StepFirst(s, Scan(p, false), fs, t, p);
      es := Then(Scan(p, false), fs);
    }
  }

  /** About to call wait, or runnable in it. */
  predicate CanWait(a: Proc) {
    a.pc.User? || a.pc.Waiting? || (a.pc.Down? && a.st.Runnable?)
  }

  lemma WaitBegins(s: State, es: Schedule<Event>, t: State, p: nat) returns (fs: Schedule<Event>, u: State)
    requires Init(s) && Runs(s, es, t) && p < |t.tab.procs| && t.tab.waitLock.None? && ChildrenOff(t.tab, p)
    requires CanWait(t.tab.procs[p])
    ensures Runs(t, fs, u) && OnlyBy(fs, p) && Looking(u, p, 0)
    ensures u.books == t.books && SameBut(t.tab, u.tab, p)
  {
    hide Init, BooksInv, TableInv, KidInv, ForkInv, FamilyInv;
    ReachedSlot(s, es, t, p);
    hide Runs, OnlyBy, Looking;
    if t.tab.procs[p].pc.Waiting? {
      LockLooks(t, p);
      u := Do(t, Lock(p));
      fs := OneStep(t, Lock(p), p);
    } else {
      var e := if t.tab.procs[p].pc.User? then CallWait(p) else Resume(p);
      LockLooks(Do(t, e), p);
      u := Do(Do(t, e), Lock(p));
      fs := TwoSteps(t, e, Lock(p), p);
    }
  }

  lemma LockLooks(t: State, p: nat)
    requires t.Sized() && p < |t.tab.procs| && t.tab.waitLock.None? && ChildrenOff(t.tab, p)
    requires t.tab.procs[p].pc.Waiting? && !t.tab.procs[p].st.Zombie?
    ensures Enabled(t, Lock(p)) && Looking(Do(t, Lock(p)), p, 0)
  {}

  /** Process p sleeps in wait, with wait_lock free. */
  predicate SleepsInWait(t: Table, p: nat) {
    p < |t.procs| && t.procs[p].st.Sleeping? && t.procs[p].pc.Down? && t.waitLock.None?
  }

  lemma WaitDecides(s: State, p: nat) returns (fs: Schedule<Event>, u: State)
    requires Looking(s, p, |s.tab.procs|)
    ensures Runs(s, fs, u) && OnlyBy(fs, p) && u.books == s.books
    ensures if HasChild(s.tab.procs, p, |s.tab.procs|) && !s.books.killed[p] then SleepsInWait(u.tab, p)
            else u.tab == Returned(s.tab, p)
  {
    hide HasChild;
    var m := Do(s, Decide(p));
    if HasChild(s.tab.procs, p, |s.tab.procs|) && !s.books.killed[p] {
      u := Do(m, Switch(p));
      fs := TwoSteps(s, Decide(p), Switch(p), p);
    } else {
      u := m;
      fs := OneStep(s, Decide(p), p);
    }
  }

  /** wait without a zombie child: in every run, with wait_lock free and its children switched
      out, the process gives up by its own steps alone if it has no child or is killed, and
      sleeps otherwise. Nothing is reaped. */
  lemma WaitAnswers(s: State, es: Schedule<Event>, t: State, p: nat) returns (fs: Schedule<Event>, u: State)
    requires Init(s) && Runs(s, es, t) && p < |t.tab.procs| && t.tab.waitLock.None? && ChildrenOff(t.tab, p)
    requires CanWait(t.tab.procs[p])
    requires p < |t.books.killed| && forall c: nat :: !ZombieChild(t.tab, p, c)
    ensures Runs(t, fs, u) && OnlyBy(fs, p) && u.books == t.books
    ensures if HasChild(t.tab.procs, p, |t.tab.procs|) && !t.books.killed[p] then SleepsInWait(u.tab, p)
            else u.tab == Returned(t.tab, p)
  {
    var es1, t1 := WaitBegins(s, es, t, p);
    hide Init, Runs, OnlyBy, HasChild;
    forall c: nat ensures !ZombieChild(t1.tab, p, c) { assert !ZombieChild(t.tab, p, c); }
    var es2, t2 := LookAll(t1, p, 0);
    SameChildren(t.tab, t1.tab, p);
    SameChildren(t1.tab, t2.tab, p);
    var es3, t3 := WaitDecides(t2, p);
    Compose(t1, es2, t2, es3, t3, p);
    Compose(t, es1, t1, Concat(es2, es3), t3, p);
    fs, u := Concat(es1, Concat(es2, es3)), t3;
  }

  lemma SameChildren(t: Table, u: Table, p: nat)
    requires SameBut(t, u, p)
    ensures HasChild(u.procs, p, |u.procs|) <==> HasChild(t.procs, p, |t.procs|)
  {
    forall c: nat ensures IsChild(u.procs, c, p) == IsChild(t.procs, c, p) {}
  }

  /** kill reaches a process in wait: without a zombie child it returns by its own steps
      alone, asleep or not. */
  lemma KilledReturns(s: State, es: Schedule<Event>, t: State, p: nat) returns (fs: Schedule<Event>, u: State)
    requires Init(s) && Runs(s, es, t) && p < |t.tab.procs| && t.tab.waitLock.None? && ChildrenOff(t.tab, p)
    requires t.tab.procs[p].pc.Waiting? || t.tab.procs[p].pc.Down?
    requires forall c: nat :: !ZombieChild(t.tab, p, c)
    ensures Enabled(t, Kill(p)) && Runs(Do(t, Kill(p)), fs, u) && OnlyBy(fs, p)
    ensures |u.tab.procs| == |t.tab.procs| && u.tab.procs[p].pc.User? && u.tab.waitLock.None?
    ensures u.books.reaps == t.books.reaps
  {
    hide Init, BooksInv, TableInv;
    ReachedSlot(s, es, t, p);
    hide OwnInv, FamilyInv;
    var m := Do(t, Kill(p));
    var ks := Then(Kill(p), Stop);
    assert Runs(t, ks, m);
    hide Runs, Inv;
    RunsAppend(s, es, t, ks, m);
    forall c: nat ensures !ZombieChild(m.tab, p, c) { assert !ZombieChild(t.tab, p, c); }
    fs, u := WaitAnswers(s, Concat(es, ks), m, p);
  }
}
