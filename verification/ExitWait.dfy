/** fork, exit and wait over the process table: any number of processes, any
    interleaving, kill included.

    A step is a stretch of code that runs under locks no other step can enter.
    wait_lock and p->lock are both modelled: a section under another process's p->lock
    has to wait while that process holds its own, which it does on its way to sleep and
    from becoming a ZOMBIE until it is switched out. wakeup(q) is one step, since only q
    itself sleeps on channel q. */
module ExitWait {
  import opened Common

  datatype Status =
    | Unused
    | Used(maker: nat)  // being set up by the fork of process maker
    | Runnable          // RUNNABLE or RUNNING
    | Sleeping          // in wait, with chan == p
    | Zombie

  datatype Pc =
    | Free                               // not executing
    | User                               // anywhere outside the code below
    | Linking(np: nat)                   // fork, before np->parent is set
    | Starting(np: nat)                  // fork, before np becomes RUNNABLE
    | Exiting(x: int)                    // exit(x), at acquire(&wait_lock)
    | Reparenting(x: int, j: nat)        // in reparent, slot j comes next
    | Handing(x: int, j: nat)            // at its wakeup(initproc), slot j just handed over
    | Telling(x: int)                    // at wakeup(p->parent)
    | Dying(x: int)                      // at acquire(&p->lock)
    | Switching                          // ZOMBIE, wait_lock released, p->lock held
    | Waiting                            // wait, at acquire(&wait_lock), first or after sleep
    | Scanning(j: nat, kid: Option<nat>) // slot j comes next; kid: the child that set havekids
    | Falling(child: nat)                // in sleep, wait_lock released, p->lock held
    | Down(child: nat)                   // switched out: SLEEPING, or RUNNABLE again

  datatype Proc = Proc(st: Status, pc: Pc, parent: Option<nat>)

  datatype Reap = Reap(pid: nat, status: int, reaper: nat)

  /** The part of the process table that synchronises: where every process is, with
      initproc and wait_lock. */
  datatype Table = Table(procs: seq<Proc>, init: nat, waitLock: Option<nat>)

  /** The rest. home, exits and reaps are history: the slot each pid was given, the
      status each exited pid left, and what the calls of wait returned. */
  datatype Books = Books(
    pid: seq<nat>,
    killed: seq<bool>,
    xstate: seq<int>,
    nextPid: nat,
    home: map<nat, nat>,
    exits: map<nat, int>,
    reaps: seq<Reap>)

  datatype State = State(tab: Table, books: Books) {
    predicate Sized() {
      && |books.pid| == |books.killed| == |books.xstate| == |tab.procs|
      && tab.init < |tab.procs|
    }
  }

  datatype Event =
    | Fork(p: nat, np: nat)
    | ForkFails(p: nat)
    | Link(p: nat)
    | Start(p: nat)
    | CallExit(p: nat, x: int)
    | CallWait(p: nat)
    | Lock(p: nat)
    | Reparent(p: nat)
    | Wakeup(p: nat)
    | Die(p: nat)
    | Switch(p: nat)
    | Resume(p: nat)
    | Scan(p: nat, fault: bool)   // fault: copyout of the status fails
    | Decide(p: nat)
    | Kill(p: nat)

  predicate HoldsOwnLock(pc: Pc) {
    pc.Switching? || pc.Falling?
  }

  predicate HoldsWaitLock(pc: Pc) {
    pc.Reparenting? || pc.Handing? || pc.Telling? || pc.Dying? || pc.Scanning?
  }

  /** The process that a process at Handing or Telling is about to wake. */
  function Target(t: Table, a: Proc): Option<nat> {
    if a.pc.Handing? then Some(t.init) else a.parent
  }

  predicate Enabled(s: State, e: Event) {
    && s.Sized() && e.p < |s.tab.procs|
    && var procs := s.tab.procs;
       var a := procs[e.p];
       match e
       case Fork(p, np) => a.pc.User? && np < |procs| && procs[np].st.Unused?
       case ForkFails(p) => a.pc.User?
       case Link(p) => a.pc.Linking? && a.pc.np < |procs| && s.tab.waitLock.None?
       case Start(p) => a.pc.Starting? && a.pc.np < |procs|
       case CallExit(p, x) => a.pc.User? && p != s.tab.init    // otherwise: panic("init exiting")
       case CallWait(p) => a.pc.User?
       case Lock(p) => (a.pc.Exiting? || a.pc.Waiting?) && s.tab.waitLock.None?
       case Reparent(p) => a.pc.Reparenting?
       case Wakeup(p) =>
         && (a.pc.Handing? || a.pc.Telling?) && Target(s.tab, a).Some? && Target(s.tab, a).value < |procs|
         && !HoldsOwnLock(procs[Target(s.tab, a).value].pc)
       case Die(p) => a.pc.Dying?
       case Switch(p) => a.pc.Switching? || a.pc.Falling?
       case Resume(p) => a.pc.Down? && a.st.Runnable?
       case Scan(p, fault) =>
         && a.pc.Scanning? && a.pc.j < |procs|
         && (Is(procs[a.pc.j].parent, p) ==> !HoldsOwnLock(procs[a.pc.j].pc))
       case Decide(p) => a.pc.Scanning? && a.pc.j >= |procs|
       case Kill(p) => !HoldsOwnLock(a.pc) && !a.st.Unused?
  }

  // ----- what each step does to the table -----

  function Set(t: Table, p: nat, a: Proc): Table
    requires p < |t.procs|
  {
    t.(procs := t.procs[p := a])
  }

  function Move(t: Table, p: nat, pc: Pc): Table
    requires p < |t.procs|
  {
    Set(t, p, t.procs[p].(pc := pc))
  }

  /** wakeup or kill reaches a process: SLEEPING becomes RUNNABLE. */
  function Rouse(a: Proc): Proc {
    if a.st.Sleeping? then a.(st := Runnable) else a
  }

  function Forked(t: Table, p: nat, np: nat): Table
    requires p < |t.procs| && np < |t.procs|
  {
    Move(Set(t, np, Proc(Used(p), Free, None)), p, Linking(np))
  }

  function Linked(t: Table, p: nat, np: nat): Table
    requires p < |t.procs| && np < |t.procs|
  {
    Move(Set(t, np, t.procs[np].(parent := Some(p))), p, Starting(np))
  }

  function Started(t: Table, p: nat, np: nat): Table
    requires p < |t.procs| && np < |t.procs|
  {
    Move(Set(t, np, t.procs[np].(st := Runnable, pc := User)), p, User)
  }

  function Locked(t: Table, p: nat): Table
    requires p < |t.procs|
  {
    var pc := t.procs[p].pc;
    Move(t, p, if pc.Exiting? then Reparenting(pc.x, 0) else Scanning(0, None)).(waitLock := Some(p))
  }

  function Reparented(t: Table, p: nat): Table
    requires p < |t.procs| && t.procs[p].pc.Reparenting?
  {
    var Reparenting(x, j) := t.procs[p].pc;
    if j >= |t.procs| then Move(t, p, Telling(x))
    else if !Is(t.procs[j].parent, p) then Move(t, p, Reparenting(x, j + 1))
    else Handed(t, p, x, j)
  }

  function Handed(t: Table, p: nat, x: int, j: nat): Table
    requires p < |t.procs| && j < |t.procs|
  {
    Move(Set(t, j, t.procs[j].(parent := Some(t.init))), p, Handing(x, j))
  }

  function Woken(t: Table, p: nat, k: nat, pc: Pc): Table
    requires p < |t.procs| && k < |t.procs|
  {
    Move(Set(t, k, Rouse(t.procs[k])), p, pc)
  }

  function Died(t: Table, p: nat): Table
    requires p < |t.procs|
  {
    Set(t, p, t.procs[p].(st := Zombie, pc := Switching)).(waitLock := None)
  }

  function Switched(t: Table, p: nat): Table
    requires p < |t.procs| && (t.procs[p].pc.Switching? || t.procs[p].pc.Falling?)
  {
    if t.procs[p].pc.Switching? then Move(t, p, Free)
    else Set(t, p, t.procs[p].(st := Sleeping, pc := Down(t.procs[p].pc.child)))
  }

  /** Slot j holds no zombie of p: on to the next. */
  function Scanned(t: Table, p: nat): Table
    requires p < |t.procs| && t.procs[p].pc.Scanning? && t.procs[p].pc.j < |t.procs|
  {
    var Scanning(j, kid) := t.procs[p].pc;
    Move(t, p, Scanning(j + 1, if Is(t.procs[j].parent, p) then Some(j) else kid))
  }

  /** freeproc(pp), and wait returns. */
  function Reaped(t: Table, p: nat, j: nat): Table
    requires p < |t.procs| && j < |t.procs|
  {
    Returned(Set(t, j, Proc(Unused, Free, None)), p)
  }

  function Returned(t: Table, p: nat): Table
    requires p < |t.procs|
  {
    Move(t, p, User).(waitLock := None)
  }

  /** sleep: p->lock is taken, then wait_lock is released. */
  function Slept(t: Table, p: nat, kid: nat): Table
    requires p < |t.procs|
  {
    Move(t, p, Falling(kid)).(waitLock := None)
  }

  function Killed(t: Table, p: nat): Table
    requires p < |t.procs|
  {
    Set(t, p, Rouse(t.procs[p]))
  }

  // ----- whole steps -----

  function Do(s: State, e: Event): State
    requires Enabled(s, e)
  {
    var t, b := s.tab, s.books;
    match e
    case Fork(p, np) =>
      State(Forked(t, p, np),
            b.(pid := b.pid[np := b.nextPid], nextPid := b.nextPid + 1, home := b.home[b.nextPid := np]))
    case ForkFails(p) => s.(books := b.(nextPid := b.nextPid + 1))
    case Link(p) => s.(tab := Linked(t, p, t.procs[p].pc.np))
    case Start(p) => s.(tab := Started(t, p, t.procs[p].pc.np))
    case CallExit(p, x) => s.(tab := Move(t, p, Exiting(x)))
    case CallWait(p) => s.(tab := Move(t, p, Waiting))
    case Lock(p) => s.(tab := Locked(t, p))
    case Reparent(p) => s.(tab := Reparented(t, p))
    case Wakeup(p) =>
      var pc := t.procs[p].pc;
      var next := if pc.Handing? then Reparenting(pc.x, pc.j + 1) else Dying(pc.x);
      s.(tab := Woken(t, p, Target(t, t.procs[p]).value, next))
    case Die(p) =>
      var x := t.procs[p].pc.x;
      State(Died(t, p), b.(xstate := b.xstate[p := x], exits := b.exits[b.pid[p] := x]))
    case Switch(p) => s.(tab := Switched(t, p))
    case Resume(p) => s.(tab := Move(t, p, Waiting))
    case Scan(p, fault) =>
      var j := t.procs[p].pc.j;
      if !Is(t.procs[j].parent, p) || !t.procs[j].st.Zombie? then s.(tab := Scanned(t, p))
      else if fault then s.(tab := Returned(t, p))
      else
        State(Reaped(t, p, j), b.(pid := b.pid[j := 0], killed := b.killed[j := false], xstate := b.xstate[j := 0],
                                  reaps := b.reaps + [Reap(b.pid[j], b.xstate[j], p)]))
    case Decide(p) =>
      var kid := t.procs[p].pc.kid;
      if kid.None? || b.killed[p] then s.(tab := Returned(t, p)) else s.(tab := Slept(t, p, kid.value))
    case Kill(p) => State(Killed(t, p), b.(killed := b.killed[p := true]))
  }

  // ----- the invariant -----

  predicate Live(a: Proc) {
    a.st.Runnable? || a.st.Sleeping?
  }

  /** Has decided to sleep: sees no more of its children without a wakeup. */
  predicate Sleepy(a: Proc) {
    a.pc.Falling? || a.st.Sleeping?
  }

  predicate InExit(pc: Pc) {
    pc.Exiting? || pc.Reparenting? || pc.Handing? || pc.Telling? || pc.Dying?
  }

  /** What holds of slot q alone. */
  predicate SelfInv(q: nat, a: Proc, init: nat, w: Option<nat>) {
    && (HoldsWaitLock(a.pc) <==> Is(w, q))
    && (a.st.Unused? ==> a.parent.None?)
    && (a.st.Unused? || a.st.Used? ==> a.pc.Free?)
    && (a.st.Runnable? ==> !a.pc.Free? && !a.pc.Switching?)
    && (a.st.Sleeping? ==> a.pc.Down?)
    && (a.st.Zombie? ==> a.pc.Switching? || a.pc.Free?)
    && (q == init ==> Live(a) && !InExit(a.pc) && a.parent.None?)
    && (q != init && (Live(a) || a.st.Zombie?) ==> a.parent.Some?)
  }

  /** A process q at pc in fork is the maker of slot np. */
  predicate ForkInv(procs: seq<Proc>, q: nat, pc: Pc) {
    pc.Linking? || pc.Starting? ==>
      && pc.np < |procs| && procs[pc.np].st.Used? && procs[pc.np].st.maker == q
      && if pc.Linking? then procs[pc.np].parent.None? else Is(procs[pc.np].parent, q)
  }

  predicate IsChild(procs: seq<Proc>, c: nat, q: nat) {
    c < |procs| && Is(procs[c].parent, q)
  }

  /** A process q at pc that saw a child in wait still has it. */
  predicate KidInv(procs: seq<Proc>, q: nat, pc: Pc) {
    && (pc.Scanning? && pc.kid.Some? ==> IsChild(procs, pc.kid.value, q))
    && (pc.Falling? || pc.Down? ==> IsChild(procs, pc.child, q))
  }

  /** May a process at pc still be the parent of slot q? */
  predicate MayHave(pc: Pc, q: nat) {
    && (pc.Reparenting? ==> pc.j <= q)
    && (pc.Handing? ==> pc.j < q)
    && !pc.Telling? && !pc.Dying?
    && (pc.Scanning? && q < pc.j ==> pc.kid.Some?)
  }

  /** The holder of wait_lock is about to wake init. */
  predicate InitDue(procs: seq<Proc>, w: Option<nat>) {
    w.Some? && w.value < |procs| && procs[w.value].pc.Handing?
  }

  /** What holds of a child c in slot q and its parent a in slot p: the parent is alive,
      and it neither sleeps nor will sleep over a zombie, unless it is init and init is
      about to be woken. */
  predicate PairInv(q: nat, c: Proc, p: nat, a: Proc, init: nat, due: bool) {
    && p != q && Live(a) && MayHave(a.pc, q)
    && (c.st.Zombie? && a.pc.Scanning? ==> a.pc.j <= q)
    && (c.st.Zombie? && Sleepy(a) ==> p == init && due)
    && (c.pc.Dying? ==> !Sleepy(a))
  }

  predicate OwnInv(t: Table, q: nat)
    requires q < |t.procs|
  {
    && SelfInv(q, t.procs[q], t.init, t.waitLock)
    && ForkInv(t.procs, q, t.procs[q].pc) && KidInv(t.procs, q, t.procs[q].pc)
  }

  predicate FamilyInv(t: Table, q: nat)
    requires q < |t.procs|
  {
    var c := t.procs[q];
    c.parent.Some? ==>
      && c.parent.value < |t.procs|
      && PairInv(q, c, c.parent.value, t.procs[c.parent.value], t.init, InitDue(t.procs, t.waitLock))
  }

  predicate AllOwn(t: Table) {
    forall q :: 0 <= q < |t.procs| ==> OwnInv(t, q)
  }

  predicate AllFamilies(t: Table) {
    forall q :: 0 <= q < |t.procs| ==> FamilyInv(t, q)
  }

  predicate TableInv(t: Table) {
    t.init < |t.procs| && AllOwn(t) && AllFamilies(t)
  }

  // ----- pids, statuses and what wait returns -----

  /** A process owns the pid it was given; a pid has an exit status once it is a zombie. */
  predicate PidInv(a: Proc, q: nat, pid: nat, xstate: int, b: Books) {
    !a.st.Unused? ==>
      && pid in b.home && b.home[pid] == q
      && (pid in b.exits <==> a.st.Zombie?)
      && (a.st.Zombie? ==> b.exits[pid] == xstate)
  }

  /** What wait returned was a pid that had exited, with its status, and that pid is gone. */
  predicate ReapInv(r: Reap, s: State)
    requires s.Sized()
  {
    && r.pid in s.books.exits && s.books.exits[r.pid] == r.status
    && r.pid in s.books.home && s.books.home[r.pid] < |s.tab.procs|
    && (s.tab.procs[s.books.home[r.pid]].st.Unused? || s.books.pid[s.books.home[r.pid]] != r.pid)
  }

  predicate BooksInv(s: State)
    requires s.Sized()
  {
    && (forall q :: 0 <= q < |s.tab.procs| ==> PidInv(s.tab.procs[q], q, s.books.pid[q], s.books.xstate[q], s.books))
    && (forall k :: k in s.books.home ==> k < s.books.nextPid)
    && (forall k :: k in s.books.exits ==> k in s.books.home)
    && (forall i :: 0 <= i < |s.books.reaps| ==> ReapInv(s.books.reaps[i], s))
    && forall i, j :: 0 <= i < j < |s.books.reaps| ==> s.books.reaps[i].pid != s.books.reaps[j].pid
  }

  predicate Inv(s: State) {
    s.Sized() && TableInv(s.tab) && BooksInv(s)
  }

  /** After userinit: init alone, with pid 1. */
  predicate Init(s: State) {
    && s.Sized() && s.tab.waitLock.None?
    && s.tab.procs[s.tab.init] == Proc(Runnable, User, None) && s.books.pid[s.tab.init] == 1
    && (forall q :: 0 <= q < |s.tab.procs| && q != s.tab.init ==> s.tab.procs[q] == Proc(Unused, Free, None))
    && s.books.nextPid == 2 && s.books.home == map[1 := s.tab.init]
    && s.books.exits == map[] && s.books.reaps == []
    && (forall q :: 0 <= q < |s.tab.procs| && q != s.tab.init ==> s.books.pid[q] == 0)
    && forall q :: 0 <= q < |s.tab.procs| ==> s.books.xstate[q] == 0 && !s.books.killed[q]
  }
}
