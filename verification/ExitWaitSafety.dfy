/** Every step of fork, exit, wait and kill keeps the invariant of the process table,
    and what follows for whole runs. */
module ExitWaitSafety {
  import opened Common
  import opened ExitWait

  // ----- the table -----

  lemma ForkOwn(t: Table, p: nat, np: nat)
    requires TableInv(t) && p < |t.procs|
    requires np < |t.procs| && t.procs[p].pc.User? && t.procs[np].st.Unused?
    ensures AllOwn(Forked(t, p, np))
  {
    var u := Forked(t, p, np);
    assert OwnInv(t, p) && FamilyInv(t, p) && OwnInv(t, np) && FamilyInv(t, np);
    forall q | 0 <= q < |u.procs| ensures OwnInv(u, q) { assert OwnInv(t, q) && FamilyInv(t, q); }
  }

  lemma ForkFamily(t: Table, p: nat, np: nat)
    requires TableInv(t) && p < |t.procs|
    requires np < |t.procs| && t.procs[p].pc.User? && t.procs[np].st.Unused?
    ensures AllFamilies(Forked(t, p, np))
  {
    var u := Forked(t, p, np);
    assert OwnInv(t, p) && FamilyInv(t, p) && OwnInv(t, np) && FamilyInv(t, np);
    forall q | 0 <= q < |u.procs| ensures FamilyInv(u, q) { assert OwnInv(t, q) && FamilyInv(t, q); }
  }

  lemma LinkOwn(t: Table, p: nat)
    requires TableInv(t) && p < |t.procs|
    requires t.procs[p].pc.Linking? && t.waitLock.None? && t.procs[p].pc.np < |t.procs|
    ensures AllOwn(Linked(t, p, t.procs[p].pc.np))
  {
    var u := Linked(t, p, t.procs[p].pc.np);
    assert OwnInv(t, p) && FamilyInv(t, p) && OwnInv(t, t.procs[p].pc.np) && FamilyInv(t, t.procs[p].pc.np);
    forall q | 0 <= q < |u.procs| ensures OwnInv(u, q) { assert OwnInv(t, q) && FamilyInv(t, q); }
  }

  lemma LinkFamily(t: Table, p: nat)
    requires TableInv(t) && p < |t.procs|
    requires t.procs[p].pc.Linking? && t.waitLock.None? && t.procs[p].pc.np < |t.procs|
    ensures AllFamilies(Linked(t, p, t.procs[p].pc.np))
  {
    var u := Linked(t, p, t.procs[p].pc.np);
    assert OwnInv(t, p) && FamilyInv(t, p) && OwnInv(t, t.procs[p].pc.np) && FamilyInv(t, t.procs[p].pc.np);
    forall q | 0 <= q < |u.procs| ensures FamilyInv(u, q) { assert OwnInv(t, q) && FamilyInv(t, q); }
  }

  lemma StartOwn(t: Table, p: nat)
    requires TableInv(t) && p < |t.procs|
    requires t.procs[p].pc.Starting? && t.procs[p].pc.np < |t.procs|
    ensures AllOwn(Started(t, p, t.procs[p].pc.np))
  {
    var u := Started(t, p, t.procs[p].pc.np);
    assert OwnInv(t, p) && FamilyInv(t, p) && OwnInv(t, t.procs[p].pc.np) && FamilyInv(t, t.procs[p].pc.np);
    forall q | 0 <= q < |u.procs| ensures OwnInv(u, q) { assert OwnInv(t, q) && FamilyInv(t, q); }
  }

  lemma StartFamily(t: Table, p: nat)
    requires TableInv(t) && p < |t.procs|
    requires t.procs[p].pc.Starting? && t.procs[p].pc.np < |t.procs|
    ensures AllFamilies(Started(t, p, t.procs[p].pc.np))
  {
    var u := Started(t, p, t.procs[p].pc.np);
    assert OwnInv(t, p) && FamilyInv(t, p) && OwnInv(t, t.procs[p].pc.np) && FamilyInv(t, t.procs[p].pc.np);
    forall q | 0 <= q < |u.procs| ensures FamilyInv(u, q) { assert OwnInv(t, q) && FamilyInv(t, q); }
  }

  lemma ExitKeeps(t: Table, p: nat, x: int)
    requires TableInv(t) && p < |t.procs|
    requires t.procs[p].pc.User? && p != t.init
    ensures TableInv(Move(t, p, Exiting(x)))
  {
    var u := Move(t, p, Exiting(x));
    assert OwnInv(t, p) && FamilyInv(t, p);
    forall q | 0 <= q < |u.procs| ensures OwnInv(u, q) && FamilyInv(u, q) { assert OwnInv(t, q) && FamilyInv(t, q); }
  }

  lemma WaitOwn(t: Table, p: nat)
    requires TableInv(t) && p < |t.procs|
    requires t.procs[p].pc.User? || (t.procs[p].pc.Down? && t.procs[p].st.Runnable?)
    ensures AllOwn(Move(t, p, Waiting))
  {
    var u := Move(t, p, Waiting);
    assert OwnInv(t, p) && FamilyInv(t, p);
    forall q | 0 <= q < |u.procs| ensures OwnInv(u, q) { assert OwnInv(t, q) && FamilyInv(t, q); }
  }

  lemma WaitFamily(t: Table, p: nat)
    requires TableInv(t) && p < |t.procs|
    requires t.procs[p].pc.User? || (t.procs[p].pc.Down? && t.procs[p].st.Runnable?)
    ensures AllFamilies(Move(t, p, Waiting))
  {
    var u := Move(t, p, Waiting);
    assert OwnInv(t, p) && FamilyInv(t, p);
    forall q | 0 <= q < |u.procs| ensures FamilyInv(u, q) { assert OwnInv(t, q) && FamilyInv(t, q); }
  }

  lemma LockKeeps(t: Table, p: nat)
    requires TableInv(t) && p < |t.procs|
    requires (t.procs[p].pc.Exiting? || t.procs[p].pc.Waiting?) && t.waitLock.None?
    ensures TableInv(Locked(t, p))
  {
    var u := Locked(t, p);
    assert OwnInv(t, p) && FamilyInv(t, p);
    forall q | 0 <= q < |u.procs| ensures OwnInv(u, q) && FamilyInv(u, q) { assert OwnInv(t, q) && FamilyInv(t, q); }
  }

  lemma HandOwn(t: Table, p: nat, x: int, j: nat)
    requires TableInv(t) && p < |t.procs|
    requires j < |t.procs| && t.procs[p].pc == Reparenting(x, j) && Is(t.procs[j].parent, p)
    ensures AllOwn(Handed(t, p, x, j))
  {
    var u := Handed(t, p, x, j);
    assert OwnInv(t, p) && FamilyInv(t, p) && OwnInv(t, j) && FamilyInv(t, j) && OwnInv(t, t.init)
           && FamilyInv(t, t.init);
    forall q | 0 <= q < |u.procs| ensures OwnInv(u, q) { assert OwnInv(t, q) && FamilyInv(t, q); }
  }

  lemma HandFamily(t: Table, p: nat, x: int, j: nat)
    requires TableInv(t) && p < |t.procs|
    requires j < |t.procs| && t.procs[p].pc == Reparenting(x, j) && Is(t.procs[j].parent, p)
    ensures AllFamilies(Handed(t, p, x, j))
  {
    var u := Handed(t, p, x, j);
    assert OwnInv(t, p) && FamilyInv(t, p) && OwnInv(t, j) && FamilyInv(t, j) && OwnInv(t, t.init)
           && FamilyInv(t, t.init);
    forall q | 0 <= q < |u.procs| ensures FamilyInv(u, q) { assert OwnInv(t, q) && FamilyInv(t, q); }
  }

  lemma PassKeeps(t: Table, p: nat, x: int, j: nat)
    requires TableInv(t) && p < |t.procs|
    requires t.procs[p].pc == Reparenting(x, j) && (j < |t.procs| ==> !Is(t.procs[j].parent, p))
    ensures TableInv(Reparented(t, p))
  {
    var u := Reparented(t, p);
    assert OwnInv(t, p) && FamilyInv(t, p);
    forall q | 0 <= q < |u.procs| ensures OwnInv(u, q) && FamilyInv(u, q) { assert OwnInv(t, q) && FamilyInv(t, q); }
  }

  lemma DieKeeps(t: Table, p: nat)
    requires TableInv(t) && p < |t.procs|
    requires t.procs[p].pc.Dying?
    ensures TableInv(Died(t, p))
  {
    var u := Died(t, p);
    assert OwnInv(t, p) && FamilyInv(t, p) && OwnInv(t, t.procs[p].parent.value)
           && FamilyInv(t, t.procs[p].parent.value);
    forall q | 0 <= q < |u.procs| ensures OwnInv(u, q) && FamilyInv(u, q) { assert OwnInv(t, q) && FamilyInv(t, q); }
  }

  lemma SwitchOwn(t: Table, p: nat)
    requires TableInv(t) && p < |t.procs|
    requires t.procs[p].pc.Switching? || t.procs[p].pc.Falling?
    ensures AllOwn(Switched(t, p))
  {
    var u := Switched(t, p);
    assert OwnInv(t, p) && FamilyInv(t, p);
    forall q | 0 <= q < |u.procs| ensures OwnInv(u, q) { assert OwnInv(t, q) && FamilyInv(t, q); }
  }

  lemma SwitchFamily(t: Table, p: nat)
    requires TableInv(t) && p < |t.procs|
    requires t.procs[p].pc.Switching? || t.procs[p].pc.Falling?
    ensures AllFamilies(Switched(t, p))
  {
    var u := Switched(t, p);
    assert OwnInv(t, p) && FamilyInv(t, p);
    forall q | 0 <= q < |u.procs| ensures FamilyInv(u, q) { assert OwnInv(t, q) && FamilyInv(t, q); }
  }

  lemma ScanKeeps(t: Table, p: nat)
    requires TableInv(t) && p < |t.procs|
    requires t.procs[p].pc.Scanning? && t.procs[p].pc.j < |t.procs|
    requires var c := t.procs[t.procs[p].pc.j]; Is(c.parent, p) ==> !c.st.Zombie?
    ensures TableInv(Scanned(t, p))
  {
    var u := Scanned(t, p);
    assert OwnInv(t, p) && FamilyInv(t, p) && OwnInv(t, t.procs[p].pc.j) && FamilyInv(t, t.procs[p].pc.j);
    forall q | 0 <= q < |u.procs| ensures OwnInv(u, q) && FamilyInv(u, q) { assert OwnInv(t, q) && FamilyInv(t, q); }
  }

  lemma ReapOwn(t: Table, p: nat, j: nat)
    requires TableInv(t) && p < |t.procs|
    requires j < |t.procs| && t.procs[p].pc.Scanning?
    requires Is(t.procs[j].parent, p) && t.procs[j].st.Zombie? && !HoldsOwnLock(t.procs[j].pc)
    ensures AllOwn(Reaped(t, p, j))
  {
    var u := Reaped(t, p, j);
    assert OwnInv(t, p) && FamilyInv(t, p) && OwnInv(t, j) && FamilyInv(t, j);
    forall q | 0 <= q < |u.procs| ensures OwnInv(u, q) { assert OwnInv(t, q) && FamilyInv(t, q); }
  }

  lemma ReapFamily(t: Table, p: nat, j: nat)
    requires TableInv(t) && p < |t.procs|
    requires j < |t.procs| && t.procs[p].pc.Scanning?
    requires Is(t.procs[j].parent, p) && t.procs[j].st.Zombie? && !HoldsOwnLock(t.procs[j].pc)
    ensures AllFamilies(Reaped(t, p, j))
  {
    var u := Reaped(t, p, j);
    assert OwnInv(t, p) && FamilyInv(t, p) && OwnInv(t, j) && FamilyInv(t, j);
    forall q | 0 <= q < |u.procs| ensures FamilyInv(u, q) { assert OwnInv(t, q) && FamilyInv(t, q); }
  }

  lemma ReturnKeeps(t: Table, p: nat)
    requires TableInv(t) && p < |t.procs|
    requires t.procs[p].pc.Scanning?
    ensures TableInv(Returned(t, p))
  {
    var u := Returned(t, p);
    assert OwnInv(t, p) && FamilyInv(t, p);
    forall q | 0 <= q < |u.procs| ensures OwnInv(u, q) && FamilyInv(u, q) { assert OwnInv(t, q) && FamilyInv(t, q); }
  }

  lemma SleepKeeps(t: Table, p: nat, kid: nat)
    requires TableInv(t) && p < |t.procs|
    requires t.procs[p].pc.Scanning? && t.procs[p].pc.j >= |t.procs| && Is(t.procs[p].pc.kid, kid)
    ensures TableInv(Slept(t, p, kid))
  {
    var u := Slept(t, p, kid);
    assert OwnInv(t, p) && FamilyInv(t, p);
    forall q | 0 <= q < |u.procs| ensures OwnInv(u, q) && FamilyInv(u, q) { assert OwnInv(t, q) && FamilyInv(t, q); }
  }

  lemma KillOwn(t: Table, p: nat)
    requires TableInv(t) && p < |t.procs|
    requires !HoldsOwnLock(t.procs[p].pc) && !t.procs[p].st.Unused?
    ensures AllOwn(Killed(t, p))
  {
    var u := Killed(t, p);
    assert OwnInv(t, p) && FamilyInv(t, p);
    forall q | 0 <= q < |u.procs| ensures OwnInv(u, q) { assert OwnInv(t, q) && FamilyInv(t, q); }
  }

  lemma KillFamily(t: Table, p: nat)
    requires TableInv(t) && p < |t.procs|
    requires !HoldsOwnLock(t.procs[p].pc) && !t.procs[p].st.Unused?
    ensures AllFamilies(Killed(t, p))
  {
    var u := Killed(t, p);
    assert OwnInv(t, p) && FamilyInv(t, p);
    forall q | 0 <= q < |u.procs| ensures FamilyInv(u, q) { assert OwnInv(t, q) && FamilyInv(t, q); }
  }

  lemma HandWakeOwn(t: Table, p: nat, k: nat, x: int, j: nat)
    requires TableInv(t) && p < |t.procs|
    requires k < |t.procs| && t.procs[p].pc == Handing(x, j) && k == t.init && !HoldsOwnLock(t.procs[k].pc)
    ensures AllOwn(Woken(t, p, k, Reparenting(x, j + 1)))
  {
    var u := Woken(t, p, k, Reparenting(x, j + 1));
    assert OwnInv(t, p) && FamilyInv(t, p) && OwnInv(t, k) && FamilyInv(t, k);
    forall q | 0 <= q < |u.procs| ensures OwnInv(u, q) { assert OwnInv(t, q) && FamilyInv(t, q); }
  }

  lemma HandWakeFamily(t: Table, p: nat, k: nat, x: int, j: nat)
    requires TableInv(t) && p < |t.procs|
    requires k < |t.procs| && t.procs[p].pc == Handing(x, j) && k == t.init && !HoldsOwnLock(t.procs[k].pc)
    ensures AllFamilies(Woken(t, p, k, Reparenting(x, j + 1)))
  {
    var u := Woken(t, p, k, Reparenting(x, j + 1));
    assert OwnInv(t, p) && FamilyInv(t, p) && OwnInv(t, k) && FamilyInv(t, k);
    forall q | 0 <= q < |u.procs| ensures FamilyInv(u, q) { assert OwnInv(t, q) && FamilyInv(t, q); }
  }

  lemma TellWakeOwn(t: Table, p: nat, k: nat, x: int)
    requires TableInv(t) && p < |t.procs|
    requires k < |t.procs| && t.procs[p].pc == Telling(x) && Is(t.procs[p].parent, k) && !HoldsOwnLock(t.procs[k].pc)
    ensures AllOwn(Woken(t, p, k, Dying(x)))
  {
    var u := Woken(t, p, k, Dying(x));
    assert OwnInv(t, p) && FamilyInv(t, p) && OwnInv(t, k) && FamilyInv(t, k);
    forall q | 0 <= q < |u.procs| ensures OwnInv(u, q) { assert OwnInv(t, q) && FamilyInv(t, q); }
  }

  lemma TellWakeFamily(t: Table, p: nat, k: nat, x: int)
    requires TableInv(t) && p < |t.procs|
    requires k < |t.procs| && t.procs[p].pc == Telling(x) && Is(t.procs[p].parent, k) && !HoldsOwnLock(t.procs[k].pc)
    ensures AllFamilies(Woken(t, p, k, Dying(x)))
  {
    var u := Woken(t, p, k, Dying(x));
    assert OwnInv(t, p) && FamilyInv(t, p) && OwnInv(t, k) && FamilyInv(t, k);
    forall q | 0 <= q < |u.procs| ensures FamilyInv(u, q) { assert OwnInv(t, q) && FamilyInv(t, q); }
  }

  lemma ReparentKeeps(t: Table, p: nat)
    requires TableInv(t) && p < |t.procs| && t.procs[p].pc.Reparenting?
    ensures TableInv(Reparented(t, p))
  {
    hide AllOwn, AllFamilies;
    var Reparenting(x, j) := t.procs[p].pc;
    if j < |t.procs| && Is(t.procs[j].parent, p) {
      HandOwn(t, p, x, j);
      HandFamily(t, p, x, j);
    } else {
      PassKeeps(t, p, x, j);
    }
  }

  lemma WakeupStep(s: State, p: nat)
    requires TableInv(s.tab) && Enabled(s, Wakeup(p))
    ensures TableInv(Do(s, Wakeup(p)).tab)
  {
    hide AllOwn, AllFamilies;
    var t := s.tab;
    var k, pc := Target(t, t.procs[p]).value, t.procs[p].pc;
    if pc.Handing? {
      HandWakeOwn(t, p, k, pc.x, pc.j);
      HandWakeFamily(t, p, k, pc.x, pc.j);
    } else {
      TellWakeOwn(t, p, k, pc.x);
      TellWakeFamily(t, p, k, pc.x);
    }
  }

  lemma ScanStep(s: State, p: nat, fault: bool)
    requires TableInv(s.tab) && Enabled(s, Scan(p, fault))
    ensures TableInv(Do(s, Scan(p, fault)).tab)
  {
    hide AllOwn, AllFamilies;
    var t, j := s.tab, s.tab.procs[p].pc.j;
    if !Is(t.procs[j].parent, p) || !t.procs[j].st.Zombie? {
      ScanKeeps(t, p);
    } else if fault {
      ReturnKeeps(t, p);
    } else {
      ReapOwn(t, p, j);
      ReapFamily(t, p, j);
    }
  }

  lemma StepKeepsTable(s: State, e: Event)
    requires TableInv(s.tab) && Enabled(s, e)
    ensures TableInv(Do(s, e).tab) && |Do(s, e).tab.procs| == |s.tab.procs|
  {
    hide AllOwn, AllFamilies;
    var t := s.tab;
    match e {
      case Fork(p, np) => ForkOwn(t, p, np); ForkFamily(t, p, np);
      case ForkFails(p) =>
      case Link(p) => LinkOwn(t, p); LinkFamily(t, p);
      case Start(p) => StartOwn(t, p); StartFamily(t, p);
      case CallExit(p, x) => ExitKeeps(t, p, x);
      case CallWait(p) => WaitOwn(t, p); WaitFamily(t, p);
      case Lock(p) => LockKeeps(t, p);
      case Reparent(p) => ReparentKeeps(t, p);
      case Wakeup(p) => WakeupStep(s, p);
      case Die(p) => DieKeeps(t, p);
      case Switch(p) => SwitchOwn(t, p); SwitchFamily(t, p);
      case Resume(p) => WaitOwn(t, p); WaitFamily(t, p);
      case Scan(p, fault) => ScanStep(s, p, fault);
      case Decide(p) =>
        var kid := t.procs[p].pc.kid;
        if kid.None? || s.books.killed[p] { ReturnKeeps(t, p); } else { SleepKeeps(t, p, kid.value); }
      case Kill(p) => KillOwn(t, p); KillFamily(t, p);
    }
  }

  lemma SlotOf(t: Table, q: nat)
    requires TableInv(t) && q < |t.procs|
    ensures OwnInv(t, q) && FamilyInv(t, q)
  {}

  // ----- the books -----

  /** Slots keep their owner, and stay zombies or not. */
  predicate SameFlags(t: Table, u: Table) {
    && |t.procs| == |u.procs|
    && forall q :: 0 <= q < |t.procs| ==>
         (t.procs[q].st.Unused? <==> u.procs[q].st.Unused?) && (t.procs[q].st.Zombie? <==> u.procs[q].st.Zombie?)
  }

  lemma QuietBooks(s: State, u: State)
    requires s.Sized() && BooksInv(s) && u.Sized() && SameFlags(s.tab, u.tab)
    requires u.books == s.books.(killed := u.books.killed)
    ensures BooksInv(u)
  {
    forall q | 0 <= q < |u.tab.procs| ensures PidInv(u.tab.procs[q], q, u.books.pid[q], u.books.xstate[q], u.books) {
      assert PidInv(s.tab.procs[q], q, s.books.pid[q], s.books.xstate[q], s.books);
    }
    forall i | 0 <= i < |u.books.reaps| ensures ReapInv(u.books.reaps[i], u) {
      assert ReapInv(s.books.reaps[i], s);
    }
  }

  lemma ForkBooks(s: State, p: nat, np: nat)
    requires Inv(s) && Enabled(s, Fork(p, np))
    ensures BooksInv(Do(s, Fork(p, np)))
  {
    hide TableInv;
    var u := Do(s, Fork(p, np));
    forall q | 0 <= q < |u.tab.procs| ensures PidInv(u.tab.procs[q], q, u.books.pid[q], u.books.xstate[q], u.books) {
      assert PidInv(s.tab.procs[q], q, s.books.pid[q], s.books.xstate[q], s.books);
    }
    forall i | 0 <= i < |u.books.reaps| ensures ReapInv(u.books.reaps[i], u) {
      assert ReapInv(s.books.reaps[i], s);
    }
  }

  lemma DieBooks(s: State, p: nat)
    requires Inv(s) && Enabled(s, Die(p))
    ensures BooksInv(Do(s, Die(p)))
  {
    SlotOf(s.tab, p);
    hide TableInv;
    var u := Do(s, Die(p));
    assert PidInv(s.tab.procs[p], p, s.books.pid[p], s.books.xstate[p], s.books);
    forall q | 0 <= q < |u.tab.procs| ensures PidInv(u.tab.procs[q], q, u.books.pid[q], u.books.xstate[q], u.books) {
      assert PidInv(s.tab.procs[q], q, s.books.pid[q], s.books.xstate[q], s.books);
    }
    forall i | 0 <= i < |u.books.reaps| ensures ReapInv(u.books.reaps[i], u) {
      assert ReapInv(s.books.reaps[i], s);
    }
  }

  lemma ReapBooks(s: State, p: nat)
    requires Inv(s) && Enabled(s, Scan(p, false))
    requires Is(s.tab.procs[s.tab.procs[p].pc.j].parent, p) && s.tab.procs[s.tab.procs[p].pc.j].st.Zombie?
    ensures BooksInv(Do(s, Scan(p, false)))
  {
    hide TableInv;
    var u, j := Do(s, Scan(p, false)), s.tab.procs[p].pc.j;
    assert PidInv(s.tab.procs[j], j, s.books.pid[j], s.books.xstate[j], s.books);
    forall q | 0 <= q < |u.tab.procs| ensures PidInv(u.tab.procs[q], q, u.books.pid[q], u.books.xstate[q], u.books) {
      assert PidInv(s.tab.procs[q], q, s.books.pid[q], s.books.xstate[q], s.books);
    }
    forall i | 0 <= i < |u.books.reaps| ensures ReapInv(u.books.reaps[i], u) {
      if i < |s.books.reaps| { assert ReapInv(s.books.reaps[i], s); }
    }
  }

  predicate SameFlag(a: Proc, b: Proc) {
    (a.st.Unused? <==> b.st.Unused?) && (a.st.Zombie? <==> b.st.Zombie?)
  }

  lemma SetFlags(t: Table, p: nat, a: Proc)
    requires p < |t.procs| && SameFlag(t.procs[p], a)
    ensures SameFlags(t, Set(t, p, a)) && forall w :: SameFlags(t, Set(t, p, a).(waitLock := w))
  {}

  lemma SetTwoFlags(t: Table, k: nat, a: Proc, p: nat, pc: Pc)
    requires p < |t.procs| && k < |t.procs| && SameFlag(t.procs[k], a)
    ensures SameFlags(t, Move(Set(t, k, a), p, pc))
  {}

  /** No step but allocation, death and reaping changes who is UNUSED or a ZOMBIE. */
  lemma FlagsKept(s: State, e: Event)
    requires TableInv(s.tab) && Enabled(s, e) && !e.Fork? && !e.Die?
    requires e.Scan? && !e.fault ==>
               var j := s.tab.procs[e.p].pc.j; !(Is(s.tab.procs[j].parent, e.p) && s.tab.procs[j].st.Zombie?)
    ensures SameFlags(s.tab, Do(s, e).tab)
  {
    hide TableInv, FamilyInv, KidInv, SelfInv, SameFlags, Set;
    var t, p := s.tab, e.p;
    SlotOf(t, p);
    SelfFlags(t, p);
    var a := t.procs[p];
    if e.Link? {
      SetTwoFlags(t, a.pc.np, t.procs[a.pc.np].(parent := Some(p)), p, Starting(a.pc.np));
    } else if e.Start? {
      SetTwoFlags(t, a.pc.np, t.procs[a.pc.np].(st := Runnable, pc := User), p, User);
    } else if e.Reparent? {
      ReparentFlags(t, p);
    } else if e.Wakeup? {
      var k := Target(t, a).value;
      SetTwoFlags(t, k, Rouse(t.procs[k]), p, if a.pc.Handing? then Reparenting(a.pc.x, a.pc.j + 1) else Dying(a.pc.x));
    } else {
      OneMoves(s, e);
      SetFlags(t, p, Do(s, e).tab.procs[p]);
    }
  }

  lemma SelfFlags(t: Table, p: nat)
    requires p < |t.procs| && OwnInv(t, p)
    ensures var a := t.procs[p];
            && (a.pc.Falling? ==> a.st.Runnable?)
            && (a.pc.Starting? ==> a.pc.np < |t.procs| && t.procs[a.pc.np].st.Used?)
  {}

  lemma SameSet(t: Table, p: nat)
    requires p < |t.procs|
    ensures Set(t, p, t.procs[p]) == t
  {}

  lemma ReparentFlags(t: Table, p: nat)
    requires p < |t.procs| && t.procs[p].pc.Reparenting?
    ensures SameFlags(t, Reparented(t, p))
  {}

  /** The steps that touch one slot, and with it perhaps wait_lock. */
  lemma OneMoves(s: State, e: Event)
    requires Enabled(s, e) && !e.Fork? && !e.Link? && !e.Start? && !e.Reparent? && !e.Wakeup? && !e.Die?
    requires s.tab.procs[e.p].pc.Falling? ==> s.tab.procs[e.p].st.Runnable?
    requires e.Scan? && !e.fault ==>
               var j := s.tab.procs[e.p].pc.j; !(Is(s.tab.procs[j].parent, e.p) && s.tab.procs[j].st.Zombie?)
    ensures var t := Do(s, e).tab;
            && |t.procs| == |s.tab.procs| && t == Set(s.tab, e.p, t.procs[e.p]).(waitLock := t.waitLock)
            && SameFlag(s.tab.procs[e.p], t.procs[e.p])
  {
    SameSet(s.tab, e.p);
  }

  lemma StepKeepsBooks(s: State, e: Event)
    requires Inv(s) && Enabled(s, e)
    ensures Do(s, e).Sized() && BooksInv(Do(s, e))
  {
    hide TableInv, BooksInv;
    match e {
      case Fork(p, np) => ForkBooks(s, p, np);
      case ForkFails(p) => NextPidBooks(s, p);
      case Die(p) => DieBooks(s, p);
      case Scan(p, fault) =>
        var j := s.tab.procs[p].pc.j;
        if !fault && Is(s.tab.procs[j].parent, p) && s.tab.procs[j].st.Zombie? {
          ReapBooks(s, p);
        } else {
          FlagsKept(s, e);
          QuietBooks(s, Do(s, e));
        }
      case _ =>
        FlagsKept(s, e);
        QuietBooks(s, Do(s, e));
    }
  }

  lemma NextPidBooks(s: State, p: nat)
    requires Inv(s) && Enabled(s, ForkFails(p))
    ensures BooksInv(Do(s, ForkFails(p)))
  {
    hide TableInv;
    var u := Do(s, ForkFails(p));
    forall q | 0 <= q < |u.tab.procs| ensures PidInv(u.tab.procs[q], q, u.books.pid[q], u.books.xstate[q], u.books) {
      assert PidInv(s.tab.procs[q], q, s.books.pid[q], s.books.xstate[q], s.books);
    }
    forall i | 0 <= i < |u.books.reaps| ensures ReapInv(u.books.reaps[i], u) {
      assert ReapInv(s.books.reaps[i], s);
    }
  }

  lemma StepKeepsInv(s: State, e: Event)
    requires Inv(s) && Enabled(s, e)
    ensures Inv(Do(s, e))
  {
    hide AllOwn, AllFamilies, BooksInv, Enabled, Do;
    StepKeepsBooks(s, e);
    StepKeepsTable(s, e);
  }

  lemma InitInv(s: State)
    requires Init(s)
    ensures Inv(s)
  {
    forall q | 0 <= q < |s.tab.procs| ensures OwnInv(s.tab, q) && FamilyInv(s.tab, q) {}
    forall q | 0 <= q < |s.tab.procs| ensures PidInv(s.tab.procs[q], q, s.books.pid[q], s.books.xstate[q], s.books) {}
  }

  // ----- whole runs -----

  predicate Runs(s: State, es: Schedule<Event>, t: State)
    decreases es
  {
    match es
    case Stop => s == t
    case Then(e, rest) => Enabled(s, e) && Runs(Do(s, e), rest, t)
  }

  lemma {:induction false} RunKeepsInv(s: State, es: Schedule<Event>, t: State)
    requires Inv(s) && Runs(s, es, t)
    ensures Inv(t)
    decreases es
  {
    hide Inv, Enabled, Do;
    if es.Then? {
      StepKeepsInv(s, es.event);
      RunKeepsInv(Do(s, es.event), es.rest, t);
    }
  }

  lemma ReachedSlot(s: State, es: Schedule<Event>, t: State, q: nat)
    requires Init(s) && Runs(s, es, t) && q < |t.tab.procs|
    ensures Inv(t) && OwnInv(t.tab, q) && FamilyInv(t.tab, q)
  {
    hide Runs, Init, BooksInv, AllOwn, AllFamilies, OwnInv, FamilyInv;
    InitInv(s);
    RunKeepsInv(s, es, t);
    SlotOf(t.tab, q);
  }

  /** In every reachable state a parent is alive, neither ZOMBIE nor UNUSED, and every
      live or zombie process but init has one: no zombie is beyond reach of wait. */
  lemma ParentsAlive(s: State, es: Schedule<Event>, t: State, q: nat)
    requires Init(s) && Runs(s, es, t) && q < |t.tab.procs|
    ensures var c := t.tab.procs[q];
      && (c.parent.Some? ==> c.parent.value < |t.tab.procs| && Live(t.tab.procs[c.parent.value]))
      && (q != t.tab.init && (Live(c) || c.st.Zombie?) ==> c.parent.Some?)
  {
    hide Runs, Init, BooksInv, TableInv;
    ReachedSlot(s, es, t, q);
  }

  /** Whenever wait_lock is free, a process asleep in wait, or past the release inside
      sleep, has a child, and none of its children is a zombie. */
  lemma NoSleepOverZombie(s: State, es: Schedule<Event>, t: State, p: nat, q: nat)
    requires Init(s) && Runs(s, es, t) && p < |t.tab.procs| && q < |t.tab.procs|
    requires t.tab.waitLock.None? && Sleepy(t.tab.procs[p])
    ensures Is(t.tab.procs[q].parent, p) ==> !t.tab.procs[q].st.Zombie?
    ensures exists c :: IsChild(t.tab.procs, c, p)
  {
    hide Runs, Init, BooksInv, TableInv;
    ReachedSlot(s, es, t, p);
    ReachedSlot(s, es, t, q);
    assert IsChild(t.tab.procs, t.tab.procs[p].pc.child, p);
  }

  /** Over a whole run no pid is returned by wait twice, and each comes with the status
      its exit left. */
  lemma ReapedOnce(s: State, es: Schedule<Event>, t: State)
    requires Init(s) && Runs(s, es, t)
    ensures forall i, j :: 0 <= i < j < |t.books.reaps| ==> t.books.reaps[i].pid != t.books.reaps[j].pid
    ensures forall i :: 0 <= i < |t.books.reaps| ==>
              t.books.reaps[i].pid in t.books.exits && t.books.exits[t.books.reaps[i].pid] == t.books.reaps[i].status
  {
    hide Runs, Init, TableInv;
    InitInv(s);
    RunKeepsInv(s, es, t);
    forall i | 0 <= i < |t.books.reaps|
      ensures t.books.reaps[i].pid in t.books.exits && t.books.exits[t.books.reaps[i].pid] == t.books.reaps[i].status
    {
      assert ReapInv(t.books.reaps[i], t);
    }
  }

  /** Step e takes the zombie in slot j out of the table for its parent. */
  predicate ReapsChild(t: State, e: Event, j: nat)
    requires Enabled(t, e)
  {
    && e.Scan? && j < |t.tab.procs| && Is(t.tab.procs[j].parent, e.p) && t.tab.procs[j].st.Zombie?
    && Do(t, e).books.reaps == t.books.reaps + [Reap(t.books.pid[j], t.books.xstate[j], e.p)]
    && j < |Do(t, e).tab.procs| && Do(t, e).tab.procs[j].st.Unused?
    && t.books.pid[j] in t.books.exits && t.books.exits[t.books.pid[j]] == t.books.xstate[j]
  }

  /** Only the parent that a zombie has at that moment collects it. */
  lemma ReapedByParent(s: State, es: Schedule<Event>, t: State, e: Event)
    requires Init(s) && Runs(s, es, t) && Enabled(t, e)
    ensures Do(t, e).books.reaps == t.books.reaps || exists j :: ReapsChild(t, e, j)
  {
    hide Runs, Init, TableInv;
    if e.Scan? {
      var p, j := e.p, t.tab.procs[e.p].pc.j;
      ReachedSlot(s, es, t, p);
      ReachedSlot(s, es, t, j);
      assert PidInv(t.tab.procs[j], j, t.books.pid[j], t.books.xstate[j], t.books);
      if !e.fault && Is(t.tab.procs[j].parent, p) && t.tab.procs[j].st.Zombie? {
        ReapDiffers(t, p, j);
        assert ReapsChild(t, e, j);
      }
    }
  }

  /** A process in wait is no zombie, so the slot freed is not the reaper's own. */
  lemma ReapDiffers(t: State, p: nat, j: nat)
    requires p < |t.tab.procs| && j < |t.tab.procs| && OwnInv(t.tab, p) && OwnInv(t.tab, j)
    requires t.tab.procs[p].pc.Scanning? && t.tab.procs[j].st.Zombie?
    ensures p != j
  {}

  /** wait gives up or sleeps on the right ground: havekids is set exactly if there is a child. */
  lemma HaveKidsExact(s: State, es: Schedule<Event>, t: State, p: nat)
    requires Init(s) && Runs(s, es, t) && Enabled(t, Decide(p))
    ensures t.tab.procs[p].pc.kid.Some? <==> exists c :: IsChild(t.tab.procs, c, p)
  {
    hide Runs, Init, BooksInv, TableInv;
    ReachedSlot(s, es, t, p);
    if t.tab.procs[p].pc.kid.Some? {
      assert IsChild(t.tab.procs, t.tab.procs[p].pc.kid.value, p);
    } else if c :| IsChild(t.tab.procs, c, p) {
      ReachedSlot(s, es, t, c);
    }
  }

  // ----- a zombie's parent can always collect it -----

  /** Every step of es is one of process p, and no kill. */
  predicate OnlyBy(es: Schedule<Event>, p: nat) {
    es.Then? ==> !es.event.Kill? && es.event.p == p && OnlyBy(es.rest, p)
  }

  /** Slot q holds a zombie child of p, and no child of p is still being switched out. */
  predicate Collectable(t: Table, p: nat, q: nat) {
    && q < |t.procs| && Is(t.procs[q].parent, p) && t.procs[q].st.Zombie?
    && forall c :: 0 <= c < |t.procs| && Is(t.procs[c].parent, p) ==> !HoldsOwnLock(t.procs[c].pc)
  }

  predicate ZombieChild(t: Table, p: nat, c: nat) {
    c < |t.procs| && Is(t.procs[c].parent, p) && t.procs[c].st.Zombie?
  }

  /** From s to t, p collected the zombie child in slot k and returned from wait. */
  predicate Collected(s: State, t: State, p: nat, k: nat) {
    && s.Sized() && p < |s.tab.procs| && ZombieChild(s.tab, p, k)
    && t.books.reaps == s.books.reaps + [Reap(s.books.pid[k], s.books.xstate[k], p)]
    && |t.tab.procs| == |s.tab.procs| && t.tab.procs[k] == Proc(Unused, Free, None)
    && t.tab.procs[p].pc.User? && t.tab.waitLock.None?
  }

  lemma {:induction false} ScanFinds(s: State, p: nat, q: nat) returns (es: Schedule<Event>, t: State)
    requires s.Sized() && p < |s.tab.procs| && !s.tab.procs[p].st.Zombie? && Collectable(s.tab, p, q)
    requires s.tab.procs[p].pc.Scanning? && s.tab.procs[p].pc.j <= q
    ensures Runs(s, es, t) && OnlyBy(es, p)
    ensures exists k: nat :: k <= q && Collected(s, t, p, k)
    decreases q - s.tab.procs[p].pc.j
  {
    var e, j := Scan(p, false), s.tab.procs[p].pc.j;
    var m := Do(s, e);
    if Is(s.tab.procs[j].parent, p) && s.tab.procs[j].st.Zombie? {
      es, t := Then(e, Stop), m;
      assert Runs(m, Stop, t) && OnlyBy(Stop, p);
      assert Collected(s, t, p, j);
    } else {
      ScanKeepsFamily(s, p, q);
      var fs;
      fs, t := ScanFinds(m, p, q);
      es := Then(e, fs);
      var k: nat :| k <= q && Collected(m, t, p, k);
      assert Collected(s, t, p, k);
    }
  }

  lemma ScanKeepsFamily(s: State, p: nat, q: nat)
    requires s.Sized() && p < |s.tab.procs| && Collectable(s.tab, p, q)
    requires s.tab.procs[p].pc.Scanning? && s.tab.procs[p].pc.j < |s.tab.procs|
    ensures var m := Scanned(s.tab, p);
            |m.procs| == |s.tab.procs| && m.procs[p].pc.Scanning? && m.procs[p].pc.j == s.tab.procs[p].pc.j + 1
            && Collectable(m, p, q)
  {}

  /** A parent inside wait collects a zombie child, with its pid and status, and returns by
      its own steps alone as soon as wait_lock is free and its children are switched out. */
  lemma ZombieCanBeReaped(s: State, es: Schedule<Event>, t: State, p: nat, q: nat)
    returns (fs: Schedule<Event>, u: State)
    requires Init(s) && Runs(s, es, t) && p < |t.tab.procs| && Collectable(t.tab, p, q)
    requires t.tab.waitLock.None? && (t.tab.procs[p].pc.Waiting? || t.tab.procs[p].pc.Down?)
    ensures Runs(t, fs, u) && OnlyBy(fs, p)
    ensures exists k: nat :: k <= q && Collected(t, u, p, k)
  {
    hide Init, BooksInv, TableInv, ForkInv, KidInv;
    ReachedSlot(s, es, t, q);
    ReachedSlot(s, es, t, p);
    var t1 := if t.tab.procs[p].pc.Down? then Do(t, Resume(p)) else t;
    var t2 := Do(t1, Lock(p));
    var gs;
    gs, u := ScanFinds(t2, p, q);
    var hs := Then(Lock(p), gs);
    assert Runs(t1, hs, u) && OnlyBy(hs, p);
    fs := if t.tab.procs[p].pc.Down? then Then(Resume(p), hs) else hs;
    var k: nat :| k <= q && Collected(t2, u, p, k);
    assert Collected(t, u, p, k);
  }
}
