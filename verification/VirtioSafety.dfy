/** Every step of driver, device and interrupt handler keeps the protocol's invariant. */
module VirtioSafety {
  import opened Common
  import opened VirtioDisk

  // ----- at most two requests are in flight -----

  lemma Below8(ds: set<nat>)
    requires forall d :: d in ds ==> d < NUM
    ensures |ds| <= NUM
  {
    Subset(ds, {0, 1, 2, 3, 4, 5, 6, 7});
  }

  lemma {:induction false} Subset(a: set<nat>, b: set<nat>)
    requires a <= b
    ensures |a| <= |b|
    decreases a
  {
    if a != {} {
      var x :| x in a;
      Subset(a - {x}, b - {x});
    }
  }

  function Descs(c: Chain): set<nat> {
    {c.head, c.data, c.status}
  }

  lemma ThreeChains(x: Chain, y: Chain, z: Chain)
    requires ChainOk(x) && ChainOk(y) && ChainOk(z)
    ensures !(Descs(x) !! Descs(y)) || !(Descs(y) !! Descs(z)) || !(Descs(x) !! Descs(z))
  {
    var all := Descs(x) + Descs(y) + Descs(z);
    Below8(all);
    ChainSize(x);
    ChainSize(y);
    ChainSize(z);
  }

  lemma ChainSize(c: Chain)
    requires ChainOk(c)
    ensures |Descs(c)| == 3
  {}

  /** Chains of different requests are disjoint. */
  lemma ChainsDisjoint(s: State, p: nat, q: nat)
    requires Inv(s) && p < |s.procs| && q < |s.procs| && p != q && s.procs[p].Busy? && s.procs[q].Busy?
    ensures ChainOk(s.procs[p].chain) && ChainOk(s.procs[q].chain) && Descs(s.procs[p].chain) !! Descs(s.procs[q].chain)
  {
    assert ChainInv(s, p) && ChainInv(s, q);
  }

  /** Eight descriptors, three for each request: at most two requests are in flight. */
  lemma AtMostTwo(s: State, p: nat, q: nat, r: nat)
    requires Inv(s) && p < |s.procs| && q < |s.procs| && r < |s.procs|
    requires s.procs[p].Busy? && s.procs[q].Busy? && s.procs[r].Busy?
    ensures p == q || q == r || p == r
  {
    hide Inv, Descs, ChainOk;
    if p != q && q != r && p != r {
      ChainsDisjoint(s, p, q);
      ChainsDisjoint(s, q, r);
      ChainsDisjoint(s, p, r);
      ThreeChains(s.procs[p].chain, s.procs[q].chain, s.procs[r].chain);
    }
  }

  /** So the rings never fill up: at most two entries are outstanding in each, and at most
      one avail entry while another request is being put in. */
  lemma RingsShort(s: State)
    requires Inv(s)
    ensures |s.past.asked| <= s.past.fetched + (if s.lock.Some? then 1 else 2)
    ensures |s.past.answered| <= s.past.acked + 2
  {
    var n, m := |s.past.asked|, |s.past.answered|;
    if n > s.past.fetched + 1 {
      assert AskedInv(s, n - 1) && AskedInv(s, n - 2);
      if n > s.past.fetched + 2 {
        assert AskedInv(s, n - 3);
        AtMostTwo(s, s.past.asked[n - 1], s.past.asked[n - 2], s.past.asked[n - 3]);
      }
      if s.lock.Some? {
        assert PhaseInv(s, s.lock.value);
        AtMostTwo(s, s.past.asked[n - 1], s.past.asked[n - 2], s.lock.value);
      }
    }
    if m > s.past.acked + 2 {
      assert AnsweredInv(s, m - 1) && AnsweredInv(s, m - 2) && AnsweredInv(s, m - 3);
      AtMostTwo(s, s.past.answered[m - 1], s.past.answered[m - 2], s.past.answered[m - 3]);
    }
  }

  // ----- 16-bit indices -----

  lemma Wrap(a: nat, k: nat)
    requires k <= a <= k + 2
    ensures a % U16 == k % U16 <==> a == k
    ensures k < a ==> a % NUM != k % NUM
  {}

  /** NUM divides 2^16, so wrapping keeps the slot. */
  lemma Slot(a: nat)
    ensures a % U16 % NUM == a % NUM && (a % U16 + 1) % U16 == (a + 1) % U16
  {
    ModMultiple(NUM, 8192 * (a / U16), a % U16);
    assert a == 8 * (8192 * (a / U16)) + a % U16;
  }

  // ----- the steps -----

  lemma Of(s: State, p: nat)
    requires Inv(s) && p < |s.procs|
    ensures ChainInv(s, p) && PhaseInv(s, p) && LogInv(s, p)
  {}

  lemma CallKeeps(s: State, p: nat, op: Op)
    requires Inv(s) && Enabled(s, Call(p, op))
    ensures Inv(Do(s, Call(p, op)))
  {
    var u := Do(s, Call(p, op));
    forall q | 0 <= q < |u.procs| ensures ChainInv(u, q) && PhaseInv(u, q) && LogInv(u, q) { Of(s, q); }
    forall d | 0 <= d < NUM ensures DescInv(u, d) { assert DescInv(s, d); }
    EntriesKept(s, u);
  }

  /** Entries whose requests stay where they are keep their meaning. */
  lemma EntriesKept(s: State, u: State)
    requires AllEntries(s) && u.past.asked == s.past.asked && u.past.answered == s.past.answered && u.inside == s.inside
    requires u.past.fetched == s.past.fetched && u.past.acked == s.past.acked && |u.procs| == |s.procs|
    requires forall q :: 0 <= q < |s.procs| && s.procs[q].Busy? && !s.procs[q].phase.Acked? ==> u.procs[q] == s.procs[q]
    ensures AllEntries(u)
  {
    forall k | 0 <= k < |u.past.asked| ensures AskedInv(u, k) { assert AskedInv(s, k); }
    forall k | 0 <= k < |u.past.answered| ensures AnsweredInv(u, k) { assert AnsweredInv(s, k); }
    forall h | h in u.inside ensures InsideInv(u, h) { assert InsideInv(s, h); }
  }

  lemma AllocChains(s: State, p: nat, c: Chain)
    requires Inv(s) && Enabled(s, Alloc(p, c))
    ensures var u := Filling(s, p, c); AllChains(u) && AllLogged(u)
  {
    hide PhaseInv;
    var u := Filling(s, p, c);
    assert DescInv(s, c.head) && DescInv(s, c.data) && DescInv(s, c.status);
    forall q | 0 <= q < |u.procs| ensures ChainInv(u, q) && LogInv(u, q) { assert ChainInv(s, q) && LogInv(s, q); }
  }

  lemma AllocPhases(s: State, p: nat, c: Chain)
    requires Inv(s) && Enabled(s, Alloc(p, c))
    ensures AllPhases(Filling(s, p, c))
  {
    hide LogInv;
    var u := Filling(s, p, c);
    RingsShort(s);
    Slot(|s.past.asked|);
    assert DescInv(s, c.head) && PhaseInv(s, p);
    if c.head in s.inside { InsideOwner(s, c.head); }
    forall q | 0 <= q < |u.procs| ensures PhaseInv(u, q) {
      assert PhaseInv(s, q) && ChainInv(s, q);
      if s.procs[q].Busy? && s.procs[q].phase.Queued? { Wrap(|s.past.asked|, s.procs[q].phase.k); }
    }
  }

  lemma AllocKeeps(s: State, p: nat, c: Chain)
    requires Inv(s) && Enabled(s, Alloc(p, c))
    ensures Inv(Do(s, Alloc(p, c)))
  {
    hide AllChains, AllPhases, AllLogged;
    AllocChains(s, p, c);
    AllocPhases(s, p, c);
    var u := Do(s, Alloc(p, c));
    forall d | 0 <= d < NUM ensures DescInv(u, d) { assert DescInv(s, d); }
    EntriesKept(s, u);
  }

  lemma PublishKeeps(s: State, p: nat)
    requires Inv(s) && Enabled(s, Publish(p))
    ensures Inv(Do(s, Publish(p)))
  {
    Of(s, p);
    Slot(|s.past.asked|);
    var u := Do(s, Publish(p));
    forall q | 0 <= q < |u.procs| ensures ChainInv(u, q) && PhaseInv(u, q) && LogInv(u, q) { Of(s, q); }
    forall d | 0 <= d < NUM ensures DescInv(u, d) { assert DescInv(s, d); }
    forall k | 0 <= k < |u.past.asked| ensures AskedInv(u, k) { assert k < |s.past.asked| ==> AskedInv(s, k); }
    forall k | 0 <= k < |u.past.answered| ensures AnsweredInv(u, k) { assert AnsweredInv(s, k); }
    forall h | h in u.inside ensures InsideInv(u, h) { assert InsideInv(s, h); }
  }

  /** The device finds the request that was queued first. */
  lemma NextAsked(s: State) returns (p: nat)
    requires Inv(s) && s.seen != s.availIdx
    ensures s.past.fetched < |s.past.asked| && p == s.past.asked[s.past.fetched] && p < |s.procs|
    ensures s.procs[p].Busy? && s.procs[p].phase == Queued(s.past.fetched)
    ensures s.avail[s.seen % NUM] == s.procs[p].chain.head && Owner(s, s.procs[p].chain.head) == Some(p)
  {
    RingsShort(s);
    Wrap(|s.past.asked|, s.past.fetched);
    Slot(s.past.fetched);
    assert AskedInv(s, s.past.fetched);
    p := s.past.asked[s.past.fetched];
    Of(s, p);
  }

  lemma FetchPhases(s: State)
    requires Inv(s) && Enabled(s, Fetch)
    ensures Sized(Do(s, Fetch)) && AllPhases(Do(s, Fetch))
  {
    hide LogInv;
    var p := NextAsked(s);
    Of(s, p);
    Slot(s.past.fetched);
    var u := Do(s, Fetch);
    forall q | 0 <= q < |u.procs| ensures PhaseInv(u, q) {
      assert PhaseInv(s, q) && ChainInv(s, q);
      if q != p && s.procs[q].Busy? { ChainsDisjoint(s, p, q); }
    }
  }

  lemma FetchKeeps(s: State)
    requires Inv(s) && Enabled(s, Fetch)
    ensures Inv(Do(s, Fetch))
  {
    FetchPhases(s);
    var p := NextAsked(s);
    Of(s, p);
    Slot(s.past.fetched);
    var u := Do(s, Fetch);
    hide AllPhases;
    forall q | 0 <= q < |u.procs| ensures ChainInv(u, q) && LogInv(u, q) { Of(s, q); }
    forall d | 0 <= d < NUM ensures DescInv(u, d) { assert DescInv(s, d); }
    forall k | 0 <= k < |u.past.asked| ensures AskedInv(u, k) { assert AskedInv(s, k); }
    forall k | 0 <= k < |u.past.answered| ensures AnsweredInv(u, k) { assert AnsweredInv(s, k); }
    forall h | h in u.inside ensures InsideInv(u, h) { assert h in s.inside ==> InsideInv(s, h); }
  }

  /** What the device works on is a request in flight. */
  lemma InsideOwner(s: State, h: nat)
    requires Inv(s) && h in s.inside
    ensures var p := s.inside[h];
            && p < |s.procs| && s.procs[p].Busy? && s.procs[p].phase.Fetched? && s.procs[p].chain.head == h < NUM
            && Owner(s, h) == Some(p) && s.ops[h] == s.procs[p].op
  {
    assert InsideInv(s, h) && ChainInv(s, s.inside[h]);
  }

  lemma CompletePhases(s: State, h: nat)
    requires Inv(s) && Enabled(s, Complete(h))
    ensures AllPhases(Completing(s, h))
  {
    hide LogInv;
    InsideOwner(s, h);
    RingsShort(s);
    Slot(|s.past.answered|);
    var u, p := Completing(s, h), s.inside[h];
    assert PhaseInv(s, p);
    forall q | 0 <= q < |u.procs| ensures PhaseInv(u, q) {
      assert PhaseInv(s, q) && ChainInv(s, q);
      if q != p && s.procs[q].Busy? {
        ChainsDisjoint(s, p, q);
        if s.procs[q].phase.Used? { Wrap(|s.past.answered|, s.procs[q].phase.k); }
      }
    }
  }

  lemma CompleteKeeps(s: State, h: nat)
    requires Inv(s) && Enabled(s, Complete(h))
    ensures Inv(Do(s, Complete(h)))
  {
    CompletePhases(s, h);
    InsideOwner(s, h);
    Slot(|s.past.answered|);
    var u, p := Do(s, Complete(h)), s.inside[h];
    Of(s, p);
    hide AllPhases;
    forall q | 0 <= q < |u.procs| ensures ChainInv(u, q) && LogInv(u, q) { Of(s, q); }
    forall d | 0 <= d < NUM ensures DescInv(u, d) { assert DescInv(s, d); }
    forall k | 0 <= k < |u.past.asked| ensures AskedInv(u, k) { assert AskedInv(s, k); }
    forall k | 0 <= k < |u.past.answered| ensures AnsweredInv(u, k) {
      assert k < |s.past.answered| ==> AnsweredInv(s, k);
    }
    forall g | g in u.inside ensures InsideInv(u, g) { assert InsideInv(s, g); }
  }

  /** The handler finds the request that the device finished first. */
  lemma NextAnswered(s: State) returns (p: nat)
    requires Inv(s) && s.usedSeen != s.usedIdx
    ensures s.past.acked < |s.past.answered| && p == s.past.answered[s.past.acked] && p < |s.procs|
    ensures s.procs[p].Busy? && s.procs[p].phase == Used(s.past.acked)
    ensures s.used[s.usedSeen % NUM] == s.procs[p].chain.head && Owner(s, s.procs[p].chain.head) == Some(p)
  {
    RingsShort(s);
    Wrap(|s.past.answered|, s.past.acked);
    Slot(s.past.acked);
    assert AnsweredInv(s, s.past.acked);
    p := s.past.answered[s.past.acked];
    Of(s, p);
  }

  lemma InterruptPhases(s: State)
    requires Inv(s) && Enabled(s, Interrupt)
    ensures Sized(Do(s, Interrupt)) && AllPhases(Do(s, Interrupt))
  {
    hide LogInv;
    var p := NextAnswered(s);
    Of(s, p);
    Slot(s.past.acked);
    var u := Do(s, Interrupt);
    forall q | 0 <= q < |u.procs| ensures PhaseInv(u, q) { assert PhaseInv(s, q) && ChainInv(s, q); }
  }

  lemma InterruptKeeps(s: State)
    requires Inv(s) && Enabled(s, Interrupt)
    ensures Inv(Do(s, Interrupt))
  {
    InterruptPhases(s);
    var p := NextAnswered(s);
    Of(s, p);
    Slot(s.past.acked);
    var u := Do(s, Interrupt);
    hide AllPhases;
    forall q | 0 <= q < |u.procs| ensures ChainInv(u, q) && LogInv(u, q) { Of(s, q); }
    forall d | 0 <= d < NUM ensures DescInv(u, d) { assert DescInv(s, d); }
    forall k | 0 <= k < |u.past.asked| ensures AskedInv(u, k) { assert AskedInv(s, k); }
    forall k | 0 <= k < |u.past.answered| ensures AnsweredInv(u, k) { assert AnsweredInv(s, k); }
    forall h | h in u.inside ensures InsideInv(u, h) { assert InsideInv(s, h); }
  }

  /** free_chain on a request's head frees its three descriptors and does not panic. */
  lemma ChainFreed(free: seq<bool>, desc: seq<Desc>, c: Chain)
    requires |free| == |desc| == NUM && ChainOk(c) && !free[c.head] && !free[c.data] && !free[c.status]
    requires desc[c.head] == Desc(true, c.data) && desc[c.data] == Desc(true, c.status) && !desc[c.status].more
    ensures FreeChain(free, desc, c.head) ==
            Some((free[c.head := true][c.data := true][c.status := true],
                  desc[c.head := Desc(false, 0)][c.data := Desc(false, 0)][c.status := Desc(false, 0)]))
  {
    var f1, d1 := free[c.head := true], desc[c.head := Desc(false, 0)];
    var f2, d2 := f1[c.data := true], d1[c.data := Desc(false, 0)];
    assert FreeChain(f2, d2, c.status) == Some((f2[c.status := true], d2[c.status := Desc(false, 0)]));
    assert FreeChain(f1, d1, c.data) == FreeChain(f2, d2, c.status);
  }

  /** What Finishing does, free_chain included. */
  lemma FinishIs(s: State, p: nat)
    requires Inv(s) && Enabled(s, Finish(p))
    ensures ChainOk(s.procs[p].chain) && s.procs[p].phase.Acked?
    ensures var c := s.procs[p].chain;
            Finishing(s, p) ==
              s.(free := s.free[c.head := true][c.data := true][c.status := true],
                 desc := s.desc[c.head := Desc(false, 0)][c.data := Desc(false, 0)][c.status := Desc(false, 0)],
                 info := s.info[c.head := None], procs := s.procs[p := Idle],
                 past := s.past.(owner := s.past.owner[c.head := None][c.data := None][c.status := None]))
  {
    hide FreeChain;
    Of(s, p);
    var c := s.procs[p].chain;
    assert DescInv(s, c.head) && DescInv(s, c.data) && DescInv(s, c.status);
    ChainFreed(s.free, s.desc, c);
  }

  lemma FinishKeeps(s: State, p: nat)
    requires Inv(s) && Enabled(s, Finish(p))
    ensures Inv(Do(s, Finish(p)))
  {
    hide Finishing;
    FinishIs(s, p);
    Of(s, p);
    var u := Do(s, Finish(p));
    forall q | 0 <= q < |u.procs| ensures ChainInv(u, q) && PhaseInv(u, q) && LogInv(u, q) {
      Of(s, q);
      if q != p && s.procs[q].Busy? { ChainsDisjoint(s, p, q); }
    }
    forall d | 0 <= d < NUM ensures DescInv(u, d) { assert DescInv(s, d); }
    EntriesKept(s, u);
  }

  lemma StepKeepsInv(s: State, e: Event)
    requires Inv(s) && Enabled(s, e)
    ensures Inv(Do(s, e))
  {
    hide Inv, Enabled, Do;
    match e {
      case Call(p, op) => CallKeeps(s, p, op);
      case Alloc(p, c) => AllocKeeps(s, p, c);
      case Publish(p) => PublishKeeps(s, p);
      case Fetch => FetchKeeps(s);
      case Complete(h) => CompleteKeeps(s, h);
      case Interrupt => InterruptKeeps(s);
      case Finish(p) => FinishKeeps(s, p);
    }
  }

  // ----- whole runs -----

  predicate Runs(s: State, es: Schedule<Event>, t: State)
    decreases es
  {
    match es
    case Stop => s == t
    case Then(e, rest) => Enabled(s, e) && Runs(Do(s, e), rest, t)
  }

  lemma {:induction false} RunKeepsInv(s: State, es: Schedule<Event>, t: State)
    requires Inv(s) && Runs(s, es, t)
    ensures Inv(t)
    decreases es
  {
    hide Inv, Enabled, Do;
    if es.Then? {
      StepKeepsInv(s, es.event);
      RunKeepsInv(Do(s, es.event), es.rest, t);
    }
  }

  lemma Reached(s: State, es: Schedule<Event>, t: State)
    requires Init(s) && Runs(s, es, t)
    ensures Inv(t)
  {
    hide Runs;
    RunKeepsInv(s, es, t);
  }

  /** In every run, no panic in free_desc or in the interrupt handler. */
  lemma NoPanic(s: State, es: Schedule<Event>, t: State)
    requires Init(s) && Runs(s, es, t)
    ensures !t.panicked && Sized(t)
  {
    hide Runs;
    Reached(s, es, t);
  }

  /** In every run a request has a chain of three descriptors, none of which is free. */
  lemma ThreeAllocated(s: State, es: Schedule<Event>, t: State, p: nat)
    requires Init(s) && Runs(s, es, t) && p < |t.procs| && t.procs[p].Busy?
    ensures Sized(t)
    ensures var c := t.procs[p].chain; ChainOk(c) && !t.free[c.head] && !t.free[c.data] && !t.free[c.status]
  {
    hide Runs;
    Reached(s, es, t);
    Of(t, p);
    var c := t.procs[p].chain;
    assert DescInv(t, c.head) && DescInv(t, c.data) && DescInv(t, c.status);
  }

  /** In every run no two requests share a descriptor, so there are at most two of them. */
  lemma ChainsApart(s: State, es: Schedule<Event>, t: State, p: nat, q: nat, r: nat)
    requires Init(s) && Runs(s, es, t) && p < |t.procs| && q < |t.procs| && t.procs[p].Busy? && t.procs[q].Busy?
    requires p != q
    ensures Descs(t.procs[p].chain) !! Descs(t.procs[q].chain)
    ensures r < |t.procs| && t.procs[r].Busy? ==> r == p || r == q
  {
    hide Runs, Descs;
    Reached(s, es, t);
    ChainsDisjoint(t, p, q);
    if r < |t.procs| && t.procs[r].Busy? { AtMostTwo(t, p, q, r); }
  }

  /** In every run the avail slot that a new request is written to holds no entry that the
      device has still to take, although the index wraps around. */
  lemma SlotUnused(s: State, es: Schedule<Event>, t: State, k: nat)
    requires Init(s) && Runs(s, es, t) && t.lock.None? && t.past.fetched <= k < |t.past.asked|
    ensures k % NUM != t.availIdx % NUM
    ensures |t.past.asked| <= t.past.fetched + 2
  {
    hide Runs;
    Reached(s, es, t);
    RingsShort(t);
    Wrap(|t.past.asked|, k);
    Slot(|t.past.asked|);
  }

  /** virtio_disk_rw returns only after the device has carried its request out, that very
      request and exactly once. */
  lemma ReturnsAfterDone(s: State, es: Schedule<Event>, t: State, p: nat)
    requires Init(s) && Runs(s, es, t) && Enabled(t, Finish(p))
    ensures exists i :: 0 <= i < |t.past.log| && t.past.log[i] == Done(t.procs[p].serial, t.procs[p].op)
    ensures forall i, j :: 0 <= i < j < |t.past.log| ==> t.past.log[i].serial != t.past.log[j].serial
  {
    hide Runs;
    Reached(s, es, t);
    Of(t, p);
    assert t.past.log[t.procs[p].phase.k] == Done(t.procs[p].serial, t.procs[p].op);
  }
}
