/** What calls of virtio_disk_rw bring about: the device carries out what the callers asked
    for, read off the schedule, and every request is served. */
module VirtioRuns {
  import opened Common
  import opened VirtioDisk
  import opened VirtioSafety

  // ----- what was asked for -----

  /** One request: who made it, and for what. */
  datatype Request = Request(p: nat, op: Op)

  /** The requests of a schedule in the order in which they got their descriptors, behind those
      in reqs; want is what the processes asked for last. */
  function Requests(es: Schedule<Event>, want: map<nat, Op>, reqs: seq<Request>): seq<Request>
    decreases es
  {
    match es
    case Stop => reqs
    case Then(e, rest) => Requests(rest, NextWant(e, want), NextReqs(e, want, reqs))
  }

  function NextWant(e: Event, want: map<nat, Op>): map<nat, Op> {
    if e.Call? then want[e.p := e.op] else want
  }

  function NextReqs(e: Event, want: map<nat, Op>, reqs: seq<Request>): seq<Request> {
    if e.Alloc? && e.p in want then reqs + [Request(e.p, want[e.p])] else reqs
  }

  /** Process p works on what it asked for. */
  predicate Wants(pc: Pc, p: nat, want: map<nat, Op>, reqs: seq<Request>) {
    && (pc.Wanting? ==> p in want && want[p] == pc.op)
    && (pc.Busy? ==> pc.serial < |reqs| && reqs[pc.serial] == Request(p, pc.op))
  }

  predicate DoneRight(d: Done, reqs: seq<Request>) {
    d.serial < |reqs| && reqs[d.serial].op == d.op
  }

  predicate RequestInv(s: State, want: map<nat, Op>, reqs: seq<Request>) {
    && |reqs| == |s.past.holder|
    && (forall p :: 0 <= p < |s.procs| ==> Wants(s.procs[p], p, want, reqs))
    && forall i :: 0 <= i < |s.past.log| ==> DoneRight(s.past.log[i], reqs)
  }

  /** The steps of device, handler and return change only how far a request has come. */
  predicate SameRequests(s: State, u: State) {
    && |u.procs| == |s.procs| && u.past.holder == s.past.holder
    && forall p :: 0 <= p < |s.procs| ==> SameRequest(s.procs[p], u.procs[p])
  }

  predicate SameRequest(a: Pc, b: Pc) {
    && (b.Busy? ==> a.Busy? && b.op == a.op && b.serial == a.serial)
    && (b.Wanting? ==> b == a)
  }

  lemma LaterSteps(s: State, e: Event)
    requires Inv(s) && Enabled(s, e) && !e.Call? && !e.Alloc?
    ensures SameRequests(s, Do(s, e))
    ensures Do(s, e).past.log == s.past.log
            || (e.Complete? && e.head in s.inside && s.inside[e.head] < |s.procs| && s.procs[s.inside[e.head]].Busy?
                && var a := s.procs[s.inside[e.head]]; Do(s, e).past.log == s.past.log + [Done(a.serial, a.op)])
  {
    match e {
      case Publish(p) => Of(s, p);
      case Fetch => var p := NextAsked(s);
      case Complete(h) => InsideOwner(s, h);
      case Interrupt => var p := NextAnswered(s);
      case Finish(p) => FinishIs(s, p);
    }
    hide Inv, ChainInv, PhaseInv, LogInv;
  }

  lemma QuietRequests(s: State, u: State, want: map<nat, Op>, reqs: seq<Request>, d: seq<Done>)
    requires RequestInv(s, want, reqs) && SameRequests(s, u) && u.past.log == s.past.log + d && |d| <= 1
    requires |d| == 1 ==> DoneRight(d[0], reqs)
    ensures RequestInv(u, want, reqs)
  {
    forall p | 0 <= p < |u.procs| ensures Wants(u.procs[p], p, want, reqs) {
      assert Wants(s.procs[p], p, want, reqs) && SameRequest(s.procs[p], u.procs[p]);
    }
    forall i | 0 <= i < |u.past.log| ensures DoneRight(u.past.log[i], reqs) {
      assert i < |s.past.log| ==> DoneRight(s.past.log[i], reqs);
    }
  }

  lemma FirstSteps(s: State, e: Event, want: map<nat, Op>, reqs: seq<Request>)
    requires Enabled(s, e) && (e.Call? || e.Alloc?) && RequestInv(s, want, reqs)
    ensures RequestInv(Do(s, e), NextWant(e, want), NextReqs(e, want, reqs))
  {
    var u, want', reqs' := Do(s, e), NextWant(e, want), NextReqs(e, want, reqs);
    assert Wants(s.procs[e.p], e.p, want, reqs);
    forall p | 0 <= p < |u.procs| ensures Wants(u.procs[p], p, want', reqs') {
      assert Wants(s.procs[p], p, want, reqs);
    }
    forall i | 0 <= i < |u.past.log| ensures DoneRight(u.past.log[i], reqs') { assert DoneRight(s.past.log[i], reqs); }
  }

  lemma StepRequests(s: State, e: Event, want: map<nat, Op>, reqs: seq<Request>)
    requires Inv(s) && Enabled(s, e) && RequestInv(s, want, reqs)
    ensures RequestInv(Do(s, e), NextWant(e, want), NextReqs(e, want, reqs))
  {
    hide Inv, Do, SameRequests;
    if e.Call? || e.Alloc? {
      FirstSteps(s, e, want, reqs);
    } else {
      LaterSteps(s, e);
      var u := Do(s, e);
      if u.past.log == s.past.log {
        assert u.past.log == s.past.log + [];
        QuietRequests(s, u, want, reqs, []);
      } else {
        var p := s.inside[e.head];
        assert Wants(s.procs[p], p, want, reqs);
        QuietRequests(s, u, want, reqs, [Done(s.procs[p].serial, s.procs[p].op)]);
      }
    }
  }

  lemma {:induction false} RunRequests(s: State, es: Schedule<Event>, t: State, want: map<nat, Op>, reqs: seq<Request>)
    returns (want': map<nat, Op>)
    requires Inv(s) && RequestInv(s, want, reqs) && Runs(s, es, t)
    ensures RequestInv(t, want', Requests(es, want, reqs))
    decreases es
  {
    hide Inv, Enabled, Do, RequestInv;
    if es.Then? {
      var e := es.event;
      StepRequests(s, e, want, reqs);
      StepKeepsInv(s, e);
      want' := RunRequests(Do(s, e), es.rest, t, NextWant(e, want), NextReqs(e, want, reqs));
    } else {
      want' := want;
    }
  }

  lemma NoRequests(s: State)
    requires Init(s)
    ensures Inv(s) && RequestInv(s, map[], [])
  {
    forall p | 0 <= p < |s.procs| ensures Wants(s.procs[p], p, map[], []) {}
  }

  /** Over a whole run the device carries out exactly what callers asked for: entry i of its
      log is the operation of the request with that serial number in the schedule, and no
      request is carried out twice. */
  lemma DeviceDoesAsked(s: State, es: Schedule<Event>, t: State)
    requires Init(s) && Runs(s, es, t)
    ensures var reqs := Requests(es, map[], []);
            && (forall i :: 0 <= i < |t.past.log| ==> DoneRight(t.past.log[i], reqs))
            && forall i, j :: 0 <= i < j < |t.past.log| ==> t.past.log[i].serial != t.past.log[j].serial
  {
    hide Runs, Requests;
    Reached(s, es, t);
    NoRequests(s);
    hide AllChains, AllPhases, AllLogged, AllDescs, AllEntries;
    var want := RunRequests(s, es, t, map[], []);
  }

  /** virtio_disk_rw returns to p only when what p asked for in the schedule was carried out. */
  lemma ReturnsWhatWasAsked(s: State, es: Schedule<Event>, t: State, p: nat)
    requires Init(s) && Runs(s, es, t) && Enabled(t, Finish(p))
    ensures var reqs, n := Requests(es, map[], []), t.procs[p].serial;
            && n < |reqs| && reqs[n].p == p
            && exists i :: 0 <= i < |t.past.log| && t.past.log[i] == Done(n, reqs[n].op)
  {
    hide Runs, Requests;
    ReturnsAfterDone(s, es, t, p);
    NoRequests(s);
    hide Inv;
    var want := RunRequests(s, es, t, map[], []);
    var reqs := Requests(es, map[], []);
    assert Wants(t.procs[p], p, want, reqs);
  }

  // ----- descriptors -----

  /** In every run a descriptor that is not free is in the chain of a request in flight: none
      is lost. */
  lemma NoneLost(s: State, es: Schedule<Event>, t: State, d: nat)
    requires Init(s) && Runs(s, es, t) && d < NUM
    ensures Sized(t)
    ensures !t.free[d] <==> exists p :: 0 <= p < |t.procs| && t.procs[p].Busy? && InChain(t.procs[p].chain, d)
  {
    hide Runs;
    Reached(s, es, t);
    assert DescInv(t, d);
    if p :| 0 <= p < |t.procs| && t.procs[p].Busy? && InChain(t.procs[p].chain, d) { assert ChainInv(t, p); }
  }

  // ----- every request is served -----

  /** Steps of the device, of the handler, and of process p. */
  predicate ForProcess(es: Schedule<Event>, p: nat) {
    es.Then? ==>
      && (match es.event
          case Call(q, _) => q == p
          case Alloc(q, _) => q == p
          case Publish(q) => q == p
          case Finish(q) => q == p
          case _ => true)
      && ForProcess(es.rest, p)
  }

  lemma StepFirst(s: State, e: Event, es: Schedule<Event>, t: State, p: nat)
    requires Enabled(s, e) && Runs(Do(s, e), es, t) && ForProcess(es, p) && ForProcess(Then(e, Stop), p)
    ensures Runs(s, Then(e, es), t) && ForProcess(Then(e, es), p)
  {
    hide Enabled, Do;
  }

  /** How far a request is from its end. */
  function Rank(phase: Phase): nat {
    match phase
    case Filled => 4
    case Queued(_) => 3
    case Fetched => 2
    case Used(_) => 1
    case Acked(_) => 0
  }

  /** The entries in front of a request in the ring it is in. */
  function Ahead(s: State, p: nat): int
    requires p < |s.procs| && s.procs[p].Busy?
  {
    match s.procs[p].phase
    case Queued(k) => k - s.past.fetched
    case Used(k) => k - s.past.acked
    case _ => 0
  }

  /** The request of p, with vdisk_lock free or its own. */
  predicate InFlight(s: State, p: nat, op: Op, serial: nat) {
    && p < |s.procs| && s.procs[p].Busy? && s.procs[p].op == op && s.procs[p].serial == serial
    && (s.lock.None? || Is(s.lock, p))
  }

  /** The next step that brings the request on. */
  function NextStep(s: State, p: nat): Event
    requires p < |s.procs| && s.procs[p].Busy?
  {
    match s.procs[p].phase
    case Filled => Publish(p)
    case Queued(_) => Fetch
    case Fetched => Complete(s.procs[p].chain.head)
    case Used(_) => Interrupt
    case Acked(_) => Finish(p)
  }

  lemma CanStep(s: State, p: nat, op: Op, serial: nat)
    requires Inv(s) && InFlight(s, p, op, serial)
    ensures Enabled(s, NextStep(s, p)) && Ahead(s, p) >= 0
  {
    Of(s, p);
    RingsShort(s);
    hide AllChains, AllPhases, AllLogged, AllDescs, AllEntries;
    match s.procs[p].phase {
      case Queued(k) => Wrap(|s.past.asked|, s.past.fetched);
      case Used(k) => Wrap(|s.past.answered|, s.past.acked);
      case _ =>
    }
  }

  lemma StepOn(s: State, p: nat, op: Op, serial: nat)
    requires Inv(s) && InFlight(s, p, op, serial) && !s.procs[p].phase.Acked? && Enabled(s, NextStep(s, p))
    ensures var u := Do(s, NextStep(s, p));
            && InFlight(u, p, op, serial)
            && (Rank(u.procs[p].phase) < Rank(s.procs[p].phase)
                || (Rank(u.procs[p].phase) == Rank(s.procs[p].phase) && Ahead(u, p) < Ahead(s, p)))
  {
    Of(s, p);
    match s.procs[p].phase {
      case Filled =>
      case Queued(k) => var q := NextAsked(s);
      case Fetched => InsideOwner(s, s.procs[p].chain.head);
      case Used(k) => var q := NextAnswered(s);
    }
    hide Inv, ChainInv, LogInv;
  }

  /** From any point on, the device, the handler and p's own steps serve p's request. */
  lemma {:induction false} Serve(s: State, p: nat, op: Op, serial: nat) returns (es: Schedule<Event>, t: State)
    requires Inv(s) && InFlight(s, p, op, serial)
    ensures Runs(s, es, t) && ForProcess(es, p)
    ensures p < |t.procs| && t.procs[p].Idle? && Done(serial, op) in t.past.log
    decreases Rank(s.procs[p].phase), Ahead(s, p)
  {
    CanStep(s, p, op, serial);
    var e := NextStep(s, p);
    var m := Do(s, e);
    if s.procs[p].phase.Acked? {
      FinishIs(s, p);
      Of(s, p);
      es, t := Then(e, Stop), m;
      StepFirst(s, e, Stop, m, p);
    } else {
      StepOn(s, p, op, serial);
      StepKeepsInv(s, e);
      CanStep(m, p, op, serial);
      var fs;
      fs, t := Serve(m, p, op, serial);
      es := Then(e, fs);
      StepFirst(s, e, fs, t, p);
    }
  }

  /** virtio_disk_rw: in every run, with vdisk_lock free and three descriptors free, a call is
      carried out and returns by its own steps and those of device and handler alone. */
  lemma CallIsServed(s: State, es: Schedule<Event>, t: State, p: nat, op: Op, c: Chain)
    returns (fs: Schedule<Event>, u: State)
    requires Init(s) && Runs(s, es, t) && p < |t.procs| && t.procs[p].Idle? && t.lock.None?
    requires |t.free| == NUM && Lowest3(t.free, c)
    ensures Runs(t, fs, u) && ForProcess(fs, p)
    ensures p < |u.procs| && u.procs[p].Idle? && Done(|t.past.holder|, op) in u.past.log
  {
    Reached(s, es, t);
    hide AllChains, AllPhases, AllLogged, AllDescs, AllEntries;
    var t1 := Do(t, Call(p, op));
    var t2 := Do(t1, Alloc(p, c));
    StepKeepsInv(t, Call(p, op));
    StepKeepsInv(t1, Alloc(p, c));
    var gs;
    gs, u := Serve(t2, p, op, |t.past.holder|);
    StepFirst(t1, Alloc(p, c), gs, u, p);
    StepFirst(t, Call(p, op), Then(Alloc(p, c), gs), u, p);
    fs := Then(Call(p, op), Then(Alloc(p, c), gs));
  }
}
