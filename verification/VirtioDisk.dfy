/** The virtio block driver and its device: any number of processes in virtio_disk_rw,
    the interrupt handler, and a device that takes requests in order and finishes them
    in any order. The ring indices are 16-bit and wrap around.

    A step is one section under vdisk_lock, one round of the interrupt handler's loop, or
    one action of the device, which takes no lock; filling an avail slot and publishing it
    are two steps under the lock. */
module VirtioDisk {
  import opened Common

  const NUM := 8
  const U16 := 0x1_0000

  datatype Op = Op(block: nat, write: bool)

  datatype Chain = Chain(head: nat, data: nat, status: nat)

  /** How far a request has come. This is history: the driver only sees b->disk. */
  datatype Phase = Filled | Queued(k: nat) | Fetched | Used(k: nat) | Acked(k: nat)

  datatype Pc =
    | Idle
    | Wanting(op: Op)
    | Busy(op: Op, chain: Chain, phase: Phase, serial: nat)

  datatype Desc = Desc(more: bool, next: nat)   // VRING_DESC_F_NEXT, next

  datatype Done = Done(serial: nat, op: Op)

  datatype State = State(
    procs: seq<Pc>,
    pending: seq<bool>,         // b->disk of the buffer each process waits for
    lock: Option<nat>,          // vdisk_lock, where it is held across steps
    free: seq<bool>,
    desc: seq<Desc>,
    ops: seq<Op>,
    info: seq<Option<nat>>,     // info[i].b, as the process that owns the buffer
    avail: seq<nat>,
    availIdx: nat,
    used: seq<nat>,
    usedIdx: nat,               // used->idx, the device's
    usedSeen: nat,              // disk.used_idx, the driver's
    seen: nat,                  // the device's place in avail
    inside: map<nat, nat>,      // heads the device is working on, with their processes
    panicked: bool,
    past: History)

  /** What happened so far; it guides no step. */
  datatype History = History(
    owner: seq<Option<nat>>,    // the process whose chain each descriptor is in
    asked: seq<nat>,            // the process behind each avail entry ever published
    fetched: nat,               // how many of them the device has taken
    answered: seq<nat>,         // the process behind each used entry ever made
    acked: nat,                 // how many of them the handler has seen
    log: seq<Done>,             // what the device has carried out
    holder: seq<nat>)           // the process behind each serial number

  datatype Event =
    | Call(p: nat, op: Op)
    | Alloc(p: nat, chain: Chain)
    | Publish(p: nat)
    | Fetch
    | Complete(head: nat)
    | Interrupt
    | Finish(p: nat)

  predicate Sized(s: State) {
    && |s.pending| == |s.procs|
    && |s.free| == |s.desc| == |s.ops| == |s.info| == |s.avail| == |s.used| == |s.past.owner| == NUM
  }

  /** The three lowest free descriptors, which alloc3_desc takes. */
  predicate Lowest3(free: seq<bool>, c: Chain)
    requires |free| == NUM
  {
    && c.head < c.data < c.status < NUM && free[c.head] && free[c.data] && free[c.status]
    && forall d :: 0 <= d < c.status && d != c.head && d != c.data ==> !free[d]
  }

  predicate Enabled(s: State, e: Event) {
    && Sized(s) && !s.panicked
    && match e
       case Call(p, op) => p < |s.procs| && s.procs[p].Idle?
       case Alloc(p, c) => p < |s.procs| && s.procs[p].Wanting? && s.lock.None? && Lowest3(s.free, c)
       case Publish(p) => p < |s.procs| && Is(s.lock, p)
       case Fetch => s.seen != s.availIdx
       case Complete(head) => head in s.inside
       case Interrupt => s.lock.None? && s.usedSeen != s.usedIdx
       case Finish(p) => p < |s.procs| && s.lock.None? && s.procs[p].Busy? && !s.pending[p]
  }

  /** The process whose buffer info[id] names. */
  function Owner(s: State, id: nat): Option<nat>
    requires Sized(s)
  {
    if id < NUM && s.info[id].Some? && s.info[id].value < |s.procs| && s.procs[s.info[id].value].Busy? then s.info[id]
    else None
  }

  function Set(s: State, p: nat, phase: Phase): seq<Pc>
    requires p < |s.procs| && s.procs[p].Busy?
  {
    s.procs[p := s.procs[p].(phase := phase)]
  }

  /** alloc3_desc, the formatting of the chain, and the write to the avail slot. */
  function Filling(s: State, p: nat, c: Chain): State
    requires Sized(s) && p < |s.procs| && s.procs[p].Wanting? && c.head < NUM && c.data < NUM && c.status < NUM
  {
    s.(lock := Some(p),
       free := s.free[c.head := false][c.data := false][c.status := false],
       desc := s.desc[c.head := Desc(true, c.data)][c.data := Desc(true, c.status)][c.status := Desc(false, 0)],
       ops := s.ops[c.head := s.procs[p].op],
       info := s.info[c.head := Some(p)],
       pending := s.pending[p := true],
       avail := s.avail[s.availIdx % NUM := c.head],
       procs := s.procs[p := Busy(s.procs[p].op, c, Filled, |s.past.holder|)],
       past := s.past.(owner := s.past.owner[c.head := Some(p)][c.data := Some(p)][c.status := Some(p)],
                       holder := s.past.holder + [p]))
  }

  /** avail->idx += 1; the process then sleeps on its buffer, which releases the lock. */
  function Publishing(s: State, p: nat): State
    requires p < |s.procs| && s.procs[p].Busy?
  {
    s.(lock := None, availIdx := (s.availIdx + 1) % U16, procs := Set(s, p, Queued(|s.past.asked|)),
       past := s.past.(asked := s.past.asked + [p]))
  }

  /** The device takes the next avail entry. */
  function Fetching(s: State): State
    requires Sized(s)
  {
    var head := s.avail[s.seen % NUM];
    match Owner(s, head)
    case None => s.(panicked := true)
    case Some(p) =>
      s.(seen := (s.seen + 1) % U16, inside := s.inside[head := p], procs := Set(s, p, Fetched),
         past := s.past.(fetched := s.past.fetched + 1))
  }

  /** The device carries a request out and puts it on the used ring. */
  function Completing(s: State, head: nat): State
    requires Sized(s)
  {
    match Owner(s, head)
    case None => s.(panicked := true)
    case Some(p) =>
      s.(inside := s.inside - {head},
         used := s.used[s.usedIdx % NUM := head], usedIdx := (s.usedIdx + 1) % U16,
         procs := Set(s, p, Used(|s.past.answered|)),
         past := s.past.(answered := s.past.answered + [p], log := s.past.log + [Done(s.procs[p].serial, s.ops[head])]))
  }

  /** One round of virtio_disk_intr: b->disk = 0 for the buffer that the next used entry leads to. */
  function Handling(s: State): State
    requires Sized(s)
  {
    match Owner(s, s.used[s.usedSeen % NUM])
    case None => s.(panicked := true)
    case Some(p) =>
      s.(usedSeen := (s.usedSeen + 1) % U16, pending := s.pending[p := false], procs := Set(s, p, Acked(s.past.acked)),
         past := s.past.(acked := s.past.acked + 1))
  }

  function BusyCount(free: seq<bool>, n: nat): nat
    requires n <= |free|
  {
    if n == 0 then 0 else BusyCount(free, n - 1) + if free[n - 1] then 0 else 1
  }

  lemma {:induction false} BusyCountLess(free: seq<bool>, i: nat, n: nat)
    requires i < |free| && n <= |free| && !free[i]
    ensures BusyCount(free[i := true], n) == BusyCount(free, n) - if i < n then 1 else 0
    ensures i < n ==> BusyCount(free, n) > 0
  {
    if n > 0 { BusyCountLess(free, i, n - 1); }
  }

  /** free_chain(i) with free_desc's two panics: the descriptors freed, in order. */
  function FreeChain(free: seq<bool>, desc: seq<Desc>, i: nat): Option<(seq<bool>, seq<Desc>)>
    requires |free| == |desc| == NUM
    decreases BusyCount(free, NUM)
  {
    if i >= NUM || free[i] then None
    else
      BusyCountLess(free, i, NUM);
      var f, d := free[i := true], desc[i := Desc(false, 0)];
      if desc[i].more then FreeChain(f, d, desc[i].next) else Some((f, d))
  }

  function Finishing(s: State, p: nat): State
    requires Sized(s) && p < |s.procs| && s.procs[p].Busy?
  {
    var c := s.procs[p].chain;
    match FreeChain(s.free, s.desc, c.head)
    case None => s.(panicked := true)
    case Some((f, d)) =>
      if c.head >= NUM || c.data >= NUM || c.status >= NUM then s.(panicked := true)
      else
        s.(free := f, desc := d, info := s.info[c.head := None], procs := s.procs[p := Idle],
           past := s.past.(owner := s.past.owner[c.head := None][c.data := None][c.status := None]))
  }

  function Do(s: State, e: Event): State
    requires Enabled(s, e)
  {
    match e
    case Call(p, op) => s.(procs := s.procs[p := Wanting(op)])
    case Alloc(p, c) => Filling(s, p, c)
    case Publish(p) => if s.procs[p].Busy? then Publishing(s, p) else s.(panicked := true)
    case Fetch => Fetching(s)
    case Complete(head) => Completing(s, head)
    case Interrupt => Handling(s)
    case Finish(p) => Finishing(s, p)
  }

  // ----- the invariant -----

  predicate ChainOk(c: Chain) {
    c.head < NUM && c.data < NUM && c.status < NUM && c.head != c.data && c.data != c.status && c.head != c.status
  }

  predicate InChain(c: Chain, d: nat) {
    d == c.head || d == c.data || d == c.status
  }

  /** A request's chain is three descriptors of its own, linked; the device and the handler
      find the request from its head. */
  predicate ChainInv(s: State, p: nat)
    requires Sized(s) && p < |s.procs|
  {
    s.procs[p].Busy? ==>
      var c := s.procs[p].chain;
      && ChainOk(c)
      && Is(s.past.owner[c.head], p) && Is(s.past.owner[c.data], p) && Is(s.past.owner[c.status], p)
      && s.desc[c.head] == Desc(true, c.data) && s.desc[c.data] == Desc(true, c.status) && !s.desc[c.status].more
      && s.ops[c.head] == s.procs[p].op && Is(s.info[c.head], p)
  }

  /** A descriptor is free, or in the chain of exactly one request. */
  predicate DescInv(s: State, d: nat)
    requires Sized(s) && d < NUM
  {
    && (s.free[d] <==> s.past.owner[d].None?)
    && (s.past.owner[d].Some? ==>
          var p := s.past.owner[d].value;
          p < |s.procs| && s.procs[p].Busy? && InChain(s.procs[p].chain, d))
  }

  /** Where a request is. */
  predicate PhaseInv(s: State, p: nat)
    requires Sized(s) && p < |s.procs|
  {
    && (Is(s.lock, p) <==> s.procs[p].Busy? && s.procs[p].phase.Filled?)
    && (s.procs[p].Busy? ==>
          var Busy(op, c, phase, serial) := s.procs[p];
          && (s.pending[p] <==> !phase.Acked?)
          && (phase.Fetched? <==> c.head in s.inside && s.inside[c.head] == p)
          && (phase.Filled? ==> s.avail[|s.past.asked| % NUM] == c.head)
          && (phase.Queued? ==>
                && s.past.fetched <= phase.k < |s.past.asked| && s.past.asked[phase.k] == p
                && s.avail[phase.k % NUM] == c.head)
          && (phase.Used? ==>
                && s.past.acked <= phase.k < |s.past.answered| && s.past.answered[phase.k] == p
                && s.used[phase.k % NUM] == c.head))
  }

  /** An avail entry that the device has not taken is that of a queued request. */
  predicate AskedInv(s: State, k: nat)
    requires k < |s.past.asked|
  {
    s.past.fetched <= k ==>
      var p := s.past.asked[k];
      p < |s.procs| && s.procs[p].Busy? && s.procs[p].phase == Queued(k)
  }

  /** A used entry that the handler has not seen is that of a request not yet acknowledged. */
  predicate AnsweredInv(s: State, k: nat)
    requires k < |s.past.answered|
  {
    s.past.acked <= k ==>
      var p := s.past.answered[k];
      p < |s.procs| && s.procs[p].Busy? && s.procs[p].phase == Used(k)
  }

  predicate InsideInv(s: State, h: nat)
    requires h in s.inside
  {
    var p := s.inside[h];
    p < |s.procs| && s.procs[p].Busy? && s.procs[p].phase.Fetched? && s.procs[p].chain.head == h
  }

  /** The 16-bit indices are the counters modulo 2^16. */
  predicate IndexInv(s: State) {
    && s.past.fetched <= |s.past.asked| && s.past.acked <= |s.past.answered| == |s.past.log|
    && s.availIdx == |s.past.asked| % U16 && s.seen == s.past.fetched % U16
    && s.usedIdx == |s.past.answered| % U16 && s.usedSeen == s.past.acked % U16
  }

  /** Serial numbers are unique, and a request is in the log once the device has carried it
      out, never before. */
  predicate LogInv(s: State, p: nat)
    requires p < |s.procs|
  {
    s.procs[p].Busy? ==>
      var Busy(op, c, phase, serial) := s.procs[p];
      && serial < |s.past.holder| && s.past.holder[serial] == p
      && if phase.Used? || phase.Acked? then phase.k < |s.past.log| && s.past.log[phase.k] == Done(serial, op)
         else forall i :: 0 <= i < |s.past.log| ==> s.past.log[i].serial != serial
  }

  predicate OnceInv(s: State) {
    && (forall i :: 0 <= i < |s.past.log| ==> s.past.log[i].serial < |s.past.holder|)
    && forall i, j :: 0 <= i < j < |s.past.log| ==> s.past.log[i].serial != s.past.log[j].serial
  }

  predicate Sane(s: State) {
    && Sized(s) && !s.panicked && IndexInv(s) && OnceInv(s)
    && (s.lock.Some? ==> s.lock.value < |s.procs|)
  }

  predicate AllChains(s: State)
    requires Sized(s)
  {
    forall p :: 0 <= p < |s.procs| ==> ChainInv(s, p)
  }

  predicate AllPhases(s: State)
    requires Sized(s)
  {
    forall p :: 0 <= p < |s.procs| ==> PhaseInv(s, p)
  }

  predicate AllLogged(s: State) {
    forall p :: 0 <= p < |s.procs| ==> LogInv(s, p)
  }

  predicate AllDescs(s: State)
    requires Sized(s)
  {
    forall d :: 0 <= d < NUM ==> DescInv(s, d)
  }

  predicate AllEntries(s: State) {
    && (forall k :: 0 <= k < |s.past.asked| ==> AskedInv(s, k))
    && (forall k :: 0 <= k < |s.past.answered| ==> AnsweredInv(s, k))
    && forall h :: h in s.inside ==> InsideInv(s, h)
  }

  predicate Inv(s: State) {
    Sane(s) && AllChains(s) && AllPhases(s) && AllLogged(s) && AllDescs(s) && AllEntries(s)
  }

  predicate Init(s: State) {
    && Sized(s) && !s.panicked && s.lock.None? && s.inside == map[]
    && (forall p :: 0 <= p < |s.procs| ==> s.procs[p].Idle?)
    && (forall d :: 0 <= d < NUM ==> s.free[d] && s.past.owner[d].None?)
    && s.availIdx == s.seen == s.usedIdx == s.usedSeen == 0
    && s.past.asked == [] && s.past.answered == [] && s.past.log == [] && s.past.holder == []
    && s.past.fetched == s.past.acked == 0
  }
}
