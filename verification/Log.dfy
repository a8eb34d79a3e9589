/** The log layer as the kernel runs it: one object whose fields are the in-memory
    header, the pinned buffers and the disk, updated write by write. */
module Log {
  import opened Blocks
  import opened Journal
  import opened Common

  /** `log_write`'s absorption: a block already in the list is not listed again. */
  function Absorb(lh: seq<nat>, b: nat): seq<nat> {
    if b in lh then lh else lh + [b]
  }

  /** What an operation that makes these calls of log_write has listed after the first n. */
  function ListOf(calls: seq<nat>, n: nat): seq<nat>
    requires n <= |calls|
  {
    if n == 0 then [] else Absorb(ListOf(calls, n - 1), calls[n - 1])
  }

  /** It never calls log_write once it has listed MAXOPBLOCKS blocks. */
  ghost predicate Frugal(calls: seq<nat>) {
    forall i :: 0 <= i < |calls| ==> |ListOf(calls, i)| < MAXOPBLOCKS
  }

  lemma {:induction false} ListOfSame(calls: seq<nat>, b: nat, n: nat)
    requires n <= |calls|
    ensures ListOf(calls + [b], n) == ListOf(calls, n)
  {
    if n > 0 { ListOfSame(calls, b, n - 1); }
  }

  /** So it lists at most MAXOPBLOCKS blocks in all. */
  lemma FrugalLists(calls: seq<nat>)
    requires Frugal(calls)
    ensures |ListOf(calls, |calls|)| <= MAXOPBLOCKS
  {
    if |calls| > 0 { assert |ListOf(calls, |calls| - 1)| < MAXOPBLOCKS; }
  }

  class Log {
    const lay: Layout
    var lh: seq<nat>            // log.lh.block[0 .. log.lh.n]
    var outstanding: nat
    var pinned: Disk            // buffers holding logged content that is not home yet
    var disk: Disk
    ghost var trace: seq<Write> // every bwrite issued since boot, in order

    /** Between commits: the disk's log is empty, no block is listed twice, and exactly the
        listed blocks are pinned. */
    ghost predicate Valid()
      reads this
    {
      && DiskOk(lay, disk) && Head(lay, disk) == []
      && HeaderOk(lay, lh) && NoDup(lh)
      && forall b :: b in pinned <==> b in lh
    }

    /** What `bread` returns for block b. */
    function View(b: nat): Block
      reads this
    {
      if b in pinned then pinned[b] else At(disk, b)
    }

    method Bwrite(b: nat, data: Block)
      modifies this`disk, this`trace, this`pinned
      ensures disk == old(disk)[b := data]
      ensures trace == old(trace) + [Write(b, data)]
      ensures pinned == if b in old(pinned) then old(pinned)[b := data] else old(pinned)
    {
      disk := disk[b := data];
      trace := trace + [Write(b, data)];
      if b in pinned { pinned := pinned[b := data]; }
    }

    /** `write_log`: every logged block goes to its slot in the log, nothing else moves. */
    method WriteLog()
      requires lay.Valid() && HeaderOk(lay, lh)
      requires forall b :: b in pinned <==> b in lh
      modifies this`disk, this`trace, this`pinned
      ensures trace == old(trace) + LogWrites(lay, lh, pinned)
      ensures disk == Apply(old(disk), LogWrites(lay, lh, pinned))
      ensures pinned == old(pinned)
    {
      hide After, HeaderOk;
      var tail := 0;
      ghost var ws := LogWrites(lay, lh, pinned);
      AfterNone(disk, ws);
      while tail < |lh|
        invariant 0 <= tail <= |lh|
        invariant pinned == old(pinned)
        invariant trace == old(trace) + ws[..tail]
        invariant disk == After(old(disk), ws, tail)
      {
        var from := View(lh[tail]);
        SlotNotLogged(lay, lh, tail);
        Bwrite(lay.start + tail + 1, from);
        assert ws[..tail + 1] == ws[..tail] + [ws[tail]];
        AfterNext(old(disk), ws, tail);
        tail := tail + 1;
      }
      assert ws[..tail] == ws;
    }

    /** `write_head`: only the count and the first n entries of the header block change. */
    method WriteHeader()
      requires lay.Valid() && HeaderOk(lay, lh)
      requires lay.start !in pinned
      modifies this`disk, this`trace, this`pinned
      ensures trace == old(trace) + [HeadWrite(lay, old(disk), lh)]
      ensures disk == old(disk)[lay.start := HeadWrite(lay, old(disk), lh).data]
      ensures pinned == old(pinned)
    {
      var buf := PutWord(View(lay.start), 0, |lh|);
      var i := 0;
      while i < |lh|
        invariant 0 <= i <= |lh|
        invariant buf == PutEntries(At(disk, lay.start), lh, i)
      {
        buf := PutWord(buf, i + 1, lh[i]);
        i := i + 1;
      }
      Bwrite(lay.start, buf);
    }

    /** `install_trans`: every logged block goes from the log to its home; a commit
        also unpins it, recovery has nothing pinned. */
    method InstallTrans(recovering: bool)
      requires lay.Valid() && HeaderOk(lay, lh)
      requires forall b :: b in pinned ==> b in lh
      requires recovering ==> pinned == map[]
      modifies this`disk, this`trace, this`pinned
      ensures trace == old(trace) + InstallWrites(lay, lh, old(disk))
      ensures disk == Apply(old(disk), InstallWrites(lay, lh, old(disk)))
      ensures pinned == map[]
    {
      hide After, HeaderOk;
      var tail := 0;
      ghost var ws := InstallWrites(lay, lh, disk);
      AfterNone(disk, ws);
      while tail < |lh|
        invariant 0 <= tail <= |lh|
        invariant forall b :: b in pinned ==> Pending(lh, tail, b)
        invariant trace == old(trace) + ws[..tail]
        invariant disk == After(old(disk), ws, tail)
        invariant recovering ==> pinned == map[]
      {
        InstallKeepsSlot(lay, lh, old(disk), tail);
        var lbuf := View(lay.start + tail + 1);
        Bwrite(lh[tail], lbuf);
        if !recovering { pinned := pinned - {lh[tail]}; }
        assert ws[..tail + 1] == ws[..tail] + [ws[tail]];
        AfterNext(old(disk), ws, tail);
        tail := tail + 1;
      }
      assert ws[..tail] == ws;
    }

    /** `read_head`. */
    method ReadHeader()
      requires DiskOk(lay, disk) && pinned == map[]
      modifies this`lh
      ensures lh == Head(lay, disk)
    {
      var buf := View(lay.start);
      var n := GetWord(buf, 0);
      lh := [];
      while |lh| < n
        invariant |lh| <= n
        invariant forall i :: 0 <= i < |lh| ==> lh[i] == GetWord(buf, i + 1)
      {
        lh := lh + [GetWord(buf, |lh| + 1)];
      }
    }

    /** Boot: memory is empty, the disk is whatever the crash left. */
    constructor (lay: Layout, d: Disk)
      requires DiskOk(lay, d)
      ensures this.lay == lay && Valid()
      ensures lh == [] && outstanding == 0
      ensures trace == RecoverWrites(lay, d) && disk == Recovered(lay, d)
    {
      this.lay := lay;
      lh, outstanding, pinned, disk, trace := [], 0, map[], d, [];
      new;
      RecoverFromLog();
    }

    /** `recover_from_log` issues exactly the writes of RecoverWrites. */
    method RecoverFromLog()
      requires DiskOk(lay, disk) && pinned == map[]
      modifies this
      ensures Valid() && lh == [] && outstanding == old(outstanding)
      ensures trace == old(trace) + RecoverWrites(lay, old(disk))
      ensures disk == Recovered(lay, old(disk))
    {
      hide After, InstallWrites, WriteHead;
      ReadHeader();
      ghost var d := disk;
      InstallTrans(true);
      HeaderStays(lay, d, lh, d);
      lh := [];
      WriteHeader();
      ApplySnoc(d, InstallWrites(lay, Head(lay, d), d), HeadWrite(lay, d, []));
      RecoveredHead(lay, d);
    }

    /** The body of `commit`: write_log, write_head, install_trans, write_head. */
    method CommitBlocks()
      requires Valid() && |lh| > 0
      modifies this`lh, this`pinned, this`disk, this`trace
      ensures lh == [] && pinned == map[]
      ensures trace == old(trace) + CommitWrites(lay, old(disk), old(lh), old(pinned))
      ensures disk == Apply(old(disk), CommitWrites(lay, old(disk), old(lh), old(pinned)))
    {
      hide After, LogWrites, InstallWrites, WriteHead;
      ghost var d, lh0, mem := disk, lh, pinned;
      WriteLog();
      HeaderStays(lay, d, lh, mem);
      WriteHeader();
      ApplySnoc(d, LogWrites(lay, lh, mem), HeadWrite(lay, d, lh));
      ghost var sealed := disk;
      InstallTrans(false);
      HeaderStays(lay, sealed, lh, sealed);
      lh := [];
      WriteHeader();
      ApplySnoc(sealed, InstallWrites(lay, lh0, sealed), HeadWrite(lay, sealed, []));
      AfterAppend(d, SealWrites(lay, d, lh0, mem), FinishWrites(lay, sealed, lh0), |FinishWrites(lay, sealed, lh0)|);
    }

    /** `commit`: a crash after any prefix of its writes recovers to all of the old
        home blocks or all of the new ones, and to the new ones once the header is
        out; when it returns, every home block reads as it did before the call. */
    method Commit()
      requires Valid()
      modifies this`lh, this`pinned, this`disk, this`trace
      ensures Valid() && lh == []
      ensures trace == old(trace) + CommitWrites(lay, old(disk), old(lh), old(pinned))
      ensures disk == Apply(old(disk), CommitWrites(lay, old(disk), old(lh), old(pinned)))
      ensures forall k: nat :: CrashSafe(lay, old(disk), old(lh), old(pinned), k)
      ensures forall b: nat :: !lay.InLog(b) ==> View(b) == old(View(b))
    {
      ghost var d, lh0, mem := disk, lh, pinned;
      if |lh| > 0 { CommitBlocks(); }
      CommitCompletes(lay, d, lh0, mem);
      CommitCrashSafe(lay, d, lh0, mem);
    }

    /** `begin_op` up to its return, or to its sleep: it waits while the log might not have
        room for the blocks of one more operation. Commit runs in one call here, so
        log.committing is never seen set. */
    method BeginOp() returns (waits: bool)
      requires Valid()
      modifies this`outstanding
      ensures Valid()
      ensures waits <==> |lh| + (old(outstanding) + 1) * MAXOPBLOCKS > LOGSIZE
      ensures outstanding == if waits then old(outstanding) else old(outstanding) + 1
    {
      if |lh| + (outstanding + 1) * MAXOPBLOCKS > LOGSIZE { return true; }
      outstanding := outstanding + 1;
      return false;
    }

    /** `end_op`: the last operation out commits; until then nothing reaches the disk. No home
        block reads differently afterwards. */
    method EndOp()
      requires Valid() && outstanding > 0
      modifies this
      ensures Valid() && outstanding == old(outstanding) - 1
      ensures outstanding > 0 ==> lh == old(lh) && pinned == old(pinned) && disk == old(disk) && trace == old(trace)
      ensures outstanding == 0 ==>
                && lh == [] && trace == old(trace) + CommitWrites(lay, old(disk), old(lh), old(pinned))
                && HomeEq(lay, disk, Overlay(old(disk), old(lh), old(pinned)))
      ensures forall b: nat :: !lay.InLog(b) ==> View(b) == old(View(b))
    {
      outstanding := outstanding - 1;
      if outstanding == 0 {
        CommitCompletes(lay, disk, lh, pinned);
        Commit();
      }
    }

    /** `log_write` of a held buffer whose new content is data. It panics when the
        list is full, even for a block that would be absorbed. */
    method LogWrite(b: nat, data: Block) returns (panicked: bool)
      requires Valid()
      requires b < WORD_LIMIT && !lay.InLog(b)
      modifies this`lh, this`pinned
      ensures Valid()
      ensures panicked <==> |old(lh)| >= LOGSIZE || |old(lh)| >= lay.size - 1 || outstanding < 1
      ensures panicked ==> lh == old(lh) && pinned == old(pinned)
      ensures !panicked ==> lh == Absorb(old(lh), b) && pinned == old(pinned)[b := data]
      ensures forall c: nat :: View(c) == if c == b && !panicked then data else old(View(c))
    {
      if |lh| >= LOGSIZE || |lh| >= lay.size - 1 || outstanding < 1 { return true; }
      var i := 0;
      while i < |lh|
        invariant 0 <= i <= |lh|
        invariant b !in lh[..i]
      {
        if lh[i] == b { break; }
        i := i + 1;
      }
      pinned := pinned[b := data];
      if i == |lh| { lh := lh + [b]; }
      return false;
    }
  }

  /** A crash after the first k writes of a commit recovers to the old home blocks
      while the header is not out, and to all of the new ones from then on. */
  ghost predicate CrashSafe(lay: Layout, d: Disk, lh: seq<nat>, mem: Disk, k: nat)
    requires HeaderOk(lay, lh)
  {
    k <= |CommitWrites(lay, d, lh, mem)| ==>
      var e := After(d, CommitWrites(lay, d, lh, mem), k);
      && DiskOk(lay, e)
      && HomeEq(lay, Recovered(lay, e), if k <= |lh| then d else Overlay(d, lh, mem))
  }

  lemma CommitCrashSafe(lay: Layout, d: Disk, lh: seq<nat>, mem: Disk)
    requires DiskOk(lay, d) && Head(lay, d) == [] && HeaderOk(lay, lh)
    ensures forall k: nat :: CrashSafe(lay, d, lh, mem, k)
  {
    hide DiskOk, Head, HeaderOk, CommitWrites, Overlay, Recovered, After;
    forall k: nat ensures CrashSafe(lay, d, lh, mem, k) {
      if k <= |CommitWrites(lay, d, lh, mem)| { CommitCrash(lay, d, lh, mem, k); }
    }
  }

  /** Block b is still to be installed by an install_trans that reached slot tail. */
  ghost predicate Pending(lh: seq<nat>, tail: nat, b: nat) {
    exists i :: tail <= i < |lh| && lh[i] == b
  }

  lemma SlotNotLogged(lay: Layout, lh: seq<nat>, k: nat)
    requires lay.Valid() && HeaderOk(lay, lh) && k < |lh|
    ensures lay.start + 1 + k !in lh
  {
    assert lay.InLog(lay.start + 1 + k);
  }

  lemma InstallKeepsSlot(lay: Layout, lh: seq<nat>, d: Disk, k: nat)
    requires lay.Valid() && HeaderOk(lay, lh) && k < |lh|
    ensures lay.start + 1 + k !in lh
    ensures At(After(d, InstallWrites(lay, lh, d), k), lay.start + 1 + k) == At(d, lay.start + 1 + k)
  {
    SlotNotLogged(lay, lh, k);
    AfterMisses(d, InstallWrites(lay, lh, d), k, lay.start + 1 + k);
  }
}
