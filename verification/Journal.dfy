/** The on-disk redo log: what `commit` and `recover_from_log` write, block by
    block, and what a crash between any two of those writes can leave behind. */
module Journal {
  import opened Blocks

  const MAXOPBLOCKS := 10
  const LOGSIZE := 30

  /** Disk contents; a block that was never written reads as zeroes. */
  type Disk = map<nat, Block>

  function At(d: Disk, b: nat): Block {
    if b in d then d[b] else Zero
  }

  /** One `bwrite`: the unit that a crash cannot split. */
  datatype Write = Write(block: nat, data: Block)

  /** The disk after the first n of the writes ws. */
  function After(d: Disk, ws: seq<Write>, n: nat): Disk
    requires n <= |ws|
  {
    if n == 0 then d else After(d, ws, n - 1)[ws[n - 1].block := ws[n - 1].data]
  }

  function Apply(d: Disk, ws: seq<Write>): Disk {
    After(d, ws, |ws|)
  }

  /** Where the log lies: a header block, then `size - 1` copies of home blocks. */
  datatype Layout = Layout(start: nat, size: nat) {
    predicate InLog(b: nat) {
      start <= b < start + size
    }

    predicate Valid() {
      1 <= size
    }
  }

  // ----- the header block -----

  predicate HeaderOk(lay: Layout, lh: seq<nat>) {
    && |lh| <= LOGSIZE
    && |lh| < lay.size
    && forall i :: 0 <= i < |lh| ==> lh[i] < WORD_LIMIT && !lay.InLog(lh[i])
  }

  function ReadHead(blk: Block): seq<nat>
    requires GetWord(blk, 0) <= LOGSIZE
  {
    seq(GetWord(blk, 0), i requires 0 <= i < LOGSIZE => GetWord(blk, i + 1))
  }

  function PutEntries(blk: Block, lh: seq<nat>, k: nat): Block
    requires k <= |lh| <= LOGSIZE
    requires forall i :: 0 <= i < |lh| ==> lh[i] < WORD_LIMIT
  {
    if k == 0 then PutWord(blk, 0, |lh|) else PutWord(PutEntries(blk, lh, k - 1), k, lh[k - 1])
  }

  function WriteHead(blk: Block, lh: seq<nat>): Block
    requires |lh| <= LOGSIZE
    requires forall i :: 0 <= i < |lh| ==> lh[i] < WORD_LIMIT
  {
    PutEntries(blk, lh, |lh|)
  }

  lemma {:induction false} EntriesRead(blk: Block, lh: seq<nat>, k: nat, j: nat)
    requires k <= |lh| <= LOGSIZE && j <= k
    requires forall i :: 0 <= i < |lh| ==> lh[i] < WORD_LIMIT
    ensures GetWord(PutEntries(blk, lh, k), j) == if j == 0 then |lh| else lh[j - 1]
  {
    if k == 0 {
      PutGetWord(blk, 0, |lh|, 0);
    } else {
      PutGetWord(PutEntries(blk, lh, k - 1), k, lh[k - 1], j);
      if j < k { EntriesRead(blk, lh, k - 1, j); }
    }
  }

  /** `read_head` after `write_head` gives the same list, whatever the block held before. */
  lemma HeadRoundTrip(blk: Block, lh: seq<nat>)
    requires |lh| <= LOGSIZE
    requires forall i :: 0 <= i < |lh| ==> lh[i] < WORD_LIMIT
    ensures GetWord(WriteHead(blk, lh), 0) == |lh|
    ensures forall i :: 0 <= i < |lh| ==> GetWord(WriteHead(blk, lh), i + 1) == lh[i]
    ensures ReadHead(WriteHead(blk, lh)) == lh
  {
    EntriesRead(blk, lh, |lh|, 0);
    forall i | 0 <= i < |lh| ensures ReadHead(WriteHead(blk, lh))[i] == lh[i] {
      EntriesRead(blk, lh, |lh|, i + 1);
    }
  }

  ghost predicate DiskOk(lay: Layout, d: Disk) {
    && lay.Valid()
    && GetWord(At(d, lay.start), 0) <= LOGSIZE
    && HeaderOk(lay, ReadHead(At(d, lay.start)))
  }

  function Head(lay: Layout, d: Disk): seq<nat>
    requires GetWord(At(d, lay.start), 0) <= LOGSIZE
  {
    ReadHead(At(d, lay.start))
  }

  // ----- the writes of commit and of recovery -----

  /** `write_log`: copy each logged block from memory into the log. */
  function LogWrites(lay: Layout, lh: seq<nat>, mem: Disk): seq<Write> {
    seq(|lh|, i requires 0 <= i < |lh| => Write(lay.start + 1 + i, At(mem, lh[i])))
  }

  function HeadWrite(lay: Layout, d: Disk, lh: seq<nat>): Write
    requires HeaderOk(lay, lh)
  {
    Write(lay.start, WriteHead(At(d, lay.start), lh))
  }

  /** `install_trans`: copy each logged block from the log to its home. */
  function InstallWrites(lay: Layout, lh: seq<nat>, d: Disk): seq<Write> {
    seq(|lh|, i requires 0 <= i < |lh| => Write(lh[i], At(d, lay.start + 1 + i)))
  }

  /** `install_trans`, then the `write_head` that empties the log. */
  function FinishWrites(lay: Layout, d: Disk, lh: seq<nat>): seq<Write>
    requires HeaderOk(lay, lh)
  {
    InstallWrites(lay, lh, d) + [HeadWrite(lay, d, [])]
  }

  /** The writes of one `recover_from_log` started on disk d. */
  function RecoverWrites(lay: Layout, d: Disk): seq<Write>
    requires DiskOk(lay, d)
  {
    FinishWrites(lay, d, Head(lay, d))
  }

  /** The disk after an uninterrupted `recover_from_log`. */
  function Recovered(lay: Layout, d: Disk): Disk
    requires DiskOk(lay, d)
  {
    Apply(d, RecoverWrites(lay, d))
  }

  /** `write_log`, then the `write_head` that commits. */
  function SealWrites(lay: Layout, d: Disk, lh: seq<nat>, mem: Disk): seq<Write>
    requires HeaderOk(lay, lh)
  {
    LogWrites(lay, lh, mem) + [HeadWrite(lay, d, lh)]
  }

  function Sealed(lay: Layout, d: Disk, lh: seq<nat>, mem: Disk): Disk
    requires HeaderOk(lay, lh)
  {
    Apply(d, SealWrites(lay, d, lh, mem))
  }

  /** All the writes of one `commit` of the blocks `lh`, whose new contents are in `mem`. */
  function CommitWrites(lay: Layout, d: Disk, lh: seq<nat>, mem: Disk): seq<Write>
    requires HeaderOk(lay, lh)
  {
    if lh == [] then [] else SealWrites(lay, d, lh, mem) + FinishWrites(lay, Sealed(lay, d, lh, mem), lh)
  }

  // ----- facts about sequences of writes -----

  lemma {:induction false} AfterFirst(d: Disk, ws: seq<Write>, us: seq<Write>, n: nat)
    requires n <= |ws|
    ensures After(d, ws + us, n) == After(d, ws, n)
  {
    if n > 0 { AfterFirst(d, ws, us, n - 1); }
  }

  lemma AfterNone(d: Disk, ws: seq<Write>)
    ensures After(d, ws, 0) == d
  {}

  lemma AfterNext(d: Disk, ws: seq<Write>, n: nat)
    requires n < |ws|
    ensures After(d, ws, n + 1) == After(d, ws, n)[ws[n].block := ws[n].data]
  {}

  lemma {:induction false} AfterAppend(d: Disk, ws: seq<Write>, us: seq<Write>, n: nat)
    requires n <= |us|
    ensures After(d, ws + us, |ws| + n) == After(Apply(d, ws), us, n)
  {
    if n == 0 {
      AfterFirst(d, ws, us, |ws|);
    } else {
      AfterAppend(d, ws, us, n - 1);
    }
  }

  lemma ApplySnoc(d: Disk, ws: seq<Write>, w: Write)
    ensures Apply(d, ws + [w]) == Apply(d, ws)[w.block := w.data]
  {
    AfterFirst(d, ws, [w], |ws|);
  }

  lemma {:induction false} AfterMisses(d: Disk, ws: seq<Write>, n: nat, b: nat)
    requires n <= |ws| && forall i :: 0 <= i < n ==> ws[i].block != b
    ensures At(After(d, ws, n), b) == At(d, b)
  {
    if n > 0 { AfterMisses(d, ws, n - 1, b); }
  }

  /** The last write to a block decides its content. */
  lemma {:induction false} AfterHits(d: Disk, ws: seq<Write>, n: nat, i: nat)
    requires i < n <= |ws|
    requires forall j :: i < j < n ==> ws[j].block != ws[i].block
    ensures At(After(d, ws, n), ws[i].block) == ws[i].data
  {
    if i < n - 1 { AfterHits(d, ws, n - 1, i); }
  }

  /** A block that some writes cover ends up the same from any start. */
  lemma {:induction false} AfterForgets(d: Disk, e: Disk, ws: seq<Write>, n: nat, b: nat)
    requires n <= |ws|
    requires At(d, b) == At(e, b) || exists i :: 0 <= i < n && ws[i].block == b
    ensures At(After(d, ws, n), b) == At(After(e, ws, n), b)
  {
    if n > 0 && ws[n - 1].block != b { AfterForgets(d, e, ws, n - 1, b); }
  }

  // ----- what a crash can leave behind -----

  /** Two disks agree on everything but the log itself. */
  ghost predicate HomeEq(lay: Layout, d: Disk, e: Disk) {
    forall b: nat :: !lay.InLog(b) ==> At(d, b) == At(e, b)
  }

  ghost predicate LogEq(lay: Layout, d: Disk, e: Disk) {
    forall b: nat :: lay.InLog(b) ==> At(d, b) == At(e, b)
  }

  lemma EmptyHeadOk(lay: Layout, d: Disk)
    requires lay.Valid()
    ensures HeaderOk(lay, [])
    ensures At(Apply(d, [HeadWrite(lay, d, [])]), lay.start) == WriteHead(At(d, lay.start), [])
    ensures ReadHead(WriteHead(At(d, lay.start), [])) == []
  {
    HeadRoundTrip(At(d, lay.start), []);
  }

  /** Writes to home blocks leave the log, and so what recovery will do, alone. */
  lemma HomeWritesKeepLog(lay: Layout, d: Disk, ws: seq<Write>, n: nat)
    requires n <= |ws| && forall i :: 0 <= i < n ==> !lay.InLog(ws[i].block)
    ensures LogEq(lay, d, After(d, ws, n))
  {
    forall b: nat | lay.InLog(b) ensures At(d, b) == At(After(d, ws, n), b) {
      AfterMisses(d, ws, n, b);
    }
  }

  lemma LogWritesKeepHome(lay: Layout, d: Disk, ws: seq<Write>, n: nat)
    requires n <= |ws| && forall i :: 0 <= i < n ==> lay.InLog(ws[i].block)
    ensures HomeEq(lay, d, After(d, ws, n))
  {
    forall b: nat | !lay.InLog(b) ensures At(d, b) == At(After(d, ws, n), b) {
      AfterMisses(d, ws, n, b);
    }
  }

  lemma SameLogSameWrites(lay: Layout, d: Disk, e: Disk)
    requires DiskOk(lay, d) && LogEq(lay, d, e)
    ensures DiskOk(lay, e) && Head(lay, e) == Head(lay, d)
    ensures RecoverWrites(lay, e) == RecoverWrites(lay, d)
  {
    assert lay.InLog(lay.start);
    var lh := Head(lay, d);
    forall i | 0 <= i < |lh| ensures InstallWrites(lay, lh, d)[i] == InstallWrites(lay, lh, e)[i] {
      assert lay.InLog(lay.start + 1 + i);
    }
    assert InstallWrites(lay, lh, d) == InstallWrites(lay, lh, e);
  }

  /** Rerunning all of ws after some of ws gives what running ws once gives. */
  lemma RedoAfterPrefix(d: Disk, ws: seq<Write>, j: nat, b: nat)
    requires j <= |ws|
    ensures At(Apply(After(d, ws, j), ws), b) == At(Apply(d, ws), b)
  {
    if forall i :: 0 <= i < j ==> ws[i].block != b {
      AfterMisses(d, ws, j, b);
    }
    AfterForgets(After(d, ws, j), d, ws, |ws|, b);
  }

  lemma EmptyLogRecovers(lay: Layout, d: Disk)
    requires DiskOk(lay, d) && Head(lay, d) == []
    ensures HomeEq(lay, Recovered(lay, d), d)
    ensures DiskOk(lay, Recovered(lay, d)) && Head(lay, Recovered(lay, d)) == []
  {
    EmptyHeadOk(lay, d);
    assert RecoverWrites(lay, d) == [HeadWrite(lay, d, [])];
    LogWritesKeepHome(lay, d, RecoverWrites(lay, d), 1);
  }

  lemma RecoveredHead(lay: Layout, d: Disk)
    requires DiskOk(lay, d)
    ensures DiskOk(lay, Recovered(lay, d)) && Head(lay, Recovered(lay, d)) == []
  {
    EmptyHeadOk(lay, d);
    AfterHits(d, RecoverWrites(lay, d), |RecoverWrites(lay, d)|, |RecoverWrites(lay, d)| - 1);
  }

  /** A crash after any number of recovery's own writes changes nothing that
      the next recovery delivers. */
  lemma RecoveryCrash(lay: Layout, d: Disk, j: nat)
    requires DiskOk(lay, d) && j <= |RecoverWrites(lay, d)|
    ensures DiskOk(lay, After(d, RecoverWrites(lay, d), j))
    ensures HomeEq(lay, Recovered(lay, After(d, RecoverWrites(lay, d), j)), Recovered(lay, d))
  {
    var ws := RecoverWrites(lay, d);
    var e := After(d, ws, j);
    if j == |ws| {
      RecoveredHead(lay, d);
      EmptyLogRecovers(lay, e);
    } else {
      HomeWritesKeepLog(lay, d, ws, j);
      SameLogSameWrites(lay, d, e);
      forall b: nat | !lay.InLog(b) ensures At(Recovered(lay, e), b) == At(Recovered(lay, d), b) {
        RedoAfterPrefix(d, ws, j, b);
      }
    }
  }

  /** A run of boots: each recovers for a while, then loses power. */
  ghost predicate CrashedBoots(lay: Layout, ds: seq<Disk>) {
    && (forall i :: 0 <= i < |ds| ==> DiskOk(lay, ds[i]))
    && forall i :: 0 < i < |ds| ==> InterruptedBoot(lay, ds[i - 1], ds[i])
  }

  ghost predicate InterruptedBoot(lay: Layout, d: Disk, e: Disk)
    requires DiskOk(lay, d)
  {
    exists j :: 0 <= j <= |RecoverWrites(lay, d)| && e == After(d, RecoverWrites(lay, d), j)
  }

  /** However often recovery is interrupted, a completed one delivers the home
      blocks that an uninterrupted recovery of the first disk would have. */
  lemma {:induction false} RepeatedCrashes(lay: Layout, ds: seq<Disk>)
    requires |ds| > 0 && CrashedBoots(lay, ds)
    ensures HomeEq(lay, Recovered(lay, ds[|ds| - 1]), Recovered(lay, ds[0]))
  {
    var n := |ds| - 1;
    if n > 0 {
      RepeatedCrashes(lay, ds[..n]);
      assert InterruptedBoot(lay, ds[n - 1], ds[n]);
      var j :| 0 <= j <= |RecoverWrites(lay, ds[n - 1])| && ds[n] == After(ds[n - 1], RecoverWrites(lay, ds[n - 1]), j);
      RecoveryCrash(lay, ds[n - 1], j);
    }
  }

  /** The home blocks of d with the logged blocks taken from memory. */
  function Overlay(d: Disk, lh: seq<nat>, mem: Disk): Disk {
    d + map b: nat | b in lh :: At(mem, b)
  }

  /** Neither the log slots nor the home blocks are the header block. */
  lemma HeaderStays(lay: Layout, d: Disk, lh: seq<nat>, mem: Disk)
    requires lay.Valid() && HeaderOk(lay, lh)
    ensures At(Apply(d, LogWrites(lay, lh, mem)), lay.start) == At(d, lay.start)
    ensures At(Apply(d, InstallWrites(lay, lh, mem)), lay.start) == At(d, lay.start)
  {
    AfterMisses(d, LogWrites(lay, lh, mem), |lh|, lay.start);
    AfterMisses(d, InstallWrites(lay, lh, mem), |lh|, lay.start);
  }

  lemma SealedSlot(lay: Layout, d: Disk, lh: seq<nat>, mem: Disk, i: nat)
    requires lay.Valid() && HeaderOk(lay, lh) && i < |lh|
    ensures At(Sealed(lay, d, lh, mem), lay.start + 1 + i) == At(mem, lh[i])
  {
    var ws := SealWrites(lay, d, lh, mem);
    assert ws[i] == Write(lay.start + 1 + i, At(mem, lh[i]));
    forall j | i < j < |ws| ensures ws[j].block != ws[i].block {
      if j < |lh| { assert ws[j].block == lay.start + 1 + j; }
    }
    AfterHits(d, ws, |ws|, i);
  }

  lemma SealedLog(lay: Layout, d: Disk, lh: seq<nat>, mem: Disk)
    requires lay.Valid() && HeaderOk(lay, lh)
    ensures DiskOk(lay, Sealed(lay, d, lh, mem)) && Head(lay, Sealed(lay, d, lh, mem)) == lh
    ensures forall i :: 0 <= i < |lh| ==> At(Sealed(lay, d, lh, mem), lay.start + 1 + i) == At(mem, lh[i])
    ensures HomeEq(lay, d, Sealed(lay, d, lh, mem))
  {
    var ws := SealWrites(lay, d, lh, mem);
    forall i | 0 <= i < |lh| ensures At(Sealed(lay, d, lh, mem), lay.start + 1 + i) == At(mem, lh[i]) {
      SealedSlot(lay, d, lh, mem, i);
    }
    AfterHits(d, ws, |ws|, |lh|);
    HeadRoundTrip(At(d, lay.start), lh);
    LogWritesKeepHome(lay, d, ws, |ws|);
  }

  lemma SealedRecovers(lay: Layout, d: Disk, lh: seq<nat>, mem: Disk)
    requires lay.Valid() && HeaderOk(lay, lh)
    ensures DiskOk(lay, Sealed(lay, d, lh, mem)) && Head(lay, Sealed(lay, d, lh, mem)) == lh
    ensures HomeEq(lay, Recovered(lay, Sealed(lay, d, lh, mem)), Overlay(d, lh, mem))
  {
    var e := Sealed(lay, d, lh, mem);
    SealedLog(lay, d, lh, mem);
    var ws := RecoverWrites(lay, e);
    forall b: nat | !lay.InLog(b) ensures At(Apply(e, ws), b) == At(Overlay(d, lh, mem), b) {
      if b in lh {
        InstallDelivers(lay, lh, e, mem, b);
      } else {
        AfterMisses(e, ws, |ws|, b);
      }
    }
  }

  lemma InstallDelivers(lay: Layout, lh: seq<nat>, e: Disk, mem: Disk, b: nat)
    requires lay.Valid() && HeaderOk(lay, lh) && b in lh
    requires forall i :: 0 <= i < |lh| ==> At(e, lay.start + 1 + i) == At(mem, lh[i])
    ensures At(Apply(e, FinishWrites(lay, e, lh)), b) == At(mem, b)
  {
    var ws := FinishWrites(lay, e, lh);
    var i := LastIndex(lh, b);
    AfterHits(e, ws, |ws|, i);
  }

  function LastIndex(lh: seq<nat>, b: nat): (i: nat)
    requires b in lh
    ensures i < |lh| && lh[i] == b
    ensures forall j :: i < j < |lh| ==> lh[j] != b
  {
    if lh[|lh| - 1] == b then |lh| - 1 else LastIndex(lh[..|lh| - 1], b)
  }

  /** Past its header write, a commit does what a recovery would do. */
  lemma CommitTail(lay: Layout, d: Disk, lh: seq<nat>, mem: Disk, j: nat)
    requires HeaderOk(lay, lh) && lh != []
    requires DiskOk(lay, Sealed(lay, d, lh, mem)) && Head(lay, Sealed(lay, d, lh, mem)) == lh
    requires j <= |RecoverWrites(lay, Sealed(lay, d, lh, mem))|
    ensures |CommitWrites(lay, d, lh, mem)| == |lh| + 1 + |RecoverWrites(lay, Sealed(lay, d, lh, mem))|
    ensures After(d, CommitWrites(lay, d, lh, mem), |lh| + 1 + j)
         == After(Sealed(lay, d, lh, mem), RecoverWrites(lay, Sealed(lay, d, lh, mem)), j)
  {
    hide HeaderOk, DiskOk, Head, After, WriteHead, InstallWrites;
    AfterAppend(d, SealWrites(lay, d, lh, mem), RecoverWrites(lay, Sealed(lay, d, lh, mem)), j);
  }

  /** Crash atomicity: after the first k writes of a commit, recovery delivers
      the old home blocks as long as the header is not out (k <= n), and all the
      new ones from then on. */
  lemma CommitCrash(lay: Layout, d: Disk, lh: seq<nat>, mem: Disk, k: nat)
    requires DiskOk(lay, d) && Head(lay, d) == []
    requires HeaderOk(lay, lh) && k <= |CommitWrites(lay, d, lh, mem)|
    ensures var e := After(d, CommitWrites(lay, d, lh, mem), k);
            && DiskOk(lay, e)
            && HomeEq(lay, Recovered(lay, e), if k <= |lh| then d else Overlay(d, lh, mem))
  {
    hide HeaderOk, ReadHead, GetWord, Recovered, Sealed, RecoverWrites, Overlay, After, SealWrites, FinishWrites;
    if k <= |lh| {
      CommitCrashEarly(lay, d, lh, mem, k);
    } else {
      SealedRecovers(lay, d, lh, mem);
      CommitTail(lay, d, lh, mem, 0);
      CommitTail(lay, d, lh, mem, k - |lh| - 1);
      RecoveryCrash(lay, Sealed(lay, d, lh, mem), k - |lh| - 1);
    }
  }

  lemma CommitCrashEarly(lay: Layout, d: Disk, lh: seq<nat>, mem: Disk, k: nat)
    requires DiskOk(lay, d) && Head(lay, d) == []
    requires HeaderOk(lay, lh) && k <= |lh|
    ensures k <= |CommitWrites(lay, d, lh, mem)|
    ensures var e := After(d, CommitWrites(lay, d, lh, mem), k);
            DiskOk(lay, e) && HomeEq(lay, Recovered(lay, e), d)
  {
    var ws := CommitWrites(lay, d, lh, mem);
    assert forall i :: 0 <= i < k ==> ws[i].block == lay.start + 1 + i;
    AfterMisses(d, ws, k, lay.start);
    LogWritesKeepHome(lay, d, ws, k);
    EmptyLogRecovers(lay, After(d, ws, k));
  }

  /** A commit that runs to its end installs every logged block and leaves the log empty. */
  lemma CommitCompletes(lay: Layout, d: Disk, lh: seq<nat>, mem: Disk)
    requires DiskOk(lay, d) && Head(lay, d) == [] && HeaderOk(lay, lh)
    ensures var e := Apply(d, CommitWrites(lay, d, lh, mem));
            DiskOk(lay, e) && Head(lay, e) == [] && HomeEq(lay, e, Overlay(d, lh, mem))
  {
    if lh != [] {
      CommitInstalls(lay, d, lh, mem);
    }
  }

  lemma CommitInstalls(lay: Layout, d: Disk, lh: seq<nat>, mem: Disk)
    requires lay.Valid() && HeaderOk(lay, lh) && lh != []
    ensures var e := Apply(d, CommitWrites(lay, d, lh, mem));
            DiskOk(lay, e) && Head(lay, e) == [] && HomeEq(lay, e, Overlay(d, lh, mem))
  {
    hide HeaderOk, DiskOk, Head, HomeEq, Sealed, RecoverWrites, Overlay, After, CommitWrites;
    SealedRecovers(lay, d, lh, mem);
    var sealed := Sealed(lay, d, lh, mem);
    CommitTail(lay, d, lh, mem, |RecoverWrites(lay, sealed)|);
    RecoveredHead(lay, sealed);
  }
}
