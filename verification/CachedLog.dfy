/** log_write and commit on the buffer cache itself: the listed blocks are pinned buffers,
    and every block moves through bread, bwrite and brelse.

    Between the calls below no other buffer is in use. The disk writes are those of
    Journal.CommitWrites, one by one as for Log.Commit, with the cache's content as the memory;
    commit also needs a buffer that is not pinned. */
module CachedLog {
  import opened Blocks
  import opened Journal
  import opened Common
  import opened BufferCache
  import opened Log
  import LogProtocol

  // ----- the pool between two calls -----

  /** Nobody holds a buffer, and exactly the buffers of the blocks in pins are in use. */
  ghost predicate Resting(s: seq<Buf>, pins: set<nat>) {
    && |s| == NBUF + 1
    && (forall i :: 0 <= i < NBUF ==> s[i].holder == 0 && s[i].refcnt == if Pinned(s[i], pins) then 1 else 0)
    && forall b :: b in pins ==> exists i: nat :: InSlot(s, i, b)
  }

  predicate Pinned(buf: Buf, pins: set<nat>) {
    buf.dev == ROOTDEV && buf.blockno in pins
  }

  predicate InSlot(s: seq<Buf>, i: nat, b: nat) {
    i < NBUF < |s| && Holds(s[i], b)
  }

  /** Each block is in at most one buffer. */
  ghost predicate Single(s: seq<Buf>) {
    |s| == NBUF + 1 && forall i, j, b :: InSlot(s, i, b) && InSlot(s, j, b) ==> i == j
  }

  lemma CoherentSingle(s: seq<Buf>, disk: Disk, content: Disk, dirty: map<nat, nat>)
    requires Coherent(s, disk, content, dirty)
    ensures Single(s)
  {}

  /** The blocks in use among the first n buffers. */
  ghost function InUseBlocks(s: seq<Buf>, n: nat): set<nat>
    requires n <= NBUF < |s|
  {
    if n == 0 then {} else InUseBlocks(s, n - 1) + if s[n - 1].refcnt > 0 then {s[n - 1].blockno} else {}
  }

  lemma {:induction false} InUseMember(s: seq<Buf>, n: nat, b: nat)
    requires n <= NBUF < |s|
    ensures b in InUseBlocks(s, n) <==> exists i :: 0 <= i < n && s[i].refcnt > 0 && s[i].blockno == b
  {
    if n > 0 { InUseMember(s, n - 1, b); }
  }

  lemma {:induction false} InUseCount(s: seq<Buf>, n: nat, pins: set<nat>)
    requires n <= NBUF < |s| && Single(s) && Resting(s, pins)
    ensures |InUseBlocks(s, n)| <= n
    ensures |InUseBlocks(s, n)| == n <==> forall i :: 0 <= i < n ==> s[i].refcnt > 0
  {
    if n > 0 {
      InUseCount(s, n - 1, pins);
      var b := s[n - 1].blockno;
      InUseMember(s, n - 1, b);
      if s[n - 1].refcnt > 0 && b in InUseBlocks(s, n - 1) {
        var i :| 0 <= i < n - 1 && s[i].refcnt > 0 && s[i].blockno == b;
        assert InSlot(s, i, b) && InSlot(s, n - 1, b);
      }
    }
  }

  lemma InUsePins(s: seq<Buf>, pins: set<nat>)
    requires Resting(s, pins)
    ensures InUseBlocks(s, NBUF) == pins
  {
    hide InUseBlocks;
    forall b: nat ensures b in InUseBlocks(s, NBUF) <==> b in pins {
      InUseMember(s, NBUF, b);
      if b in pins {
        var i: nat :| InSlot(s, i, b);
        assert s[i].refcnt > 0;
      }
    }
  }

  /** bget finds no buffer for an unpinned block exactly when as many blocks are pinned as
      there are buffers. */
  lemma ExhaustedIff(s: seq<Buf>, pins: set<nat>, b: nat)
    requires Single(s) && Resting(s, pins) && b !in pins
    ensures |pins| <= NBUF && (Exhausted(s, b) <==> |pins| == NBUF)
  {
    hide InUseBlocks;
    InUseCount(s, NBUF, pins);
    InUsePins(s, pins);
    if |pins| == NBUF {
      forall i | 0 <= i < NBUF ensures !Holds(s[i], b) && s[i].refcnt > 0 {
        assert s[i].refcnt > 0;
      }
    }
  }

  lemma PinnedInPool(s: seq<Buf>, pins: set<nat>, b: nat)
    requires Resting(s, pins) && b in pins
    ensures !Exhausted(s, b)
  {
    var i: nat :| InSlot(s, i, b);
  }

  // ----- one block through the cache -----

  /** The pool t while buffers of the blocks in pins and n more users of block a are there;
      every buffer but x is as it was in s. */
  lemma StillPinned(s: seq<Buf>, pins: set<nat>, a: nat, x: nat, t: seq<Buf>, b: nat)
    requires Single(s) && Resting(s, pins) && a !in pins && Used(s, a, x, t) && b in pins
    ensures !Exhausted(t, b)
    ensures exists i: nat :: i != x && InSlot(s, i, b) && t[i] == s[i] && s[i].holder == 0 && s[i].refcnt == 1
  {
    var i: nat :| InSlot(s, i, b);
    assert s[i].refcnt == 1;
    assert i != x;
  }

  /** One unpinned block was taken, used and given back. */
  lemma OneReturned(s: seq<Buf>, a: nat, x: nat, s1: seq<Buf>, s2: seq<Buf>, s3: seq<Buf>, pins: set<nat>)
    requires Resting(s, pins) && a !in pins && Used(s, a, x, s1)
    requires |s2| == |s1| && s2 == s1[x := s1[x].(data := s2[x].data)]
    requires SameBufs(s3, s2[x := s2[x].(refcnt := s1[x].refcnt - 1, holder := 0)])
    ensures Resting(s3, pins)
  {
    forall b | b in pins ensures exists i: nat :: InSlot(s3, i, b) {
      var i: nat :| InSlot(s, i, b);
      assert s[i].refcnt == 1;
      assert InSlot(s3, i, b);
    }
  }

  /** A log slot and then a pinned home block were taken. */
  lemma TwoTaken(s: seq<Buf>, pins: set<nat>, slot: nat, x: nat, s1: seq<Buf>, home: nat, y: nat, s2: seq<Buf>)
    requires Single(s1) && Resting(s, pins) && slot !in pins && home in pins
    requires Used(s, slot, x, s1) && Used(s1, home, y, s2)
    ensures x < NBUF && y < NBUF && x != y && s1[y] == s[y] && Holds(s[y], home)
    ensures s2[x] == s1[x] && s2[x].refcnt == 1 && s2[x].blockno == slot
    ensures s2[y].refcnt == 2 && s2[y].blockno == home && s1[y].holder == 0
  {
    var i: nat :| InSlot(s, i, home);
    assert s[i].refcnt == 1;
    assert i != x && InSlot(s1, i, home) && InSlot(s1, y, home);
  }

  /** Process me holds the log slot in buffer x and the pinned home block in buffer y. */
  ghost predicate PairHeld(s: seq<Buf>, slot: nat, x: nat, home: nat, y: nat, t: seq<Buf>, me: nat) {
    && x < NBUF && y < NBUF && x != y && |s| == |t| == NBUF + 1
    && Holds(t[x], slot) && s[x].refcnt == 0 && t[x].refcnt == 1 && t[x].holder == me && t[x].valid
    && Holds(s[y], home) && Holds(t[y], home) && t[y].refcnt == 2 && t[y].holder == me && t[y].valid
    && forall i :: 0 <= i < |s| && i != x && i != y ==> t[i] == s[i]
  }

  lemma PairIs(s: seq<Buf>, pins: set<nat>, slot: nat, x: nat, s1: seq<Buf>, home: nat, y: nat, s2: seq<Buf>, me: nat)
    requires Single(s1) && Resting(s, pins) && slot !in pins && home in pins
    requires Used(s, slot, x, s1) && Used(s1, home, y, s2)
    requires s1[x].holder == me && s1[x].valid && s2[y].holder == me && s2[y].valid
    ensures PairHeld(s, slot, x, home, y, s2, me)
  {
    TwoTaken(s, pins, slot, x, s1, home, y, s2);
  }

  lemma SameBufAt(s: seq<Buf>, t: seq<Buf>, i: nat)
    requires SameBufs(s, t) && i < |s|
    ensures s[i].refcnt == t[i].refcnt && s[i].holder == t[i].holder && s[i].blockno == t[i].blockno
    ensures s[i].valid == t[i].valid
  {}

  /** The pool after the slot in x was written and both buffers released. */
  lemma SlotReturned(s: seq<Buf>, pins: set<nat>, slot: nat, x: nat, home: nat, y: nat, s2: seq<Buf>, me: nat,
                     s3: seq<Buf>, s4: seq<Buf>, s5: seq<Buf>)
    requires Resting(s, pins) && slot !in pins && home in pins && PairHeld(s, slot, x, home, y, s2, me)
    requires |s3| == |s2| && s3 == s2[x := s2[x].(data := s3[x].data)]
    requires SameBufs(s4, s3[y := s3[y].(refcnt := 1, holder := 0)])
    requires SameBufs(s5, s4[x := s4[x].(refcnt := 0, holder := 0)])
    ensures Resting(s5, pins)
  {
    forall b | b in pins ensures exists i: nat :: InSlot(s5, i, b) {
      var i: nat :| InSlot(s, i, b);
      assert s[i].refcnt == 1;
      assert InSlot(s5, i, b);
    }
  }

  /** The pool after the home block in y was written and unpinned and both buffers released. */
  lemma HomeReturned(s: seq<Buf>, pins: set<nat>, slot: nat, x: nat, home: nat, y: nat, s2: seq<Buf>, me: nat,
                     s4: seq<Buf>, s5: seq<Buf>, s6: seq<Buf>)
    requires Single(s) && Resting(s, pins) && slot !in pins && home in pins && PairHeld(s, slot, x, home, y, s2, me)
    requires |s4| == |s2| && s4 == s2[y := s2[y].(data := s4[y].data, refcnt := 1)]
    requires SameBufs(s5, s4[x := s4[x].(refcnt := 0, holder := 0)])
    requires SameBufs(s6, s5[y := s5[y].(refcnt := 0, holder := 0)])
    ensures Resting(s6, pins - {home})
  {
    forall i: nat | i < NBUF && i != y ensures !Holds(s[i], home) {
      assert Holds(s[i], home) ==> InSlot(s, i, home) && InSlot(s, y, home);
    }
    forall b | b in pins - {home} ensures exists i: nat :: InSlot(s6, i, b) {
      var i: nat :| InSlot(s, i, b);
      assert s[i].refcnt == 1;
      assert InSlot(s6, i, b);
    }
  }

  /** The blocks listed from position k on. */
  ghost function Elems(lh: seq<nat>, k: nat): set<nat> {
    set i | k <= i < |lh| :: lh[i]
  }

  class CachedLog {
    const lay: Layout
    const cache: BufferCache
    var lh: seq<nat>
    var outstanding: nat

    /** The blocks that are listed are pinned and nothing else is in use; a block whose disk
        copy is behind is listed. */
    ghost predicate Valid()
      reads this, cache, cache.bufs
    {
      && cache.Valid() && DiskOk(lay, cache.disk) && Head(lay, cache.disk) == []
      && HeaderOk(lay, lh) && NoDup(lh)
      && Resting(cache.bufs[..], Elems(lh, 0)) && cache.dirty.Keys <= Elems(lh, 0)
    }

    /** Boot on a recovered disk. */
    constructor (lay: Layout, d: Disk)
      requires DiskOk(lay, d) && Head(lay, d) == []
      ensures this.lay == lay && Valid() && lh == [] && outstanding == 0 && fresh(cache) && fresh(cache.bufs)
      ensures cache.disk == d && cache.content == d && cache.trace == []
    {
      this.lay, lh, outstanding := lay, [], 0;
      cache := new BufferCache(d);
    }

    /** `write_head` of the list l. */
    method WriteHeader(me: nat, l: seq<nat>, ghost pins: set<nat>) returns (panicked: bool)
      requires cache.Valid() && me > 0 && Resting(cache.bufs[..], pins) && cache.dirty.Keys <= pins
      requires HeaderOk(lay, l) && lay.start !in pins
      modifies cache, cache.bufs
      ensures cache.Valid() && (panicked <==> |pins| == NBUF)
      ensures !panicked ==>
                && Resting(cache.bufs[..], pins) && cache.dirty == old(cache.dirty)
                && cache.content == old(cache.content)[lay.start := WriteHead(At(old(cache.content), lay.start), l)]
                && cache.disk == old(cache.disk)[lay.start := WriteHead(At(old(cache.content), lay.start), l)]
                && cache.trace == old(cache.trace) + [Write(lay.start, WriteHead(At(old(cache.content), lay.start), l))]
    {
      hide Coherent, Linked, Resting, Used, SameBufs, Exhausted, WriteHead;
      ghost var s := cache.bufs[..];
      CoherentSingle(s, cache.disk, cache.content, cache.dirty);
      ExhaustedIff(s, pins, lay.start);
      var r := cache.Bread(me, lay.start);
      NobodyWaits(s, pins, r);
      if !r.Locked? { return true; }
      ghost var s1 := cache.bufs[..];
      TakenSlot(s, pins, lay.start, r.b, s1);
      var buf := PutList(cache.bufs[r.b].data, l);
      cache.Update(me, r.b, buf);
      ghost var s2 := cache.bufs[..];
      panicked := cache.Bwrite(me, r.b);
      panicked := cache.Brelse(me, r.b);
      OneReturned(s, lay.start, r.b, s1, s2, cache.bufs[..], pins);
    }

    /** bread of any block while the pool rests. */
    method Take(me: nat, b: nat, ghost pins: set<nat>) returns (ok: bool, x: nat)
      requires cache.Valid() && me > 0 && Resting(cache.bufs[..], pins)
      modifies cache.bufs
      ensures cache.Valid() && (ok <==> b in pins || |pins| != NBUF)
      ensures ok ==> OneHeld(old(cache.bufs[..]), pins, b, x, cache.bufs[..], me)
    {
      hide Coherent, Linked, Resting, Used, SameBufs, Exhausted;
      ghost var s := cache.bufs[..];
      CoherentSingle(s, cache.disk, cache.content, cache.dirty);
      Room(s, pins, b);
      var r := cache.Bread(me, b);
      NobodyWaits(s, pins, r);
      if !r.Locked? { return false, 0; }
      OneTaken(s, pins, b, r.b, cache.bufs[..], me);
      return true, r.b;
    }

    /** `log_write` of the buffer x, which holds block b, listed before or not. */
    method Record(x: nat, b: nat) returns (panic: Option<LogProtocol.Panic>)
      requires cache.Valid() && x < NBUF && Holds(cache.bufs[x], b)
      modifies this`lh, cache.bufs
      ensures cache.Valid()
      ensures panic == (if |old(lh)| >= LOGSIZE || |old(lh)| >= lay.size - 1 then Some(LogProtocol.TooBig)
                        else if outstanding < 1 then Some(LogProtocol.OutsideOp)
                        else None)
      ensures panic.None? ==>
                && lh == Absorb(old(lh), b)
                && var buf := old(cache.bufs[x]);
                   var refs := if b in old(lh) then buf.refcnt else buf.refcnt + 1;
                   cache.bufs[..] == old(cache.bufs[..])[x := buf.(refcnt := refs)]
    {
      hide Coherent, Linked;
      if |lh| >= LOGSIZE || |lh| >= lay.size - 1 { return Some(LogProtocol.TooBig); }
      if outstanding < 1 { return Some(LogProtocol.OutsideOp); }
      var i := FindListed(lh, b);
      if i == |lh| {
        cache.Bpin(x);
        lh := lh + [b];
      }
      return None;
    }

    /** bread of block b, change its data, log_write, brelse. Without a panic the block is
        listed once and pinned, and only its content has changed. */
    method LogWrite(me: nat, b: nat, data: Block) returns (panic: Option<LogProtocol.Panic>)
      requires Valid() && me > 0 && b < WORD_LIMIT && !lay.InLog(b)
      modifies this`lh, cache, cache.bufs
      ensures panic == (if b !in old(lh) && |old(lh)| == NBUF then Some(LogProtocol.NoBuffers)
                        else if |old(lh)| >= LOGSIZE || |old(lh)| >= lay.size - 1 then Some(LogProtocol.TooBig)
                        else if outstanding < 1 then Some(LogProtocol.OutsideOp)
                        else None)
      ensures panic.None? ==>
                && Valid() && lh == Absorb(old(lh), b)
                && cache.content == old(cache.content)[b := data]
                && cache.disk == old(cache.disk) && cache.trace == old(cache.trace)
    {
      hide Coherent, Linked, Resting, SameBufs, DiskOk, Head, Elems, NoDup, HeaderOk, Absorb;
      ghost var s, pins := cache.bufs[..], Elems(lh, 0);
      CoherentSingle(s, cache.disk, cache.content, cache.dirty);
      ElemsCount(lh);
      MoreElems(lh, b);
      MoreHeader(lay, lh, b);
      var ok, x := Take(me, b, pins);
      if !ok { return Some(LogProtocol.NoBuffers); }
      ghost var s1 := cache.bufs[..];
      cache.Update(me, x, data);
      panic := Record(x, b);
      if panic.Some? { return; }
      ghost var s3 := cache.bufs[..];
      var panicked := cache.Brelse(me, x);
      NowPinned(s, pins, b, x, s1, me, s3, cache.bufs[..]);
    }

    /** bread of a log slot and of a pinned home block, as write_log and install_trans do. */
    method TakePair(me: nat, slot: nat, home: nat, ghost pins: set<nat>) returns (ok: bool, x: nat, y: nat)
      requires cache.Valid() && me > 0 && Resting(cache.bufs[..], pins) && home in pins && slot !in pins
      modifies cache.bufs
      ensures cache.Valid() && Single(old(cache.bufs[..])) && (ok <==> |pins| != NBUF)
      ensures ok ==> PairHeld(old(cache.bufs[..]), slot, x, home, y, cache.bufs[..], me)
      ensures ok ==> cache.bufs[x].data == At(cache.content, slot) && cache.bufs[y].data == At(cache.content, home)
    {
      hide Coherent, Linked, Resting, Used, SameBufs, Exhausted, Single;
      ghost var s := cache.bufs[..];
      CoherentSingle(s, cache.disk, cache.content, cache.dirty);
      ExhaustedIff(s, pins, slot);
      var r := cache.Bread(me, slot);
      NobodyWaits(s, pins, r);
      if !r.Locked? { return false, 0, 0; }
      ghost var s1 := cache.bufs[..];
      CoherentSingle(s1, cache.disk, cache.content, cache.dirty);
      StillPinned(s, pins, slot, r.b, s1, home);
      var q := cache.Bread(me, home);
      TwoTaken(s, pins, slot, r.b, s1, home, q.b, cache.bufs[..]);
      PairIs(s, pins, slot, r.b, s1, home, q.b, cache.bufs[..], me);
      return true, r.b, q.b;
    }

    /** One turn of `write_log`: the pinned block goes to its slot in the log. */
    method LogBlock(me: nat, slot: nat, home: nat, ghost pins: set<nat>) returns (panicked: bool)
      requires cache.Valid() && me > 0 && Resting(cache.bufs[..], pins) && cache.dirty.Keys <= pins
      requires home in pins && slot !in pins
      modifies cache, cache.bufs
      ensures cache.Valid() && (panicked <==> |pins| == NBUF)
      ensures panicked ==> cache.disk == old(cache.disk) && cache.trace == old(cache.trace)
      ensures !panicked ==>
                && Resting(cache.bufs[..], pins) && cache.dirty == old(cache.dirty)
                && cache.content == old(cache.content)[slot := At(old(cache.content), home)]
                && cache.disk == old(cache.disk)[slot := At(old(cache.content), home)]
                && cache.trace == old(cache.trace) + [Write(slot, At(old(cache.content), home))]
    {
      hide Coherent, Linked, Resting, SameBufs, Single;
      ghost var s := cache.bufs[..];
      var ok, to, from := TakePair(me, slot, home, pins);
      if !ok { return true; }
      ghost var s2 := cache.bufs[..];
      cache.Update(me, to, cache.bufs[from].data);
      ghost var s3 := cache.bufs[..];
      panicked := cache.Bwrite(me, to);
      panicked := cache.Brelse(me, from);
      ghost var s4 := cache.bufs[..];
      SameBufAt(s4, s3[from := s3[from].(refcnt := 1, holder := 0)], to);
      panicked := cache.Brelse(me, to);
      SlotReturned(s, pins, slot, to, home, from, s2, me, s3, s4, cache.bufs[..]);
    }

    /** One turn of `install_trans` in a commit: the slot goes to the home block, which is
        unpinned. */
    method InstallBlock(me: nat, slot: nat, home: nat, ghost pins: set<nat>) returns (panicked: bool)
      requires cache.Valid() && me > 0 && Resting(cache.bufs[..], pins) && cache.dirty.Keys <= pins
      requires home in pins && slot !in pins
      modifies cache, cache.bufs
      ensures cache.Valid() && (panicked <==> |pins| == NBUF)
      ensures !panicked ==>
                && Resting(cache.bufs[..], pins - {home}) && cache.dirty == old(cache.dirty) - {home}
                && cache.content == old(cache.content)[home := At(old(cache.content), slot)]
                && cache.disk == old(cache.disk)[home := At(old(cache.content), slot)]
                && cache.trace == old(cache.trace) + [Write(home, At(old(cache.content), slot))]
    {
      hide Coherent, Linked, Resting, SameBufs, Single;
      ghost var s := cache.bufs[..];
      var ok, lbuf, dbuf := TakePair(me, slot, home, pins);
      if !ok { return true; }
      ghost var s2 := cache.bufs[..];
      cache.Update(me, dbuf, cache.bufs[lbuf].data);
      panicked := cache.Bwrite(me, dbuf);
      cache.Bunpin(dbuf);
      ghost var s4 := cache.bufs[..];
      panicked := cache.Brelse(me, lbuf);
      ghost var s5 := cache.bufs[..];
      SameBufAt(s5, s4[lbuf := s4[lbuf].(refcnt := 0, holder := 0)], dbuf);
      panicked := cache.Brelse(me, dbuf);
      HomeReturned(s, pins, slot, lbuf, home, dbuf, s2, me, s4, s5, cache.bufs[..]);
    }

    /** `write_log`. */
    method WriteLog(me: nat) returns (panicked: bool)
      requires Valid() && me > 0 && lh != []
      modifies cache, cache.bufs
      ensures cache.Valid() && (panicked <==> |lh| == NBUF)
      ensures panicked ==> cache.disk == old(cache.disk) && cache.trace == old(cache.trace)
      ensures !panicked ==>
                && Resting(cache.bufs[..], Elems(lh, 0)) && cache.dirty == old(cache.dirty)
                && cache.disk == Apply(old(cache.disk), LogWrites(lay, lh, old(cache.content)))
                && cache.trace == old(cache.trace) + LogWrites(lay, lh, old(cache.content))
                && HomeEq(lay, cache.content, old(cache.content))
                && At(cache.content, lay.start) == At(old(cache.content), lay.start)
    {
      hide After, Coherent, Linked, Resting, Elems;
      ghost var d, mem, pins := cache.disk, cache.content, Elems(lh, 0);
      ghost var ws := LogWrites(lay, lh, mem);
      AfterNone(d, ws);
      ElemsCount(lh);
      var tail := 0;
      panicked := false;
      while tail < |lh|
        invariant 0 <= tail <= |lh| && !panicked && (tail > 0 ==> |lh| != NBUF)
        invariant cache.Valid() && Resting(cache.bufs[..], pins) && cache.dirty == old(cache.dirty)
        invariant cache.disk == After(d, ws, tail) && cache.trace == old(cache.trace) + ws[..tail]
        invariant HomeEq(lay, cache.content, mem) && At(cache.content, lay.start) == At(mem, lay.start)
      {
        Listed(lay, lh, tail);
        panicked := LogBlock(me, lay.start + tail + 1, lh[tail], pins);
        if panicked { return; }
        AfterNext(d, ws, tail);
        TraceNext(old(cache.trace), ws, tail);
        tail := tail + 1;
      }
      assert ws[..tail] == ws;
    }

    /** `install_trans(0)`, on a disk d whose log the cache's content agrees with. */
    method InstallTrans(me: nat) returns (panicked: bool)
      requires cache.Valid() && me > 0 && HeaderOk(lay, lh) && NoDup(lh) && |lh| < NBUF
      requires Resting(cache.bufs[..], Elems(lh, 0)) && cache.dirty.Keys <= Elems(lh, 0)
      modifies cache, cache.bufs
      ensures cache.Valid() && !panicked
      ensures Resting(cache.bufs[..], {}) && cache.dirty == map[]
      ensures cache.disk == Apply(old(cache.disk), InstallWrites(lay, lh, old(cache.disk)))
      ensures cache.trace == old(cache.trace) + InstallWrites(lay, lh, old(cache.disk))
    {
      hide After, Coherent, Linked, Resting, Elems;
      ghost var d := cache.disk;
      ghost var ws := InstallWrites(lay, lh, d);
      AfterNone(d, ws);
      var tail := 0;
      panicked := false;
      while tail < |lh|
        invariant 0 <= tail <= |lh| && !panicked
        invariant cache.Valid() && Resting(cache.bufs[..], Elems(lh, tail)) && cache.dirty.Keys <= Elems(lh, tail)
        invariant cache.disk == After(d, ws, tail) && cache.trace == old(cache.trace) + ws[..tail]
      {
        ElemsSize(lh, tail);
        ElemsNext(lh, tail);
        SlotFree(lay, lh, tail);
        CleanBlock(cache.bufs[..], cache.disk, cache.content, cache.dirty, lay.start + tail + 1);
        InstallKeepsSlot(lay, lh, d, tail);
        panicked := InstallBlock(me, lay.start + tail + 1, lh[tail], Elems(lh, tail));
        AfterNext(d, ws, tail);
        TraceNext(old(cache.trace), ws, tail);
        tail := tail + 1;
      }
      assert ws[..tail] == ws;
      ElemsNone(lh);
    }

    /** `commit` panics exactly when every buffer is pinned, before its first write. Otherwise
        it issues exactly the writes of Journal.CommitWrites, in order, for the listed blocks
        with their cached content, so that a crash after any number of them is safe; afterwards
        nothing is listed, pinned or behind. */
    method Commit(me: nat) returns (panicked: bool)
      requires Valid() && me > 0
      modifies this`lh, cache, cache.bufs
      ensures panicked <==> |old(lh)| == NBUF
      ensures panicked ==> cache.disk == old(cache.disk) && cache.trace == old(cache.trace)
      ensures !panicked ==>
                && Valid() && lh == []
                && cache.disk == Apply(old(cache.disk), CommitWrites(lay, old(cache.disk), old(lh), old(cache.content)))
                && cache.trace == old(cache.trace) + CommitWrites(lay, old(cache.disk), old(lh), old(cache.content))
                && HomeEq(lay, cache.content, old(cache.content))
      ensures forall k: nat :: CrashSafe(lay, old(cache.disk), old(lh), old(cache.content), k)
    {
      CommitCrashSafe(lay, cache.disk, lh, cache.content);
      if |lh| == 0 { return false; }
      hide Coherent, Linked, Resting, CommitWrites, CrashSafe;
      panicked := CommitBlocks(me);
    }

    /** `begin_op` up to its return, or to its sleep. */
    method BeginOp() returns (waits: bool)
      requires Valid()
      modifies this`outstanding
      ensures Valid()
      ensures waits <==> |lh| + (old(outstanding) + 1) * MAXOPBLOCKS > LOGSIZE
      ensures outstanding == if waits then old(outstanding) else old(outstanding) + 1
    {
      if |lh| + (outstanding + 1) * MAXOPBLOCKS > LOGSIZE { return true; }
      outstanding := outstanding + 1;
      return false;
    }

    /** `end_op`: the last operation out commits. */
    method EndOp(me: nat) returns (panicked: bool)
      requires Valid() && me > 0 && outstanding > 0
      modifies this, cache, cache.bufs
      ensures outstanding == old(outstanding) - 1
      ensures panicked <==> old(outstanding) == 1 && |old(lh)| == NBUF
      ensures !panicked ==>
                && Valid() && HomeEq(lay, cache.content, old(cache.content))
                && cache.trace == old(cache.trace)
                   + (if outstanding > 0 then [] else CommitWrites(lay, old(cache.disk), old(lh), old(cache.content)))
                && lh == if outstanding > 0 then old(lh) else []
    {
      hide Coherent, Linked, Resting, CommitWrites, CrashSafe, After;
      outstanding := outstanding - 1;
      panicked := false;
      if outstanding == 0 { panicked := Commit(me); }
    }

    /** `write_log`, then the `write_head` that commits. */
    method Seal(me: nat) returns (panicked: bool)
      requires Valid() && me > 0 && lh != []
      modifies cache, cache.bufs
      ensures cache.Valid() && (panicked <==> |lh| == NBUF)
      ensures panicked ==> cache.disk == old(cache.disk) && cache.trace == old(cache.trace)
      ensures !panicked ==>
                && Resting(cache.bufs[..], Elems(lh, 0)) && cache.dirty == old(cache.dirty)
                && cache.disk == Sealed(lay, old(cache.disk), lh, old(cache.content))
                && cache.trace == old(cache.trace) + SealWrites(lay, old(cache.disk), lh, old(cache.content))
    {
      hide After, Coherent, Linked, Resting, Elems, LogWrites, WriteHead, DiskOk, Head, HomeEq;
      ghost var d, mem := cache.disk, cache.content;
      ElemsCount(lh);
      Listed(lay, lh, 0);
      LayoutOk(lay, d);
      CleanBlock(cache.bufs[..], d, mem, cache.dirty, lay.start);
      panicked := WriteLog(me);
      if panicked { return; }
      CleanBlock(cache.bufs[..], cache.disk, cache.content, cache.dirty, lay.start);
      HeaderStays(lay, d, lh, mem);
      panicked := WriteHeader(me, lh, Elems(lh, 0));
      ApplySnoc(d, LogWrites(lay, lh, mem), HeadWrite(lay, d, lh));
    }

    /** `install_trans`, then the `write_head` that empties the log. */
    method Finish(me: nat) returns (panicked: bool)
      requires cache.Valid() && me > 0 && lay.Valid() && HeaderOk(lay, lh) && NoDup(lh) && |lh| < NBUF
      requires Resting(cache.bufs[..], Elems(lh, 0)) && cache.dirty.Keys <= Elems(lh, 0)
      modifies this`lh, cache, cache.bufs
      ensures cache.Valid() && !panicked && lh == []
      ensures Resting(cache.bufs[..], {}) && cache.dirty == map[]
      ensures cache.disk == Apply(old(cache.disk), FinishWrites(lay, old(cache.disk), old(lh)))
      ensures cache.trace == old(cache.trace) + FinishWrites(lay, old(cache.disk), old(lh))
    {
      hide After, Coherent, Linked, Resting, Elems, InstallWrites, WriteHead;
      ghost var sealed := cache.disk;
      panicked := InstallTrans(me);
      CleanBlock(cache.bufs[..], cache.disk, cache.content, cache.dirty, lay.start);
      HeaderStays(lay, sealed, lh, sealed);
      lh := [];
      panicked := WriteHeader(me, lh, {});
      ApplySnoc(sealed, InstallWrites(lay, old(lh), sealed), HeadWrite(lay, sealed, []));
    }

    method CommitBlocks(me: nat) returns (panicked: bool)
      requires Valid() && me > 0 && lh != []
      modifies this`lh, cache, cache.bufs
      ensures panicked <==> |old(lh)| == NBUF
      ensures panicked ==> cache.disk == old(cache.disk) && cache.trace == old(cache.trace)
      ensures !panicked ==>
                && Valid() && lh == []
                && cache.disk == Apply(old(cache.disk), CommitWrites(lay, old(cache.disk), old(lh), old(cache.content)))
                && cache.trace == old(cache.trace) + CommitWrites(lay, old(cache.disk), old(lh), old(cache.content))
                && HomeEq(lay, cache.content, old(cache.content))
    {
      hide After, Coherent, Linked, Resting, Elems, FinishWrites, SealWrites, DiskOk, Head, HomeEq, Overlay;
      ghost var s, d, mem, dirty, lh0 := cache.bufs[..], cache.disk, cache.content, cache.dirty, lh;
      LayoutOk(lay, d);
      panicked := Seal(me);
      if panicked { return; }
      ghost var sealed := cache.disk;
      panicked := Finish(me);
      AfterAppend(d, SealWrites(lay, d, lh0, mem), FinishWrites(lay, sealed, lh0), |FinishWrites(lay, sealed, lh0)|);
      CommitCompletes(lay, d, lh0, mem);
      ElemsNone(lh);
      Committed(lay, s, d, mem, dirty, lh0, cache.bufs[..], cache.disk, cache.content);
    }
  }

  /** log_write's search. */
  method FindListed(lh: seq<nat>, b: nat) returns (i: nat)
    ensures i <= |lh| && b !in lh[..i] && (i < |lh| ==> lh[i] == b)
    ensures i == |lh| <==> b !in lh
  {
    i := 0;
    while i < |lh|
      invariant 0 <= i <= |lh| && b !in lh[..i]
    {
      if lh[i] == b { return; }
      i := i + 1;
    }
    assert lh[..i] == lh;
  }

  lemma MoreElems(lh: seq<nat>, b: nat)
    requires NoDup(lh)
    ensures Elems(Absorb(lh, b), 0) == Elems(lh, 0) + {b} && NoDup(Absorb(lh, b))
    ensures b in Elems(lh, 0) <==> b in lh
  {
    var l := Absorb(lh, b);
    assert b !in lh ==> l[|lh|] == b;
    forall x | x in Elems(lh, 0) + {b} ensures x in Elems(l, 0) {
      assert x in l;
    }
  }

  lemma Room(s: seq<Buf>, pins: set<nat>, b: nat)
    requires Single(s) && Resting(s, pins)
    ensures Exhausted(s, b) <==> b !in pins && |pins| == NBUF
  {
    if b in pins { PinnedInPool(s, pins, b); } else { ExhaustedIff(s, pins, b); }
  }

  /** Process me holds block b in buffer x; everything else rests. */
  ghost predicate OneHeld(s: seq<Buf>, pins: set<nat>, b: nat, x: nat, t: seq<Buf>, me: nat) {
    && x < NBUF && |s| == |t| == NBUF + 1 && Holds(t[x], b) && t[x].holder == me && t[x].valid
    && t[x].refcnt == (if b in pins then 2 else 1)
    && (Holds(s[x], b) || (s[x].refcnt == 0 && forall i :: 0 <= i < NBUF ==> !Holds(s[i], b)))
    && forall i :: 0 <= i < |s| && i != x ==> t[i] == s[i]
  }

  lemma OneTaken(s: seq<Buf>, pins: set<nat>, b: nat, x: nat, t: seq<Buf>, me: nat)
    requires Resting(s, pins) && Used(s, b, x, t) && t[x].holder == me && t[x].valid
    ensures OneHeld(s, pins, b, x, t, me)
  {
    if b in pins { var i: nat :| InSlot(s, i, b); }
  }

  /** The pool after the block in buffer x was pinned, if it was not, and released. */
  lemma NowPinned(s: seq<Buf>, pins: set<nat>, b: nat, x: nat, s1: seq<Buf>, me: nat, s3: seq<Buf>, s4: seq<Buf>)
    requires Single(s) && Resting(s, pins) && OneHeld(s, pins, b, x, s1, me)
    requires |s3| == |s1| && s3 == s1[x := s1[x].(data := s3[x].data, refcnt := 2)]
    requires SameBufs(s4, s3[x := s3[x].(refcnt := 1, holder := 0)])
    ensures Resting(s4, pins + {b})
  {
    forall i: nat | i < NBUF && i != x ensures !Holds(s[i], b) {
      if Holds(s[i], b) { assert InSlot(s, i, b); }
      if Holds(s[x], b) { assert InSlot(s, x, b); }
    }
    assert InSlot(s4, x, b);
    forall c | c in pins ensures exists i: nat :: InSlot(s4, i, c) {
      var i: nat :| InSlot(s, i, c);
      assert s[i].refcnt == 1;
      assert InSlot(s4, i, c) || c == b;
    }
  }

  lemma MoreHeader(lay: Layout, lh: seq<nat>, b: nat)
    requires HeaderOk(lay, lh) && b < WORD_LIMIT && !lay.InLog(b)
    ensures |lh| < LOGSIZE && |lh| < lay.size - 1 ==> HeaderOk(lay, Absorb(lh, b))
    ensures |lh| <= LOGSIZE
  {}

  lemma TraceNext(trace: seq<Write>, ws: seq<Write>, n: nat)
    requires n < |ws|
    ensures trace + ws[..n] + [ws[n]] == trace + ws[..n + 1]
  {}

  lemma LayoutOk(lay: Layout, d: Disk)
    requires DiskOk(lay, d)
    ensures lay.Valid() && HeaderOk(lay, [])
  {}

  /** Once the log is installed and nothing is behind, the cache shows what it showed before. */
  lemma Committed(lay: Layout, s: seq<Buf>, d: Disk, mem: Disk, dirty: map<nat, nat>, lh: seq<nat>,
                  t: seq<Buf>, e: Disk, content: Disk)
    requires Coherent(s, d, mem, dirty) && dirty.Keys <= Elems(lh, 0)
    requires Coherent(t, e, content, map[]) && HomeEq(lay, e, Overlay(d, lh, mem))
    ensures HomeEq(lay, content, mem)
  {
    hide Coherent;
    forall b: nat | !lay.InLog(b) ensures At(content, b) == At(mem, b) {
      CleanBlock(t, e, content, map[], b);
      CleanBlock(s, d, mem, dirty, b);
      assert b in Elems(lh, 0) <==> b in lh;
    }
  }

  lemma SlotFree(lay: Layout, lh: seq<nat>, k: nat)
    requires HeaderOk(lay, lh) && k < |lh|
    ensures lay.start + k + 1 !in Elems(lh, k) && lh[k] in Elems(lh, k)
  {}

  lemma ElemsNone(lh: seq<nat>)
    ensures Elems(lh, |lh|) == {}
  {}

  /** A block that is not behind has the same content on disk. */
  lemma CleanBlock(s: seq<Buf>, disk: Disk, content: Disk, dirty: map<nat, nat>, b: nat)
    requires Coherent(s, disk, content, dirty)
    ensures b !in dirty ==> At(disk, b) == At(content, b)
  {}

  lemma Listed(lay: Layout, lh: seq<nat>, k: nat)
    requires HeaderOk(lay, lh) && k < |lh|
    ensures lh[k] in Elems(lh, 0) && lay.start !in Elems(lh, 0)
    ensures lay.start + k + 1 !in Elems(lh, 0)
    ensures !lay.InLog(lh[k]) && lay.InLog(lay.start + k + 1)
  {}

  lemma ElemsCount(lh: seq<nat>)
    requires NoDup(lh)
    ensures |Elems(lh, 0)| == |lh|
  {
    ElemsSize(lh, 0);
  }

  lemma {:induction false} ElemsSize(lh: seq<nat>, k: nat)
    requires NoDup(lh) && k <= |lh|
    ensures |Elems(lh, k)| == |lh| - k
    decreases |lh| - k
  {
    if k < |lh| {
      ElemsSize(lh, k + 1);
      ElemsNext(lh, k);
    }
  }

  lemma ElemsNext(lh: seq<nat>, k: nat)
    requires NoDup(lh) && k < |lh|
    ensures lh[k] !in Elems(lh, k + 1) && Elems(lh, k) == {lh[k]} + Elems(lh, k + 1)
    ensures Elems(lh, k) - {lh[k]} == Elems(lh, k + 1)
  {}

  /** The header block with the list l in it. */
  method PutList(blk: Block, l: seq<nat>) returns (buf: Block)
    requires |l| <= LOGSIZE && forall i :: 0 <= i < |l| ==> l[i] < WORD_LIMIT
    ensures buf == WriteHead(blk, l)
  {
    buf := PutWord(blk, 0, |l|);
    var i := 0;
    while i < |l|
      invariant 0 <= i <= |l|
      invariant buf == PutEntries(blk, l, i)
    {
      buf := PutWord(buf, i + 1, l[i]);
      i := i + 1;
    }
  }

  lemma NobodyWaits(s: seq<Buf>, pins: set<nat>, r: Outcome)
    requires Resting(s, pins)
    ensures !r.NoBuffers? && r.b < NBUF ==> s[r.b].holder == 0
  {}

  lemma TakenSlot(s: seq<Buf>, pins: set<nat>, a: nat, x: nat, t: seq<Buf>)
    requires Resting(s, pins) && Used(s, a, x, t) && a !in pins
    ensures x < NBUF && t[x].refcnt == 1 && t[x].blockno == a
  {}
}
