/** What the files hold on disk: the bytes of a write spliced into a file, in the buffers and,
    after end_op, on the disk. */
module Committed {
  import opened Blocks
  import opened Journal
  import opened Inodes
  import opened FsState
  import opened Log
  import opened WriteLimits

  // ----- blocks that are not logged -----

  /** Block b is the same on d and on e. */
  predicate SameOn(d: Disk, e: Disk, b: nat) {
    At(d, b) == At(e, b)
  }

  /** Every block of view that is not listed is the one of base. */
  ghost predicate Tracked(base: Disk, view: Disk, lh: seq<nat>) {
    forall b: nat :: b !in lh ==> SameOn(base, view, b)
  }

  lemma TrackedNext(base: Disk, view: Disk, lh: seq<nat>, b: nat, data: Block)
    requires Tracked(base, view, lh)
    ensures Tracked(base, view[b := data], Absorb(lh, b))
  {
    forall c: nat | c !in Absorb(lh, b) ensures SameOn(base, view[b := data], c) {
      assert SameOn(base, view, c);
    }
  }

  lemma TrackedAll(base: Disk, view: Disk, lh: seq<nat>)
    requires Tracked(base, view, lh)
    ensures Tracked(Overlay(base, lh, view), view, [])
  {
    forall c: nat ensures SameOn(Overlay(base, lh, view), view, c) {
      assert c !in lh ==> SameOn(base, view, c);
    }
  }

  /** The blocks that differ between v and w are listed, but for those in ex. */
  ghost predicate Covered(v: Disk, w: Disk, lh: seq<nat>, ex: set<nat>) {
    forall b: nat :: b !in lh && b !in ex ==> SameOn(v, w, b)
  }

  ghost predicate Within(old_: seq<nat>, new_: seq<nat>) {
    forall b :: b in old_ ==> b in new_
  }

  /** d and e are the same but for the blocks in ex. */
  ghost predicate Except(d: Disk, e: Disk, ex: set<nat>) {
    forall b: nat :: b !in ex ==> SameOn(d, e, b)
  }

  lemma TrackedCovers(base: Disk, v: Disk, lh: seq<nat>, base': Disk, w: Disk, lh': seq<nat>, ex: set<nat>)
    requires Tracked(base, v, lh) && Tracked(base', w, lh') && Except(base, base', ex) && Within(lh, lh')
    ensures Covered(v, w, lh', ex)
  {
    forall b: nat | b !in lh' && b !in ex ensures SameOn(v, w, b) {
      assert SameOn(base, v, b) && SameOn(base', w, b) && SameOn(base, base', b);
    }
  }

  /** An unlisted block changes. */
  lemma TrackedStray(base: Disk, view: Disk, lh: seq<nat>, b: nat, data: Block)
    requires Tracked(base, view, lh)
    ensures Tracked(base[b := data], view[b := data], lh) && Except(base, base[b := data], {b})
  {
    var base', view' := base[b := data], view[b := data];
    forall c: nat | c !in lh ensures SameOn(base', view', c) { assert SameOn(base, view, c); }
  }

  /** A block is overwritten with what it holds. */
  lemma TrackedSame(base: Disk, view: Disk, lh: seq<nat>, b: nat)
    requires Tracked(base, view, lh)
    ensures Tracked(base, view[b := At(view, b)], lh)
  {
    var view' := view[b := At(view, b)];
    forall c: nat | c !in lh ensures SameOn(base, view', c) { assert SameOn(base, view, c); }
  }

  lemma ExceptNone(d: Disk)
    ensures Except(d, d, {})
  {}

  // ----- which blocks a write lists -----

  /** File k's blocks stay where they are. */
  ghost predicate Kept(sb: Super, st: State, t: State, k: nat) {
    && Shape(sb, st) && Shape(sb, t) && k < sb.ninodes
    && forall bn: nat :: bn < MAXFILE && BlockOf(sb, st, k, bn) != 0 ==>
         BlockOf(sb, t, k, bn) == BlockOf(sb, st, k, bn)
  }

  lemma KeptMore(sb: Super, st: State, t: State, u: State, k: nat)
    requires Kept(sb, st, t, k) && Kept(sb, t, u, k)
    ensures Kept(sb, st, u, k)
  {
    hide BlockOf;
  }

  /** No block of file k from block number `from` on is listed. */
  ghost predicate Unlisted(sb: Super, st: State, lh: seq<nat>, k: nat, from: nat)
    requires Shape(sb, st) && k < sb.ninodes
  {
    forall bn: nat :: from <= bn < MAXFILE && BlockOf(sb, st, k, bn) != 0 ==> BlockOf(sb, st, k, bn) !in lh
  }

  /** What is newly listed was in no file, or is x. */
  ghost predicate NewIn(owner: Owners, lh: seq<nat>, lh': seq<nat>, x: nat) {
    forall b :: b in lh' ==> b in lh || b !in owner || b == x
  }

  lemma NewInMore(owner: Owners, owner': Owners, lh: seq<nat>, lh': seq<nat>, lh'': seq<nat>, x: nat)
    requires NewIn(owner, lh, lh', x) && NewIn(owner', lh', lh'', x) && owner.Keys <= owner'.Keys
    ensures NewIn(owner, lh, lh'', x)
  {}

  /** What one turn of writei's loop does to the list: it maps block bn of file k and, if ok,
      logs it. */
  ghost predicate PieceTrail(sb: Super, t: State, u: State, owner: Owners, lh: seq<nat>, lh': seq<nat>,
                             k: nat, bn: nat, ok: bool, n: nat)
  {
    && Kept(sb, t, u, k) && bn < MAXFILE && Within(lh, lh')
    && (forall b :: b in lh' ==>
          || b in lh || b !in owner || b == u.inodes[k].addrs[NDIRECT] || (ok && b == BlockOf(sb, u, k, bn)))
    && (!ok && BlockOf(sb, t, k, bn) != 0 ==> lh' == lh)
    && (n > 0 ==> BlockOf(sb, u, k, bn) != 0)
    && (n > 0 && BlockOf(sb, t, k, bn) == 0 ==> BlockOf(sb, u, k, bn) in lh')
  }

  /** writei's loop so far, from list lh0 and block number first: what it has yet to write to
      is not listed, unless it was at the beginning. */
  ghost predicate Trail(sb: Super, st: State, t: State, k: nat, first: nat, lh0: seq<nat>, from: nat, lh: seq<nat>) {
    && Kept(sb, st, t, k) && Within(lh0, lh)
    && (Unlisted(sb, st, lh0, k, first) ==> Unlisted(sb, st, lh, k, from))
  }

  /** The block in which bytes were left behind: a new one, which is listed, or an old one,
      which is not unless it was at the beginning. */
  ghost predicate LeftIn(sb: Super, st: State, t: State, k: nat, first: nat, lh0: seq<nat>, bn: nat, lh: seq<nat>) {
    && Shape(sb, st) && Shape(sb, t) && k < sb.ninodes && bn < MAXFILE && BlockOf(sb, t, k, bn) != 0
    && if BlockOf(sb, st, k, bn) == 0 then BlockOf(sb, t, k, bn) in lh
       else BlockOf(sb, t, k, bn) == BlockOf(sb, st, k, bn)
            && (Unlisted(sb, st, lh0, k, first) ==> BlockOf(sb, t, k, bn) !in lh)
  }

  lemma TrailStarts(sb: Super, st: State, k: nat, first: nat, lh: seq<nat>)
    requires Shape(sb, st) && k < sb.ninodes
    ensures Trail(sb, st, st, k, first, lh, first, lh)
  {
    hide BlockOf;
  }

  /** A block of the file is none of those that a turn for another block lists. */
  lemma NotNewlyListed(sb: Super, t: State, u: State, owner: Owners, owner': Owners, lh: seq<nat>, lh': seq<nat>,
                       k: nat, bn: nat, ok: bool, n: nat, cn: nat)
    requires Inv(sb, t, owner) && Inv(sb, u, owner') && PieceTrail(sb, t, u, owner, lh, lh', k, bn, ok, n)
    requires cn < MAXFILE && cn != bn && BlockOf(sb, t, k, cn) != 0 && BlockOf(sb, t, k, cn) !in lh
    ensures BlockOf(sb, t, k, cn) !in lh'
  {
    MappedIsOwned(sb, t, owner, k, cn);
    Apart(sb, u, owner', k, cn, k, bn);
    NotIndirect(sb, u, owner', k, cn);
    hide Ref, Forward, Backward, MetaUsed, NoHoles, Used;
  }

  lemma NotIndirect(sb: Super, u: State, owner: Owners, k: nat, cn: nat)
    requires Inv(sb, u, owner) && k < sb.ninodes && cn < MAXFILE && BlockOf(sb, u, k, cn) != 0
    ensures BlockOf(sb, u, k, cn) != u.inodes[k].addrs[NDIRECT]
  {
    NoSharing(sb, u, owner, SlotOf(k, cn), Addr(k, NDIRECT));
  }

  /** One more turn, for block number bn. */
  lemma TrailNext(sb: Super, st: State, t: State, u: State, owner: Owners, owner': Owners,
                  k: nat, first: nat, lh0: seq<nat>, bn: nat, lh: seq<nat>, lh': seq<nat>, ok: bool, n: nat)
    requires Inv(sb, t, owner) && Inv(sb, u, owner') && Trail(sb, st, t, k, first, lh0, bn, lh)
    requires PieceTrail(sb, t, u, owner, lh, lh', k, bn, ok, n)
    ensures Trail(sb, st, u, k, first, lh0, bn + 1, lh')
  {
    hide Inv, BlockOf;
    KeptMore(sb, st, t, u, k);
    if Unlisted(sb, st, lh0, k, first) {
      forall cn: nat | bn + 1 <= cn < MAXFILE && BlockOf(sb, st, k, cn) != 0 ensures BlockOf(sb, st, k, cn) !in lh' {
        NotNewlyListed(sb, t, u, owner, owner', lh, lh', k, bn, ok, n, cn);
      }
    }
  }

  lemma {:induction false} NoSlotBelow(k: nat, lo: nat, hi: nat, bn: nat)
    requires hi <= bn
    ensures SlotOf(k, bn) !in FileSlots(k, lo, hi)
    decreases hi
  {
    if hi > lo { NoSlotBelow(k, lo, hi - 1, bn); }
  }

  /** The blocks behind those written so far are mapped or not as before. */
  lemma SameMapped(sb: Super, st: State, t: State, k: nat, off: nat, tot: nat, bn: nat)
    requires Shape(sb, st) && Filled(sb, st, t, Slots(k, off, tot)) && k < sb.ninodes && bn < MAXFILE
    requires off / BSIZE + Touched(off, tot) <= bn
    ensures BlockOf(sb, t, k, bn) == 0 <==> BlockOf(sb, st, k, bn) == 0
  {
    NoSlotBelow(k, off / BSIZE, off / BSIZE + Touched(off, tot), bn);
    assert ValidSlot(sb, SlotOf(k, bn));
    hide Ref, FreeSet, Empty, FileSlots, Touched;
  }

  /** The turn that ends the loop with bytes left behind. */
  lemma LeftBehind(sb: Super, st: State, t: State, u: State, owner: Owners, k: nat, off: nat, tot: nat,
                   lh0: seq<nat>, lh: seq<nat>, lh': seq<nat>, n: nat)
    requires Trail(sb, st, t, k, off / BSIZE, lh0, (off + tot) / BSIZE, lh)
    requires PieceTrail(sb, t, u, owner, lh, lh', k, (off + tot) / BSIZE, false, n) && n > 0
    requires Filled(sb, st, t, Slots(k, off, tot)) && off / BSIZE + Touched(off, tot) <= (off + tot) / BSIZE
    ensures LeftIn(sb, st, u, k, off / BSIZE, lh0, (off + tot) / BSIZE, lh')
  {
    hide BlockOf, Filled, Slots, Touched;
    SameMapped(sb, st, t, k, off, tot, (off + tot) / BSIZE);
  }

  // ----- bytes spliced into a file -----

  /** File k is its old bytes with d spliced in at off, cut at end if it is the longer, and
      every other file has the bytes it had. */
  ghost predicate Spliced(sb: Super, st: State, t: State, k: nat, off: nat, d: seq<Byte>, end: nat) {
    && Shape(sb, st) && Shape(sb, t) && NoHoles(sb, st) && NoHoles(sb, t)
    && k < sb.ninodes && off <= st.inodes[k].size && end <= off + |d|
    && Content(sb, t, k) == Splice(Content(sb, st, k), off, d)[..Larger(st.inodes[k].size, end)]
    && forall i: nat :: i < sb.ninodes && i != k ==> Content(sb, t, i) == Content(sb, st, i)
  }

  lemma SplicedNothing(sb: Super, st: State, k: nat, off: nat)
    requires Shape(sb, st) && NoHoles(sb, st) && k < sb.ninodes
    ensures off <= st.inodes[k].size ==> Spliced(sb, st, st, k, off, [], off)
  {
    hide Content, Ref;
    if off <= st.inodes[k].size { SpliceNothing(Content(sb, st, k), off); }
  }

  /** A chunk of m bytes behind the i that are spliced in already. */
  lemma SplicedMore(sb: Super, st: State, t: State, u: State, k: nat, off: nat, data: seq<Byte>, i: nat, m: nat, r: nat)
    requires i + m <= |data| && r <= m && k < sb.ninodes && Shape(sb, st)
    requires if off <= st.inodes[k].size then Spliced(sb, st, t, k, off, data[..i], off + i) else t == st && i == 0
    requires Spliced(sb, t, u, k, off + i, data[i..i + m], off + i + r)
    ensures Spliced(sb, st, u, k, off, data[..i + m], off + i + r)
  {
    hide Content, Ref, Splice;
    var c := Content(sb, st, k);
    SpliceLength(c, off, data[..i]);
    SpliceMore(c, off, data, i, m, r);
  }

  lemma SpliceLength(c: seq<Byte>, off: nat, d: seq<Byte>)
    ensures off <= |c| ==>
              && |Splice(c, off, d)| == Larger(|c|, off + |d|)
              && Splice(c, off, d)[..Larger(|c|, off + |d|)] == Splice(c, off, d)
  {}

  lemma SpliceNothing(c: seq<Byte>, off: nat)
    ensures off <= |c| ==> Splice(c, off, []) == c
  {}

  /** A chunk of m bytes behind the i spliced in so far, r of which extend the file. */
  lemma SpliceMore(c: seq<Byte>, off: nat, data: seq<Byte>, i: nat, m: nat, r: nat)
    requires i + m <= |data| && r <= m
    ensures off <= |c| ==>
              var s := Splice(c, off, data[..i]);
              && off + i <= |s| == Larger(|c|, off + i)
              && Splice(s, off + i, data[i..i + m])[..Larger(|s|, off + i + r)]
                 == Splice(c, off, data[..i + m])[..Larger(|c|, off + i + r)]
              && (r == m ==> Splice(c, off, data[..i + m])[..Larger(|c|, off + i + r)] == Splice(c, off, data[..i + m]))
  {
    if off <= |c| {
      SpliceLength(c, off, data[..i]);
      SpliceLength(c, off, data[..i + m]);
      SpliceTwice(c, off, data, i, m);
    }
  }

  lemma SpliceTwice(c: seq<Byte>, off: nat, data: seq<Byte>, i: nat, m: nat)
    requires i + m <= |data| && off <= |c|
    ensures off + i <= |Splice(c, off, data[..i])|
    ensures Splice(Splice(c, off, data[..i]), off + i, data[i..i + m]) == Splice(c, off, data[..i + m])
  {}

  // ----- files on disk -----

  /** The state that a disk stands for: the inodes are those in the inode blocks. */
  function OnDisk(sb: Super, d: Disk): State {
    State(d, map k: nat | k < sb.ninodes :: GetInode(At(d, sb.Iblock(k)), k % IPB))
  }

  /** The states have the same blocks and inodes. */
  ghost predicate SameState(sb: Super, st: State, t: State) {
    && (forall b: nat :: SameOn(st.view, t.view, b))
    && forall k: nat :: k < sb.ninodes ==> k in st.inodes && k in t.inodes && st.inodes[k] == t.inodes[k]
  }

  lemma SameRefs(sb: Super, st: State, t: State, s: Slot)
    requires Shape(sb, st) && Shape(sb, t) && SameState(sb, st, t) && ValidSlot(sb, s)
    ensures Ref(sb, st, s) == Ref(sb, t, s)
  {
    assert SameOn(st.view, t.view, st.inodes[s.inum].addrs[NDIRECT]);
  }

  lemma SameFiles(sb: Super, st: State, t: State)
    requires Shape(sb, st) && NoHoles(sb, st) && SameState(sb, st, t)
    ensures Shape(sb, t) && NoHoles(sb, t)
    ensures forall i: nat :: i < sb.ninodes ==> Content(sb, st, i) == Content(sb, t, i)
  {
    assert Shape(sb, t);
    forall i: nat, bn: nat | i < sb.ninodes && bn < MAXFILE ensures BlockOf(sb, st, i, bn) == BlockOf(sb, t, i, bn) {
      SameRefs(sb, st, t, SlotOf(i, bn));
    }
    hide BlockOf;
    forall i: nat | i < sb.ninodes ensures Content(sb, st, i) == Content(sb, t, i) {
      forall o | 0 <= o < st.inodes[i].size ensures Content(sb, st, i)[o] == Content(sb, t, i)[o] {
        assert SameOn(st.view, t.view, BlockOf(sb, st, i, o / BSIZE));
      }
    }
  }

  lemma SplicedSame(sb: Super, st: State, st': State, t: State, t': State, k: nat, off: nat, d: seq<Byte>, end: nat)
    requires Spliced(sb, st, t, k, off, d, end) && SameState(sb, st, st') && SameState(sb, t, t')
    ensures Spliced(sb, st', t', k, off, d, end)
  {
    hide Ref, Content, Splice, NoHoles;
    SameFiles(sb, st, st');
    SameFiles(sb, t, t');
  }

  /** A disk that agrees with the buffers holds their files, if every inode is stored. */
  lemma DiskHolds(sb: Super, st: State, d: Disk)
    requires Shape(sb, st) && AllStored(sb, st) && Tracked(d, st.view, [])
    ensures SameState(sb, st, OnDisk(sb, d))
  {
    forall b: nat ensures SameOn(st.view, d, b) { assert SameOn(d, st.view, b); }
    forall k: nat | k < sb.ninodes ensures OnDisk(sb, d).inodes[k] == st.inodes[k] {
      assert Stored(sb, st, k) && SameOn(d, st.view, sb.Iblock(k));
    }
  }

  // ----- bytes that a failed copy left behind -----

  /** Bytes behind the end of the file do not show. */
  lemma SplicedCut(sb: Super, st: State, t: State, k: nat, off: nat, d: seq<Byte>, r: nat)
    requires Spliced(sb, st, t, k, off, d, off + r) && r <= |d| && off + r >= st.inodes[k].size
    ensures Spliced(sb, st, t, k, off, d[..r], off + r)
  {
    hide Ref, Content;
    SpliceLength(Content(sb, st, k), off, d);
    SpliceLength(Content(sb, st, k), off, d[..r]);
  }

  lemma SpliceAt(c: seq<Byte>, off: nat, d: seq<Byte>, o: nat)
    requires off <= |c| && o < Larger(|c|, off + |d|)
    ensures |Splice(c, off, d)| == Larger(|c|, off + |d|)
    ensures Splice(c, off, d)[o] == if off <= o < off + |d| then d[o - off] else c[o]
  {}

  /** The bytes of d behind the first r are in one block, which was there before. */
  ghost predicate StrayIn(sb: Super, st: State, t: State, k: nat, off: nat, d: seq<Byte>, r: nat) {
    && Shape(sb, st) && Shape(sb, t) && k < sb.ninodes && r < |d| && off + |d| <= MAXFILE * BSIZE
    && (off + r) / BSIZE == (off + |d| - 1) / BSIZE && (r == 0 || (off + r) % BSIZE == 0)
    && BlockOf(sb, t, k, (off + r) / BSIZE) == BlockOf(sb, st, k, (off + r) / BSIZE) != 0
  }

  /** Changing one mapped block leaves all others. */
  ghost predicate OneBlock(sb: Super, t: State, u: State, k: nat, bn: nat, blk: Block, i: nat, cn: nat)
    requires Shape(sb, t) && Shape(sb, u) && i < sb.ninodes && cn < MAXFILE
  {
    BlockOf(sb, t, i, cn) != 0 ==>
      && BlockOf(sb, u, i, cn) == BlockOf(sb, t, i, cn)
      && At(u.view, BlockOf(sb, t, i, cn)) == if i == k && cn == bn then blk else At(t.view, BlockOf(sb, t, i, cn))
  }

  lemma OtherBlock(sb: Super, t: State, owner: Owners, k: nat, bn: nat, blk: Block, i: nat, cn: nat)
    requires Inv(sb, t, owner) && k < sb.ninodes && bn < MAXFILE && BlockOf(sb, t, k, bn) != 0
    requires i < sb.ninodes && cn < MAXFILE && Shape(sb, WithData(sb, t, k, bn, blk))
    requires Ref(sb, WithData(sb, t, k, bn, blk), SlotOf(i, cn)) == Ref(sb, t, SlotOf(i, cn))
    ensures OneBlock(sb, t, WithData(sb, t, k, bn, blk), k, bn, blk, i, cn)
  {
    if !(i == k && cn == bn) && BlockOf(sb, t, i, cn) != 0 { Apart(sb, t, owner, i, cn, k, bn); }
    hide Ref;
  }

  lemma Apart(sb: Super, t: State, owner: Owners, i: nat, cn: nat, k: nat, bn: nat)
    requires Inv(sb, t, owner) && k < sb.ninodes && bn < MAXFILE && i < sb.ninodes && cn < MAXFILE
    requires !(i == k && cn == bn) && BlockOf(sb, t, i, cn) != 0
    ensures BlockOf(sb, t, i, cn) != BlockOf(sb, t, k, bn)
  {
    hide Ref, Forward, Backward, MetaUsed, NoHoles;
    NoSharing(sb, t, owner, SlotOf(i, cn), SlotOf(k, bn));
  }

  lemma RestoredRefs(sb: Super, t: State, owner: Owners, k: nat, bn: nat, blk: Block)
    requires Inv(sb, t, owner) && k < sb.ninodes && bn < MAXFILE && BlockOf(sb, t, k, bn) != 0
    ensures var u := WithData(sb, t, k, bn, blk);
            && Inv(sb, u, owner) && Shape(sb, u) && NoHoles(sb, u) && u.inodes == t.inodes
            && forall i: nat, cn: nat :: i < sb.ninodes && cn < MAXFILE ==> OneBlock(sb, t, u, k, bn, blk, i, cn)
  {
    hide Ref, Used, Forward, Backward, MetaUsed;
    WithDataInv(sb, t, owner, k, bn, blk);
    var u := WithData(sb, t, k, bn, blk);
    forall i: nat, cn: nat | i < sb.ninodes && cn < MAXFILE ensures OneBlock(sb, t, u, k, bn, blk, i, cn) {
      OtherBlock(sb, t, owner, k, bn, blk, i, cn);
    }
  }

  /** Where a byte lies that is neither in the block of the stray bytes nor before it. */
  lemma StrayBlock(off: nat, len: nat, r: nat, o: nat)
    requires r < len && (off + r) / BSIZE == (off + len - 1) / BSIZE && (r == 0 || (off + r) % BSIZE == 0)
    ensures o / BSIZE == (off + r) / BSIZE && r > 0 ==> o >= off + r
    ensures o / BSIZE != (off + r) / BSIZE ==> !(off + r <= o < off + len)
  {}

  lemma RestoredByte(sb: Super, st: State, t: State, u: State, k: nat, off: nat, d: seq<Byte>, r: nat, o: nat)
    requires StrayIn(sb, st, t, k, off, d, r) && Spliced(sb, st, t, k, off, d, off + r)
    requires Shape(sb, u) && u.inodes == t.inodes && o < Larger(st.inodes[k].size, off + r) <= MAXFILE * BSIZE
    requires t.inodes[k].size == Larger(st.inodes[k].size, off + r)
    requires var b, bn := BlockOf(sb, t, k, o / BSIZE), (off + r) / BSIZE;
             && BlockOf(sb, u, k, o / BSIZE) == b
             && At(u.view, b) == if o / BSIZE == bn then At(st.view, BlockOf(sb, st, k, bn)) else At(t.view, b)
    ensures ByteAt(sb, u, k, o) == Splice(Content(sb, st, k), off, d[..r])[..Larger(st.inodes[k].size, off + r)][o]
  {
    hide BlockOf, NoHoles, Splice;
    var c := Content(sb, st, k);
    StrayBlock(off, |d|, r, o);
    SpliceAt(c, off, d[..r], o);
    if o / BSIZE != (off + r) / BSIZE {
      SpliceAt(c, off, d, o);
      assert Content(sb, t, k)[o] == ByteAt(sb, t, k, o);
    }
  }

  lemma SplicedSize(sb: Super, st: State, t: State, k: nat, off: nat, d: seq<Byte>, end: nat)
    requires Spliced(sb, st, t, k, off, d, end)
    ensures t.inodes[k].size == Larger(st.inodes[k].size, end) <= MAXFILE * BSIZE
  {
    hide Ref;
    SpliceLength(Content(sb, st, k), off, d);
    assert |Content(sb, t, k)| == Larger(st.inodes[k].size, end);
  }

  /** With its old content back in the block, the file is as if only the reported bytes had
      been written. */
  lemma Restored(sb: Super, st: State, t: State, owner: Owners, k: nat, off: nat, d: seq<Byte>, r: nat)
    requires Inv(sb, t, owner) && StrayIn(sb, st, t, k, off, d, r) && Spliced(sb, st, t, k, off, d, off + r)
    ensures var bn := (off + r) / BSIZE;
            Spliced(sb, st, WithData(sb, t, k, bn, At(st.view, BlockOf(sb, st, k, bn))), k, off, d[..r], off + r)
  {
    var bn := (off + r) / BSIZE;
    var blk := At(st.view, BlockOf(sb, st, k, bn));
    var u := WithData(sb, t, k, bn, blk);
    RestoredRefs(sb, t, owner, k, bn, blk);
    OwnRestored(sb, st, t, u, k, off, d, r);
    hide Inv, WithData, BlockOf, Splice, StrayIn, Content, NoHoles;
    forall i: nat | i < sb.ninodes && i != k ensures Content(sb, u, i) == Content(sb, st, i) {
      OthersRestored(sb, t, u, k, bn, blk, i);
    }
  }

  lemma OwnRestored(sb: Super, st: State, t: State, u: State, k: nat, off: nat, d: seq<Byte>, r: nat)
    requires StrayIn(sb, st, t, k, off, d, r) && Spliced(sb, st, t, k, off, d, off + r)
    requires Shape(sb, u) && NoHoles(sb, u) && u.inodes == t.inodes
    requires var bn := (off + r) / BSIZE;
             forall cn: nat :: cn < MAXFILE ==> OneBlock(sb, t, u, k, bn, At(st.view, BlockOf(sb, st, k, bn)), k, cn)
    ensures Content(sb, u, k) == Splice(Content(sb, st, k), off, d[..r])[..Larger(st.inodes[k].size, off + r)]
  {
    var bn := (off + r) / BSIZE;
    var blk := At(st.view, BlockOf(sb, st, k, bn));
    SplicedSize(sb, st, t, k, off, d, off + r);
    SpliceLength(Content(sb, st, k), off, d[..r]);
    hide BlockOf, Splice, StrayIn;
    var want := Splice(Content(sb, st, k), off, d[..r])[..Larger(st.inodes[k].size, off + r)];
    forall o | 0 <= o < t.inodes[k].size ensures Content(sb, u, k)[o] == want[o] {
      InFile(sb, t, k, o);
      assert OneBlock(sb, t, u, k, bn, blk, k, o / BSIZE);
      RestoredByte(sb, st, t, u, k, off, d, r, o);
    }
    assert Content(sb, u, k) == want;
  }

  lemma OthersRestored(sb: Super, t: State, u: State, k: nat, bn: nat, blk: Block, i: nat)
    requires Shape(sb, t) && Shape(sb, u) && NoHoles(sb, t) && u.inodes == t.inodes && i < sb.ninodes && i != k
    requires forall cn: nat :: cn < MAXFILE ==> OneBlock(sb, t, u, k, bn, blk, i, cn)
    ensures Content(sb, u, i) == Content(sb, t, i)
  {
    hide BlockOf;
    forall o | 0 <= o < t.inodes[i].size ensures Content(sb, u, i)[o] == Content(sb, t, i)[o] {
      InFile(sb, t, i, o);
      assert OneBlock(sb, t, u, k, bn, blk, i, o / BSIZE);
    }
  }

  lemma InFile(sb: Super, t: State, i: nat, o: nat)
    requires Shape(sb, t) && NoHoles(sb, t) && i < sb.ninodes && o < t.inodes[i].size
    ensures o / BSIZE < MAXFILE && BlockOf(sb, t, i, o / BSIZE) != 0
  {
    hide BlockOf;
    assert o / BSIZE * BSIZE < t.inodes[i].size;
  }

  // ----- what end_op commits -----

  lemma RestoredStored(sb: Super, t: State, owner: Owners, k: nat, bn: nat, blk: Block)
    requires Inv(sb, t, owner) && AllStored(sb, t) && k < sb.ninodes && bn < MAXFILE && BlockOf(sb, t, k, bn) != 0
    ensures AllStored(sb, WithData(sb, t, k, bn, blk))
  {
    hide Ref, Used;
    MappedIsOwned(sb, t, owner, k, bn);
    forall i: nat | i < sb.ninodes ensures i in t.inodes && Stored(sb, WithData(sb, t, k, bn, blk), i) {
      Regions(sb, 0, i);
      assert Stored(sb, t, i);
    }
  }

  /** What the blocks of a write say about its stray bytes: they are in a block that was there
      and is not listed, or in a new one, which is. */
  ghost predicate StrayBytes(sb: Super, st: State, t: State, lh: seq<nat>, k: nat, off: nat, d: seq<Byte>, r: nat) {
    && Shape(sb, st) && Shape(sb, t) && k < sb.ninodes && r < |d| && off + |d| <= MAXFILE * BSIZE
    && (off + r) / BSIZE == (off + |d| - 1) / BSIZE && (r == 0 || (off + r) % BSIZE == 0)
    && var b := BlockOf(sb, t, k, (off + r) / BSIZE);
       && b != 0 && Covered(st.view, t.view, lh, {b})
       && if BlockOf(sb, st, k, (off + r) / BSIZE) == 0 then b in lh
          else b == BlockOf(sb, st, k, (off + r) / BSIZE) && b !in lh
  }

  lemma OverlayAt(home: Disk, lh: seq<nat>, view: Disk, b: nat)
    ensures At(Overlay(home, lh, view), b) == if b in lh then At(view, b) else At(home, b)
  {}

  lemma AllListed(home: Disk, v: Disk, w: Disk, lh: seq<nat>, ex: set<nat>)
    requires Tracked(home, v, []) && Covered(v, w, lh, ex) && forall b :: b in ex ==> b in lh
    ensures Tracked(Overlay(home, lh, w), w, [])
  {
    forall b: nat ensures SameOn(Overlay(home, lh, w), w, b) {
      OverlayAt(home, lh, w, b);
      assert SameOn(home, v, b) && (b !in lh && b !in ex ==> SameOn(v, w, b));
    }
  }

  lemma OneUnlisted(home: Disk, v: Disk, w: Disk, lh: seq<nat>, x: nat)
    requires Tracked(home, v, []) && Covered(v, w, lh, {x}) && x !in lh
    ensures Tracked(Overlay(home, lh, w), w[x := At(v, x)], [])
  {
    var d, w' := Overlay(home, lh, w), w[x := At(v, x)];
    forall b: nat ensures SameOn(d, w', b) {
      OverlayAt(home, lh, w, b);
      assert SameOn(home, v, b) && (b !in lh && b != x ==> SameOn(v, w, b));
    }
  }

  /** If the disk agreed with the buffers, end_op commits exactly the bytes that writei
      reported. If there are no stray bytes, the disk agrees with the buffers again. */
  lemma Commits(sb: Super, st: State, t: State, owner: Owners, home: Disk, lh: seq<nat>,
                k: nat, off: nat, d: seq<Byte>, r: nat)
    requires Inv(sb, t, owner) && Spliced(sb, st, t, k, off, d, off + r) && r <= |d|
    requires AllStored(sb, st) && AllStored(sb, t) && Tracked(home, st.view, [])
    requires if r == |d| then Covered(st.view, t.view, lh, {}) else StrayBytes(sb, st, t, lh, k, off, d, r)
    ensures var disk := Overlay(home, lh, t.view);
            && Spliced(sb, OnDisk(sb, home), OnDisk(sb, disk), k, off, d[..r], off + r)
            && (r == |d| ==> Tracked(disk, t.view, []))
  {
    hide Inv, Ref, Spliced, AllStored, Covered, Tracked, Overlay, OnDisk, SameState;
    var disk := Overlay(home, lh, t.view);
    SplicedShapes(sb, st, t, k, off, d, off + r);
    DiskHolds(sb, st, home);
    if r == |d| {
      AllListed(home, st.view, t.view, lh, {});
      DiskHolds(sb, t, disk);
      SplicedSame(sb, st, OnDisk(sb, home), t, OnDisk(sb, disk), k, off, d, off + r);
      assert d[..r] == d;
    } else {
      var bn := (off + r) / BSIZE;
      var x := BlockOf(sb, t, k, bn);
      if BlockOf(sb, st, k, bn) == 0 {
        AllListed(home, st.view, t.view, lh, {x});
        DiskHolds(sb, t, disk);
        NewBehind(sb, st, k, bn);
        SplicedCut(sb, st, t, k, off, d, r);
        SplicedSame(sb, st, OnDisk(sb, home), t, OnDisk(sb, disk), k, off, d[..r], off + r);
      } else {
        var u := WithData(sb, t, k, bn, At(st.view, x));
        OneUnlisted(home, st.view, t.view, lh, x);
        RestoredStored(sb, t, owner, k, bn, At(st.view, x));
        Restored(sb, st, t, owner, k, off, d, r);
        DiskHolds(sb, u, disk);
        SplicedSame(sb, st, OnDisk(sb, home), u, OnDisk(sb, disk), k, off, d[..r], off + r);
      }
    }
  }

  lemma SplicedShapes(sb: Super, st: State, t: State, k: nat, off: nat, d: seq<Byte>, end: nat)
    requires Spliced(sb, st, t, k, off, d, end)
    ensures Shape(sb, st) && Shape(sb, t) && NoHoles(sb, st) && k < sb.ninodes
  {
    hide Ref, Content, NoHoles;
  }

  /** A block that is not there lies behind the end of the file. */
  lemma NewBehind(sb: Super, st: State, k: nat, bn: nat)
    requires Shape(sb, st) && NoHoles(sb, st) && k < sb.ninodes && bn < MAXFILE && BlockOf(sb, st, k, bn) == 0
    ensures bn * BSIZE >= st.inodes[k].size
  {}
}
