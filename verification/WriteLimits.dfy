/** How far writei and filewrite get: which blocks a byte range needs, whether the disk has
    them, and where a write ends when the disk or the user's memory does not last. */
module WriteLimits {
  import opened Blocks
  import opened Inodes
  import opened FsState

  const CHUNK := 3 * BSIZE   // filewrite's ((MAXOPBLOCKS-1-1-2) / 2) * BSIZE

  // ----- the blocks of a byte range -----

  /** Blocks that the byte range [off, off + n) touches. */
  function Touched(off: nat, n: nat): nat {
    if n == 0 then 0 else (off + n - 1) / BSIZE - off / BSIZE + 1
  }

  lemma TouchedNext(off: nat, tot: nat, w: nat)
    requires 0 < w <= BSIZE - (off + tot) % BSIZE
    requires tot == 0 || (off + tot) % BSIZE == 0
    ensures Touched(off, tot + w) == Touched(off, tot) + 1
    ensures (off + tot) / BSIZE == off / BSIZE + Touched(off, tot)
  {}

  lemma TouchedNone(off: nat)
    ensures Touched(off, 0) == 0
  {}

  lemma TouchedSome(off: nat, tot: nat)
    ensures Touched(off, tot) == 0 <==> tot == 0
  {}

  lemma TouchedMore(off: nat, tot: nat, n: nat)
    requires tot < n && (tot == 0 || (off + tot) % BSIZE == 0)
    ensures Touched(off, tot) + 1 <= Touched(off, n)
  {}

  lemma TouchedMonotone(off: nat, a: nat, b: nat)
    requires a <= b
    ensures Touched(off, a) <= Touched(off, b)
  {}

  /** The slots that the byte range [off, off + n) of file k needs. */
  function Slots(k: nat, off: nat, n: nat): set<Slot> {
    FileSlots(k, off / BSIZE, off / BSIZE + Touched(off, n))
  }

  /** The disk has a free block for every empty one of them. */
  ghost predicate Affords(sb: Super, st: State, k: nat, off: nat, n: nat)
    requires Shape(sb, st)
  {
    |Empty(sb, st, Slots(k, off, n))| <= |FreeSet(sb, st.view)|
  }

  lemma AffordsLess(sb: Super, st: State, k: nat, off: nat, a: nat, b: nat)
    requires Shape(sb, st) && a <= b && Affords(sb, st, k, off, b)
    ensures Affords(sb, st, k, off, a)
  {
    hide Empty, FreeSet, FileSlots, Touched;
    TouchedMonotone(off, a, b);
    FileSlotsMonotone(k, off / BSIZE, off / BSIZE + Touched(off, a), off / BSIZE + Touched(off, b));
    EmptyMonotone(sb, st, Slots(k, off, a), Slots(k, off, b));
  }

  lemma AffordsSame(sb: Super, st: State, k: nat, off: nat, a: nat, b: nat)
    requires Shape(sb, st) && Touched(off, a) == Touched(off, b)
    ensures Affords(sb, st, k, off, a) <==> Affords(sb, st, k, off, b)
  {
    hide Empty, FreeSet, FileSlots, Touched;
  }

  /** With the blocks of the first tot bytes in place, the next piece is a matter of its own
      block. */
  lemma AffordsNext(sb: Super, st: State, t: State, k: nat, off: nat, tot: nat, w: nat)
    requires Shape(sb, st) && Filled(sb, st, t, Slots(k, off, tot))
    requires 0 < w <= BSIZE - (off + tot) % BSIZE && (tot == 0 || (off + tot) % BSIZE == 0)
    ensures var ss := PathSlots(k, (off + tot) / BSIZE);
            && Slots(k, off, tot + w) == Slots(k, off, tot) + ss
            && (Affords(sb, st, k, off, tot + w) <==> |Empty(sb, t, ss)| <= |FreeSet(sb, t.view)|)
  {
    hide Empty, FreeSet, PathSlots, Touched, Shape, Ref;
    TouchedNext(off, tot, w);
    EmptySum(sb, st, t, Slots(k, off, tot), PathSlots(k, (off + tot) / BSIZE));
  }

  lemma FilledAffords(sb: Super, st: State, t: State, k: nat, off: nat, n: nat)
    requires Shape(sb, st) && Filled(sb, st, t, Slots(k, off, n))
    ensures Affords(sb, st, k, off, n)
  {
    hide Empty, FreeSet, Slots;
  }

  lemma NoSlots(sb: Super, st: State, k: nat, off: nat)
    requires Shape(sb, st)
    ensures Slots(k, off, 0) == {} && Filled(sb, st, st, Slots(k, off, 0))
  {
    hide Ref, Used;
    FilledAlready(sb, st, {});
  }

  lemma SlotsJoin(k: nat, off: nat, i: nat, x: nat)
    ensures Slots(k, off, i) + Slots(k, off + i, x) == Slots(k, off, i + x)
  {
    hide FileSlots;
    if i == 0 || x == 0 {
      NoFileSlots(k, off / BSIZE);
      NoFileSlots(k, (off + i) / BSIZE);
    } else {
      var lo, a, b := off / BSIZE, off / BSIZE + Touched(off, i), (off + i) / BSIZE;
      FileSlotsJoin(k, lo, a, b, b + Touched(off + i, x));
    }
  }

  lemma NoFileSlots(k: nat, lo: nat)
    ensures FileSlots(k, lo, lo) == {}
  {}

  /** What a later part of the write can afford is what the whole could. */
  lemma AffordsShift(sb: Super, st: State, t: State, k: nat, off: nat, i: nat, x: nat)
    requires Shape(sb, st) && Filled(sb, st, t, Slots(k, off, i))
    ensures Affords(sb, t, k, off + i, x) <==> Affords(sb, st, k, off, i + x)
  {
    hide Empty, FreeSet, Slots, Shape, Ref;
    SlotsJoin(k, off, i, x);
    EmptySum(sb, st, t, Slots(k, off, i), Slots(k, off + i, x));
  }

  // ----- where a write ends -----

  /** The length of writei's next piece, at tot of len bytes. */
  function Piece(off: nat, len: nat, tot: nat): (w: nat)
    requires tot <= len
    ensures w <= len - tot && w <= BSIZE - (off + tot) % BSIZE && (tot < len ==> w > 0)
  {
    if len - tot < BSIZE - (off + tot) % BSIZE then len - tot else BSIZE - (off + tot) % BSIZE
  }

  lemma PieceEnds(off: nat, len: nat, tot: nat)
    requires tot <= len
    ensures var m := tot + Piece(off, len, tot); m == len || (off + m) % BSIZE == 0
  {}

  /** Of a write at off, writei is given bytes i .. i + n, and the user's memory ends after
      avail bytes. It gets to tot, a piece boundary, and either that is all, or the disk has
      no block for the next piece, or its copy fails and leaves the bytes up to avail in the
      block. */
  ghost predicate WriteEnds(sb: Super, st: State, k: nat, off: nat, i: nat, n: nat, avail: nat, tot: nat, reach: nat)
    requires Shape(sb, st)
  {
    && i <= tot <= i + n && tot <= avail && Affords(sb, st, k, off, tot)
    && (tot == i || tot == i + n || (off + tot) % BSIZE == 0)
    && if tot == i + n then reach == tot
       else if Affords(sb, st, k, off, tot + Piece(off, i + n, tot)) then
         avail < tot + Piece(off, i + n, tot) && reach == avail
       else reach == tot
  }

  /** The last piece boundary in the first a bytes of a write at off. */
  function LastBoundary(off: nat, a: nat): nat {
    var rem := (off + a) % BSIZE;
    if rem == 0 then a else if rem >= a then 0 else a - rem
  }

  lemma BetweenPieces(off: nat, len: nat, tot: nat, a: nat)
    requires tot < len && tot < a <= tot + Piece(off, len, tot) && (tot == 0 || (off + tot) % BSIZE == 0)
    ensures Touched(off, a) == Touched(off, tot + Piece(off, len, tot))
    ensures a < tot + Piece(off, len, tot) ==> (off + a) % BSIZE != 0 && LastBoundary(off, a) == tot
  {
    hide Touched;
    TouchedNext(off, tot, Piece(off, len, tot));
    TouchedNext(off, tot, a - tot);
    if a < tot + Piece(off, len, tot) { Inside(off + tot, a - tot); }
  }

  lemma Inside(o: nat, i: nat)
    requires o % BSIZE + i < BSIZE
    ensures (o + i) % BSIZE == o % BSIZE + i
  {}

  /** writei writes everything exactly if user memory and disk last. It leaves bytes behind
      that it does not report exactly if the user's memory ends inside a block it has. As long
      as the disk lasts, what it reports ends at a block boundary. */
  lemma EndsExactly(sb: Super, st: State, k: nat, off: nat, n: nat, avail: nat, r: nat, reach: nat)
    requires Shape(sb, st) && WriteEnds(sb, st, k, off, 0, n, avail, r, reach)
    ensures r == n <==> avail >= n && Affords(sb, st, k, off, n)
    ensures r < reach <==> 0 < avail < n && (off + avail) % BSIZE != 0 && Affords(sb, st, k, off, avail)
    ensures avail < n && Affords(sb, st, k, off, avail) ==> r == LastBoundary(off, avail)
  {
    hide Affords, Touched, Shape;
    if r < n {
      var m := r + Piece(off, n, r);
      if Affords(sb, st, k, off, n) { AffordsLess(sb, st, k, off, m, n); }
      if avail < m {
        if r < avail {
          BetweenPieces(off, n, r, avail);
          AffordsSame(sb, st, k, off, avail, m);
        }
      } else if Affords(sb, st, k, off, avail) {
        AffordsLess(sb, st, k, off, m, avail);
      }
    }
  }

  /** The bytes left behind are those the user's memory has. */
  lemma EndsInside(sb: Super, st: State, k: nat, off: nat, n: nat, avail: nat, r: nat, reach: nat)
    requires Shape(sb, st) && WriteEnds(sb, st, k, off, 0, n, avail, r, reach) && r < reach
    ensures reach == avail
  {
    hide Affords, Shape;
  }

  /** They lie in one block, behind whole pieces. */
  lemma EndsInBlock(sb: Super, st: State, k: nat, off: nat, n: nat, avail: nat, r: nat, reach: nat)
    requires Shape(sb, st) && WriteEnds(sb, st, k, off, 0, n, avail, r, reach) && r < reach
    ensures r < n && reach <= n && (off + r) / BSIZE == (off + reach - 1) / BSIZE
    ensures r == 0 || (off + r) % BSIZE == 0
  {
    hide Affords, Shape;
  }

  /** The same for a part of a longer write: everything exactly if both last. */
  lemma PartEnds(sb: Super, st: State, k: nat, off: nat, i: nat, n: nat, avail: nat, tot: nat, reach: nat, len: nat)
    requires Shape(sb, st) && WriteEnds(sb, st, k, off, i, n, avail, tot, reach) && tot < i + n <= len
    ensures !(avail >= len && Affords(sb, st, k, off, len))
    ensures tot <= reach <= i + n && (tot < reach ==> reach == avail < len)
  {
    hide Affords, Shape;
    if Affords(sb, st, k, off, len) {
      AffordsLess(sb, st, k, off, tot + Piece(off, i + n, tot), len);
    }
  }

  /** writei's end on a later part, seen from the state at the beginning. */
  lemma EndsShift(sb: Super, st: State, t: State, k: nat, off: nat, i: nat, n: nat, avail: nat, r: nat, m: nat)
    requires Shape(sb, st) && Filled(sb, st, t, Slots(k, off, i)) && i <= avail
    requires WriteEnds(sb, t, k, off + i, 0, n, avail - i, r, m)
    ensures WriteEnds(sb, st, k, off, i, n, avail, i + r, i + m)
  {
    hide Affords, Slots, Filled, Shape;
    AffordsShift(sb, st, t, k, off, i, r);
    if r < n { AffordsShift(sb, st, t, k, off, i, r + Piece(off + i, n, r)); }
  }

  // ----- filewrite -----

  /** A write of n bytes at off goes through as a whole. */
  ghost predicate CanWrite(sb: Super, st: State, k: nat, off: nat, n: nat, avail: nat)
    requires Shape(sb, st) && k < sb.ninodes
  {
    off <= st.inodes[k].size && off + n <= MAXFILE * BSIZE && n <= avail && Affords(sb, st, k, off, n)
  }

  /** Where filewrite ends: it writes all len bytes, or it stops in the chunk that w lies in,
      because writei refuses it or ends early. */
  ghost predicate FileEnds(sb: Super, st: State, k: nat, off: nat, len: nat, avail: nat, w: nat, reach: nat)
    requires Shape(sb, st) && k < sb.ninodes
  {
    if w == len then reach == len && (len == 0 || CanWrite(sb, st, k, off, len, avail))
    else
      && w < len
      && var i := w - w % CHUNK;
         var n := if len - i > CHUNK then CHUNK else len - i;
         if off > st.inodes[k].size || off + i + n > MAXFILE * BSIZE then
           w == reach == i && (i > 0 ==> CanWrite(sb, st, k, off, i, avail))
         else WriteEnds(sb, st, k, off, i, n, avail, w, reach)
  }

  /** filewrite returns n exactly if the write goes through as a whole. */
  lemma FileEndsExactly(sb: Super, st: State, k: nat, off: nat, len: nat, avail: nat, w: nat, reach: nat)
    requires Shape(sb, st) && k < sb.ninodes && FileEnds(sb, st, k, off, len, avail, w, reach)
    ensures w == len <==> len == 0 || CanWrite(sb, st, k, off, len, avail)
    ensures w <= reach <= len && (w < reach ==> reach == avail < len)
  {
    hide Affords, WriteEnds;
    if w < len {
      var i := w - w % CHUNK;
      var n := if len - i > CHUNK then CHUNK else len - i;
      if !(off > st.inodes[k].size || off + i + n > MAXFILE * BSIZE) {
        PartEnds(sb, st, k, off, i, n, avail, w, reach, len);
      }
    }
  }

  lemma ChunkStart(i: nat, r: nat)
    requires i % CHUNK == 0 && r < CHUNK
    ensures (i + r) - (i + r) % CHUNK == i
  {}
}
