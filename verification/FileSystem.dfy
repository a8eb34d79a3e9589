/** fs.c and the inode branch of filewrite as the kernel runs them: bitmap bytes,
    inodes and cached blocks changed in place. */
module FileSystem {
  import opened Blocks
  import opened Journal
  import opened Inodes
  import opened FsState
  import opened Committed
  import opened WriteLimits
  import opened Log

  /** Whether an operation is open, its calls of log_write, a bound on what it had listed at
      any of them, and the calls of the operations that ended; what the blocks are that are
      not logged, and what is committed. */
  datatype Tx = Tx(open: bool, late: nat, calls: seq<nat>, done: seq<seq<nat>>, base: Disk, home: Disk)

  function NoTx(d: Disk): Tx {
    Tx(false, 0, [], [], d, d)
  }

  class FileSystem {
    const sb: Super
    var view: Disk                // what bread returns
    var inodes: map<nat, Inode>   // the in-memory inodes
    var lh: seq<nat>              // blocks logged since begin_op
    ghost var owner: Owners
    ghost var tx: Tx

    ghost function St(): State
      reads this
    {
      State(view, inodes)
    }

    ghost predicate Valid()
      reads this
    {
      Inv(sb, St(), owner)
    }

    /** A fresh disk: mkfs zeroes it and marks everything in front of the data area as in
        use; no inode is allocated. */
    constructor (sb: Super)
      requires sb.Valid()
      ensures this.sb == sb && Valid() && AllStored(sb, St()) && owner == map[]
      ensures tx == NoTx(view) && Closed()
      ensures forall b: nat :: b < sb.size ==> (Used(sb, view, b) <==> b < sb.datastart)
      ensures forall k: nat :: k < sb.ninodes ==> Content(sb, St(), k) == []
    {
      hide Inv, Used, AllStored;
      this.sb := sb;
      view, inodes, lh, owner, tx := map[], BlankInodes(sb), [], map[], NoTx(map[]);
      new;
      ZeroFree(sb);
      var b := 0;
      while b < sb.datastart
        invariant 0 <= b <= sb.datastart
        invariant forall c: nat :: c < sb.size ==> (Used(sb, view, c) <==> c < b)
        invariant forall c: nat :: c < sb.bmapstart ==> At(view, c) == Zero
        invariant inodes == BlankInodes(sb) && owner == map[]
      {
        FormatStep(sb, view, b);
        view := MarkUsed(sb, view, b);
        b := b + 1;
      }
      FormattedInv(sb, view);
      InvShape(sb, St(), owner);
      tx := NoTx(view);
    }

    /** Between begin_op and end_op. Every block that is not listed is as it was. */
    ghost predicate Open()
      reads this
    {
      tx.open && tx.late <= |lh| && Recorded(tx.calls, tx.late, lh) && Tracked(tx.base, view, lh)
    }

    /** Outside operations. */
    ghost predicate Closed()
      reads this
    {
      !tx.open && Tracked(tx.base, view, [])
    }

    /** `begin_op`. */
    method BeginOp()
      requires Closed()
      modifies this`lh, this`tx
      ensures Open() && lh == [] && tx == old(tx).(open := true, late := 0, calls := [])
    {
      lh := [];
      tx := tx.(open := true, late := 0, calls := []);
    }

    /** `end_op`: the listed blocks are committed as they are, and no others. */
    method EndOp()
      requires Open()
      modifies this`tx
      ensures Closed() && tx.done == old(tx).done + [old(tx).calls]
      ensures tx.home == Overlay(old(tx).home, lh, view) && tx.base == Overlay(old(tx).base, lh, view)
    {
      TrackedAll(tx.base, view, lh);
      tx := Tx(false, 0, [], tx.done + [tx.calls], Overlay(tx.base, lh, view), Overlay(tx.home, lh, view));
    }

    /** bread, change the data, log_write, brelse; log_write panics outside an operation. */
    method Put(b: nat, data: Block)
      requires Open()
      modifies this`view, this`lh, this`tx
      ensures view == old(view)[b := data] && lh == Absorb(old(lh), b)
      ensures Open() && tx == old(tx).(late := Larger(old(tx).late, |old(lh)|), calls := old(tx).calls + [b])
    {
      view := view[b := data];
      RecordedNext(tx.calls, tx.late, lh, b);
      TrackedNext(tx.base, old(view), lh, b, data);
      tx := tx.(late := Larger(tx.late, |lh|), calls := tx.calls + [b]);
      lh := Absorb(lh, b);
    }

    /** `balloc`: the first free block, marked, zeroed and logged; 0 only when every
        block of the disk is in use. */
    method Balloc() returns (r: nat)
      requires sb.Valid() && MetaUsed(sb, view) && Open()
      modifies this`view, this`lh, this`tx
      ensures Open() && SameTx(old(tx), tx)
      ensures r == 0 ==> view == old(view) && lh == old(lh) && forall b: nat :: b < sb.size ==> Used(sb, view, b)
      ensures r != 0 ==> sb.datastart <= r < sb.size && !Used(sb, old(view), r)
      ensures r != 0 ==> forall b: nat :: b < r ==> Used(sb, old(view), b)
      ensures r != 0 ==> view == Alloc(sb, old(view), r) && lh == Absorb(Absorb(old(lh), sb.Bblock(r)), r)
    {
      hide GetBit, SetBit, Used, UsedBelow, Alloc, Super.Bblock, Recorded, Tracked, Absorb;
      UsedFrom(sb, view);
      var b := 0;
      while b < sb.size
        invariant b % BPB == 0 && UsedBelow(sb, view, b)
        invariant view == old(view) && lh == old(lh) && tx == old(tx)
        decreases sb.size - b
      {
        var bp := At(view, sb.Bblock(b));
        var bi := 0;
        while bi < BPB && b + bi < sb.size
          invariant 0 <= bi <= BPB && UsedBelow(sb, view, b + bi)
          invariant view == old(view) && lh == old(lh) && tx == old(tx)
        {
          ScannedBit(sb, view, b, bi);
          if !GetBit(bp, bi) {
            UsedNot(sb, view, b + bi);
            AllocIs(sb, view, b, bi);
            Put(sb.Bblock(b), SetBit(bp, bi));
            Put(b + bi, Zero);
            return b + bi;
          }
          UsedNext(sb, view, b + bi);
          bi := bi + 1;
        }
        UsedPast(sb, view, b + bi, b + BPB);
        b := b + BPB;
      }
      UsedAll(sb, view, b);
      return 0;
    }

    /** `bfree`: panics on a block that is free already. */
    method Bfree(b: nat) returns (panicked: bool)
      requires Open()
      modifies this`view, this`lh, this`tx
      ensures Open() && SameTx(old(tx), tx)
      ensures panicked <==> !Used(sb, old(view), b)
      ensures panicked ==> view == old(view) && lh == old(lh)
      ensures !panicked ==> view == MarkFree(sb, old(view), b) && lh == Absorb(old(lh), sb.Bblock(b))
    {
      var bp := At(view, sb.Bblock(b));
      if !GetBit(bp, b % BPB) { return true; }
      Put(sb.Bblock(b), ClearBit(bp, b % BPB));
      return false;
    }

    /** `iupdate`. */
    method Iupdate(k: nat)
      requires Open() && k < sb.ninodes && k in inodes && inodes[k].Fits()
      modifies this`view, this`lh, this`tx
      ensures Open() && SameTx(old(tx), tx)
      ensures State(view, inodes) == WithInode(sb, old(State(view, inodes)), k, inodes[k])
      ensures lh == Absorb(old(lh), sb.Iblock(k)) && tx.late == Larger(old(tx).late, |old(lh)|)
    {
      Put(sb.Iblock(k), PutInode(At(view, sb.Iblock(k)), k % IPB, inodes[k]));
    }

    /** bmap's `if((addr = ip->addrs[i]) == 0) addr = balloc()`, for a direct block or
        for the indirect block. */
    method MapAddr(k: nat, i: nat) returns (addr: nat)
      requires Valid() && k < sb.ninodes && i <= NDIRECT
      requires inodes[k].addrs[i] == 0 ==> Open()
      modifies this`view, this`inodes, this`lh, this`owner, this`tx
      ensures Valid() && addr == inodes[k].addrs[i]
      ensures old(inodes[k].addrs[i]) != 0 ==>
                St() == old(St()) && owner == old(owner) && lh == old(lh) && tx == old(tx)
      ensures addr == 0 ==> St() == old(St()) && lh == old(lh) && DiskFull(sb, view)
      ensures Grows(sb, old(St()), St(), k)
      ensures addr == 0 <==> old(inodes[k].addrs[i]) == 0 && FreeSet(sb, old(view)) == {}
      ensures addr != 0 ==> Filled(sb, old(St()), St(), {Addr(k, i)})
      ensures i == NDIRECT && old(inodes[k].addrs[i]) == 0 ==>
                forall j: nat :: j < NINDIRECT ==> Ref(sb, St(), Ind(k, j)) == 0
      ensures SameTx(old(tx), tx) && (old(Open()) ==> Open())
      ensures |lh| <= |old(lh)| + 2 && Within(old(lh), lh)
      ensures NewIn(old(owner), old(lh), lh, inodes[k].addrs[NDIRECT]) && old(owner).Keys <= owner.Keys
      ensures addr != 0 && old(inodes[k].addrs[i]) == 0 ==> addr in lh
    {
      hide Inv, Ref, Alloc, Used, Filled, FreeSet, Recorded, Tracked;
      InvShape(sb, St(), owner);
      addr := inodes[k].addrs[i];
      AddrRef(sb, St(), k, i);
      if addr == 0 {
        ghost var st := St();
        addr := Balloc();
        FullIff(sb, st.view, addr);
        NewlyOwned(sb, st, owner, old(lh), addr, 0);
        if addr != 0 {
          inodes := inodes[k := inodes[k].(addrs := inodes[k].addrs[i := addr])];
          assert St() == WithAddr(sb, st, k, i, addr);
          WithAddrInv(sb, st, owner, k, i, addr);
          WithAddrGrows(sb, st, owner, k, i, addr);
          FreshIndirect(sb, st, owner, k, i, addr);
          owner := owner[addr := Addr(k, i)];
        } else {
          NoEntries(sb, st, k);
        }
      } else {
        FilledAlready(sb, St(), {Addr(k, i)});
      }
    }

    /** bmap's `if((addr = a[j]) == 0) addr = balloc()` in the indirect block. */
    method MapEntry(k: nat, j: nat) returns (addr: nat)
      requires Valid() && k < sb.ninodes && j < NINDIRECT && inodes[k].addrs[NDIRECT] != 0
      requires Ref(sb, St(), Ind(k, j)) == 0 ==> Open()
      modifies this`view, this`inodes, this`lh, this`owner, this`tx
      ensures Valid() && addr == Ref(sb, St(), Ind(k, j))
      ensures old(Ref(sb, St(), Ind(k, j))) != 0 ==>
                St() == old(St()) && owner == old(owner) && lh == old(lh) && tx == old(tx)
      ensures addr == 0 ==> St() == old(St()) && lh == old(lh) && DiskFull(sb, view)
      ensures Grows(sb, old(St()), St(), k) && inodes == old(inodes)
      ensures addr == 0 <==> old(Ref(sb, St(), Ind(k, j))) == 0 && FreeSet(sb, old(view)) == {}
      ensures addr != 0 ==> Filled(sb, old(St()), St(), {Ind(k, j)})
      ensures SameTx(old(tx), tx) && (old(Open()) ==> Open())
      ensures |lh| <= |old(lh)| + (if inodes[k].addrs[NDIRECT] in old(lh) then 2 else 3) && Within(old(lh), lh)
      ensures NewIn(old(owner), old(lh), lh, inodes[k].addrs[NDIRECT]) && old(owner).Keys <= owner.Keys
      ensures addr != 0 && old(Ref(sb, St(), Ind(k, j))) == 0 ==> addr in lh && inodes[k].addrs[NDIRECT] in lh
    {
      hide Inv, Alloc, Used, Filled, FreeSet, Recorded, Tracked;
      InvShape(sb, St(), owner);
      var ind := inodes[k].addrs[NDIRECT];
      addr := GetWord(At(view, ind), j);
      if addr == 0 {
        ghost var st := St();
        addr := Balloc();
        FullIff(sb, st.view, addr);
        NewlyOwned(sb, st, owner, old(lh), addr, ind);
        if addr != 0 {
          Put(ind, PutWord(At(view, ind), j, addr));
          assert St() == WithEntry(sb, st, k, j, addr);
          WithEntryInv(sb, st, owner, k, j, addr);
          WithEntryGrows(sb, st, owner, k, j, addr);
          WithEntryRef(sb, st, owner, k, j, addr, Ind(k, j));
          owner := owner[addr := Ind(k, j)];
        }
      } else {
        FilledAlready(sb, St(), {Ind(k, j)});
      }
    }

    /** `bmap`: the disk block of file k's block bn, allocated if there is none; 0 when
        the disk is full. Nothing that is mapped moves or changes. */
    method Bmap(k: nat, bn: nat) returns (addr: nat)
      requires Valid() && k < sb.ninodes && bn < MAXFILE
      requires BlockOf(sb, St(), k, bn) == 0 ==> Open()
      modifies this`view, this`inodes, this`lh, this`owner, this`tx
      ensures Valid() && addr == BlockOf(sb, St(), k, bn)
      ensures Grows(sb, old(St()), St(), k)
      ensures addr == 0 ==> DiskFull(sb, view)
      ensures addr == 0 <==> |FreeSet(sb, old(view))| < |Empty(sb, old(St()), PathSlots(k, bn))|
      ensures addr != 0 ==> Filled(sb, old(St()), St(), PathSlots(k, bn))
      ensures old(BlockOf(sb, St(), k, bn)) != 0 ==>
                St() == old(St()) && owner == old(owner) && lh == old(lh) && tx == old(tx)
      // the log blocks that a new mapping costs
      ensures SameTx(old(tx), tx) && (old(Open()) ==> Open())
      ensures Within(old(lh), lh)
      ensures NewIn(old(owner), old(lh), lh, inodes[k].addrs[NDIRECT]) && old(owner).Keys <= owner.Keys
      ensures |lh| <= |old(lh)| + 2 + IndirectCost(old(inodes[k].addrs[NDIRECT]), old(lh), bn)
      ensures addr == 0 ==> |lh| <= |old(lh)| + IndirectCost(old(inodes[k].addrs[NDIRECT]), old(lh), bn)
      ensures addr != 0 && old(BlockOf(sb, St(), k, bn)) == 0 ==> addr in lh
      ensures addr != 0 && old(BlockOf(sb, St(), k, bn)) == 0 && bn >= NDIRECT ==>
                inodes[k].addrs[NDIRECT] != 0 && inodes[k].addrs[NDIRECT] in lh
    {
      hide Inv, Used, Filled, FreeSet, Empty, PathSlots, Recorded, Tracked, NewIn;
      InvShape(sb, St(), owner);
      ghost var st := St();
      if bn < NDIRECT {
        addr := MapAddr(k, bn);
        DirectCost(sb, st, k, bn);
      } else {
        var ind := MapAddr(k, NDIRECT);
        ghost var mid, owner1, lh1 := St(), owner, lh;
        IndirectNeeds(sb, st, mid, k, bn, ind);
        if ind == 0 { return 0; }
        addr := MapEntry(k, bn - NDIRECT);
        GrowsTransitive(sb, st, mid, St(), k);
        NewInMore(old(owner), owner1, old(lh), lh1, lh, inodes[k].addrs[NDIRECT]);
        if addr != 0 { IndirectFills(sb, st, mid, St(), k, bn); }
      }
    }

    /** itrunc's first loop. */
    method FreeDirect(k: nat) returns (panicked: bool)
      requires Valid() && Open() && k < sb.ninodes
      modifies this`view, this`inodes, this`lh, this`tx
      ensures Open() && SameTx(old(tx), tx) && Within(old(lh), lh)
      ensures !panicked
      ensures FreedUpTo(sb, old(St()), owner, view, k, NDIRECT)
      ensures k in inodes && inodes == old(inodes)[k := inodes[k]]
      ensures inodes[k] == old(inodes[k]).(addrs := inodes[k].addrs)
      ensures |inodes[k].addrs| == NDIRECT + 1 && inodes[k].addrs[NDIRECT] == old(inodes[k].addrs[NDIRECT])
      ensures forall x :: 0 <= x < NDIRECT ==> inodes[k].addrs[x] == 0
    {
      hide Inv, Used, Ref, MarkFree, Recorded, Tracked;
      InvShape(sb, St(), owner);
      ghost var st := St();
      FreedNothing(sb, st, owner, k);
      hide FreedUpTo;
      var i := 0;
      while i < NDIRECT
        invariant 0 <= i <= NDIRECT
        invariant FreedUpTo(sb, st, owner, view, k, i)
        invariant Open() && SameTx(old(tx), tx) && Within(old(lh), lh)
        invariant k in inodes && inodes == st.inodes[k := inodes[k]]
        invariant inodes[k] == st.inodes[k].(addrs := inodes[k].addrs) && |inodes[k].addrs| == NDIRECT + 1
        invariant forall x :: 0 <= x <= NDIRECT ==> inodes[k].addrs[x] == if x < i then 0 else st.inodes[k].addrs[x]
      {
        FreedStep(sb, st, owner, view, k, i);
        AddrRef(sb, st, k, i);
        var c := inodes[k].addrs[i];
        if c != 0 {
          panicked := Bfree(c);
          if panicked { return; }
          inodes := inodes[k := inodes[k].(addrs := inodes[k].addrs[i := 0])];
        }
        i := i + 1;
      }
      return false;
    }

    /** itrunc's treatment of the indirect block; st is the state before the call of itrunc. */
    method FreeIndirect(k: nat, ghost st: State) returns (panicked: bool)
      requires Open() && Inv(sb, st, owner) && k < sb.ninodes && FreedUpTo(sb, st, owner, view, k, NDIRECT)
      requires k in inodes && |inodes[k].addrs| == NDIRECT + 1
      requires inodes[k].addrs[NDIRECT] == st.inodes[k].addrs[NDIRECT] != 0
      modifies this`view, this`lh, this`tx
      ensures Open() && SameTx(old(tx), tx) && Within(old(lh), lh)
      ensures !panicked
      ensures FreedUpTo(sb, st, owner, view, k, MAXFILE + 1)
    {
      hide Inv, Used, Ref, MarkFree, FreedUpTo, Recorded, Tracked;
      InvShape(sb, st, owner);
      var ind := inodes[k].addrs[NDIRECT];
      IndirectStays(sb, st, owner, view, k, NDIRECT);
      var a := At(view, ind);
      var j := 0;
      while j < NINDIRECT
        invariant 0 <= j <= NINDIRECT
        invariant FreedUpTo(sb, st, owner, view, k, NDIRECT + j)
        invariant Open() && SameTx(old(tx), tx) && Within(old(lh), lh)
      {
        FreedStep(sb, st, owner, view, k, NDIRECT + j);
        EntryRef(sb, st, k, j);
        var c := GetWord(a, j);
        if c != 0 {
          panicked := Bfree(c);
          if panicked { return; }
        }
        j := j + 1;
      }
      FreedStep(sb, st, owner, view, k, MAXFILE);
      AddrRef(sb, st, k, NDIRECT);
      panicked := Bfree(ind);
    }

    /** `itrunc`: the file becomes empty, exactly the blocks it owned are freed, "freeing
        free block" never happens, and no other file changes. */
    method Itrunc(k: nat) returns (panicked: bool)
      requires Valid() && Open() && AllStored(sb, St()) && k < sb.ninodes
      modifies this
      ensures !panicked && Open() && SameTx(old(tx), tx)
      ensures Within(old(lh), lh) && Covered(old(view), view, lh, {})
      ensures Valid() && AllStored(sb, St()) && owner == Disowned(old(owner), k)
      ensures inodes == old(inodes)[k := old(inodes[k]).(size := 0, addrs := NoAddrs())]
      ensures forall c: nat :: c < sb.size ==>
                (Used(sb, view, c) <==> old(Used(sb, view, c)) && !(c in old(owner) && old(owner)[c].inum == k))
      ensures forall i: nat :: i < sb.ninodes && i != k ==> Untouched(sb, old(St()), St(), i)
    {
      hide Inv, Used, Ref, FreedUpTo, AllStored, Untouched, Recorded, Disowned, Tracked, Covered;
      ghost var st := St();
      InvShape(sb, st, owner);
      panicked := FreeDirect(k);
      if panicked { return; }
      if inodes[k].addrs[NDIRECT] != 0 {
        panicked := FreeIndirect(k, st);
        if panicked { return; }
        inodes := inodes[k := inodes[k].(addrs := inodes[k].addrs[NDIRECT := 0])];
      } else {
        FreedNoEntries(sb, st, owner, view, k, NDIRECT);
      }
      assert inodes[k].addrs == NoAddrs();
      inodes := inodes[k := inodes[k].(size := 0)];
      ghost var v := view;
      Iupdate(k);
      assert St() == Truncated(sb, st, v, k);
      TruncateFacts(sb, st, owner, v, k);
      owner := Disowned(owner, k);
      ExceptNone(tx.base);
      TrackedCovers(tx.base, st.view, old(lh), tx.base, view, lh, {});
    }

    /** One turn of readi's loop: the bytes at o up to the end of its block, at most n. c is
        the content of the file. */
    method ReadPiece(k: nat, o: nat, n: nat, ghost c: seq<Byte>) returns (piece: seq<Byte>)
      requires Valid() && k < sb.ninodes && 0 < n && o + n <= inodes[k].size && c == Content(sb, St(), k)
      modifies this`view, this`inodes, this`lh, this`owner, this`tx
      ensures St() == old(St()) && lh == old(lh) && owner == old(owner) && tx == old(tx)
      ensures 0 < |piece| <= n && piece == c[o..o + |piece|]
      ensures |piece| == n || (o + |piece|) % BSIZE == 0
    {
      hide Forward, Backward, MetaUsed, Ref, Used, Content;
      MappedBelowSize(sb, St(), k, o);
      var addr := Bmap(k, o / BSIZE);
      var bp := At(view, addr);
      var p := o % BSIZE;
      var w := if n < BSIZE - p then n else BSIZE - p;
      ReadChunk(sb, St(), k, o, w);
      piece := bp[p..p + w];
    }

    /** readi's loop: m bytes at off, all inside the file, whose content is c. */
    method ReadLoop(k: nat, off: nat, m: nat, room: nat, ghost c: seq<Byte>) returns (r: int, out: seq<Byte>)
      requires Valid() && k < sb.ninodes && k in inodes && off + m <= inodes[k].size && c == Content(sb, St(), k)
      modifies this`view, this`inodes, this`lh, this`owner, this`tx
      ensures St() == old(St()) && lh == old(lh) && owner == old(owner) && tx == old(tx)
      ensures if m <= room then r == m && out == c[off..off + m] else r == -1
    {
      hide Inv, Content, Shape;
      out := [];
      var tot := 0;
      while tot < m
        invariant 0 <= tot <= m
        invariant St() == old(St()) && lh == old(lh) && owner == old(owner) && tx == old(tx)
        invariant out == c[off..off + tot] && (tot > 0 ==> tot <= room)
        decreases m - tot
      {
        var piece := ReadPiece(k, off + tot, m - tot, c);
        if tot + |piece| > room { return -1, out; }
        SliceJoin(c, off, off + tot, off + tot + |piece|);
        out := out + piece;
        tot := tot + |piece|;
      }
      r := tot;
    }

    /** `readi` into a buffer that takes `room` bytes: exactly the file's bytes at off,
        clipped at its end; -1 if the copy fails. It never allocates and never logs. */
    method Readi(k: nat, off: nat, n: nat, room: nat) returns (r: int, out: seq<Byte>)
      requires Valid() && k < sb.ninodes && off < WORD_LIMIT && n < WORD_LIMIT
      modifies this`view, this`inodes, this`lh, this`owner, this`tx
      ensures Valid() && St() == old(St()) && lh == old(lh) && owner == old(owner) && tx == old(tx)
      ensures off <= inodes[k].size && off + n < WORD_LIMIT ==>
                var m := Clip(inodes[k].size, off, n);
                if m <= room then r == m && out == Content(sb, St(), k)[off..off + m] else r == -1
      ensures off > inodes[k].size || off + n >= WORD_LIMIT ==> r == 0 && out == []
    {
      hide Inv, Content, Shape, Overflows;
      SizeBound(sb, St(), owner, k);
      OverflowTest(off, n);
      if off > inodes[k].size || Overflows(off, n) { return 0, []; }
      var m := if off + n > inodes[k].size then inodes[k].size - off else n;
      r, out := ReadLoop(k, off, m, room, Content(sb, St(), k));
    }

    /** One turn of writei's loop: map the block of off + |d| and copy c into it, of which
        either_copyin gets the first `got` bytes. st is the state when writei was called, d
        what it has written so far. A failed copy leaves n stray bytes in the buffer. */
    method WritePiece(k: nat, c: seq<Byte>, got: nat, ghost st: State, ghost off: nat, ghost d: seq<Byte>, at: nat)
      returns (ok: bool, ghost n: nat)
      requires Valid() && Open() && Shape(sb, st) && Written(sb, st, St(), k, off, d) && at == off + |d|
      requires k < sb.ninodes && got <= |c| && 0 < |c| <= BSIZE - at % BSIZE && at + |c| <= MAXFILE * BSIZE
      modifies this`view, this`inodes, this`lh, this`owner, this`tx
      ensures Valid() && n <= |c| && Written(sb, st, St(), k, off, d + c[..n])
      ensures var enough := |Empty(sb, old(St()), PathSlots(k, at / BSIZE))| <= |FreeSet(sb, old(view))|;
              && (ok <==> enough && got == |c|) && n == (if enough then got else 0)
              && (!enough ==> DiskFull(sb, view))
      ensures ok ==> Filled(sb, old(St()), St(), PathSlots(k, at / BSIZE))
      // log blocks: the data block, a bitmap block if it is new, the indirect block's pair
      ensures var bn, mapped := at / BSIZE, old(BlockOf(sb, St(), k, at / BSIZE)) != 0;
              && |lh| <= |old(lh)|
                 + (if mapped then 1 else 2 + IndirectCost(old(inodes[k].addrs[NDIRECT]), old(lh), bn))
              && (mapped ==> inodes == old(inodes))
              && (ok && !mapped && bn >= NDIRECT ==> inodes[k].addrs[NDIRECT] != 0 && inodes[k].addrs[NDIRECT] in lh)
      ensures IndirectKept(old(inodes), inodes, k)
      ensures PieceTrail(sb, old(St()), St(), old(owner), old(lh), lh, k, at / BSIZE, ok, n)
      ensures Open() && tx.done == old(tx).done && tx.home == old(tx).home
      ensures Except(old(tx).base, tx.base, if ok || n == 0 then {} else {BlockOf(sb, St(), k, at / BSIZE)})
    {
      hide Inv, Ref, Used, Patch, WithData, Written, Grows, Filled, FreeSet, Empty, PathSlots, Recorded;
      hide Tracked, Except, PieceTrail, BlockOf;
      InvShape(sb, St(), owner);
      ghost var t := St();
      var bn, p := at / BSIZE, at % BSIZE;
      var addr := Bmap(k, bn);
      WrittenGrow(sb, st, t, St(), k, off, d);
      GrowsIndirect(sb, t, St(), k);
      assert d + c[..0] == d;
      ExceptNone(tx.base);
      InvShape(sb, St(), owner);
      PieceTrails(sb, t, St(), St(), old(owner), old(lh), lh, lh, k, bn, false, 0);
      if addr == 0 { return false, 0; }
      ghost var u := St();
      PieceWritten(sb, st, t, u, owner, k, off, d, c[..got], PathSlots(k, bn));
      if got < |c| {
        var blk := Patch(At(view, addr), p, c[..got]);
        if got > 0 {
          TrackedStray(tx.base, view, lh, addr, blk);
          tx := tx.(base := tx.base[addr := blk]);
        } else {
          PatchNothing(At(view, addr), p, c[..got]);
          TrackedSame(tx.base, view, lh, addr);
        }
        view := view[addr := blk];
        PieceTrails(sb, t, u, St(), old(owner), old(lh), lh, lh, k, bn, false, got);
        return false, got;
      }
      ghost var lh1 := lh;
      assert c[..got] == c;
      Put(addr, Patch(At(view, addr), p, c));
      PieceTrails(sb, t, u, St(), old(owner), old(lh), lh1, lh, k, bn, true, got);
      return true, got;
    }

    /** writei's loop after tot bytes: what is written, which blocks it took, and what the log
        blocks are for. */
    ghost predicate Progress(st: State, lh0: seq<nat>, k: nat, off: nat, data: seq<Byte>, tot: nat, bill: Bill)
      reads this
    {
      && Valid() && Open() && Shape(sb, st) && k < sb.ninodes && tot <= |data|
      && Written(sb, st, St(), k, off, data[..tot])
      && Filled(sb, st, St(), Slots(k, off, tot))
      && (tot == 0 ==> St() == st)
      && (tot == 0 || tot == |data| || (off + tot) % BSIZE == 0)
      && Trail(sb, st, St(), k, off / BSIZE, lh0, off / BSIZE + Touched(off, tot), lh)
      && bill.t == Touched(off, tot) && bill.Pays(|lh0|, lh, inodes[k].addrs[NDIRECT], off)
    }

    /** One turn of the loop in its context; lh0 is the list when writei was called. */
    method WriteTurn(k: nat, off: nat, data: seq<Byte>, avail: nat, tot: nat,
                     ghost st: State, ghost lh0: seq<nat>, ghost bill: Bill)
      returns (w: nat, ok: bool, ghost n: nat, ghost bill': Bill)
      requires Progress(st, lh0, k, off, data, tot, bill) && NoHoles(sb, st)
      requires off <= st.inodes[k].size && off + |data| <= MAXFILE * BSIZE && tot < |data| && tot <= avail
      modifies this`view, this`inodes, this`lh, this`owner, this`tx
      ensures tx.done == old(tx).done && tx.home == old(tx).home && w == Piece(off, |data|, tot)
      ensures ok <==> tot + w <= avail && Affords(sb, st, k, off, tot + w)
      ensures ok ==> Progress(st, lh0, k, off, data, tot + w, bill') && Except(old(tx).base, tx.base, {})
      ensures !ok ==>
                && Valid() && Open() && |lh| < |lh0| + WriteCost(off, |data|) && Within(lh0, lh)
                && tot + n <= |data| && Written(sb, st, St(), k, off, data[..tot + n])
                && tot + n == (if Affords(sb, st, k, off, tot + w) then avail else tot)
                && (avail < |data| || DiskFull(sb, view))
                && Leaves(sb, st, St(), k, off, lh0, tot, lh, n, old(tx).base, tx.base)
    {
      hide Inv, NoHoles, Ref, Used, Written, Within, Touched, WriteCost, DiskFull, Bill.Covers, Recorded, Tracked;
      hide Filled, FreeSet, Empty, PathSlots, Slots, Affords, BlockOf, IndirectCost, Piece;
      hide Trail, PieceTrail, Except, Leaves;
      InvShape(sb, St(), owner);
      w := Piece(off, |data|, tot);
      PieceEnds(off, |data|, tot);
      var got := if avail - tot < w then avail - tot else w;
      ghost var mapped := BlockOf(sb, St(), k, (off + tot) / BSIZE) != 0;
      if tot == 0 { FirstMapped(sb, st, k, off); }
      ghost var t, lh1, ind0 := St(), lh, inodes[k].addrs[NDIRECT];
      AffordsTurn(sb, st, t, k, off, tot, w);
      ok, n := WritePiece(k, data[tot..tot + w], got, st, off, data[..tot], off + tot);
      InvShape(sb, St(), owner);
      TrailTurn(sb, st, t, St(), old(owner), owner, k, off, tot, w, lh0, lh1, lh, ok, n, old(tx).base, tx.base);
      bill' := bill.Next(lh1, ind0, (off + tot) / BSIZE, mapped);
      TurnBill(bill, |lh0|, off, tot, w, |data|, lh1, ind0, mapped, lh, inodes[k].addrs[NDIRECT], ok);
      if ok { FilledMore(sb, st, t, St(), Slots(k, off, tot), PathSlots(k, (off + tot) / BSIZE)); }
      assert data[..tot] + data[tot..tot + w][..n] == data[..tot + n];
    }

    /** writei's loop, where it ends, and the log blocks it takes; `reach` counts stray bytes
        too. Every block that changed is listed, but for the one with stray bytes. */
    method WriteLoop(k: nat, off: nat, data: seq<Byte>, avail: nat) returns (tot: nat, ghost reach: nat)
      requires Valid() && Open() && k < sb.ninodes && off <= inodes[k].size && off + |data| <= MAXFILE * BSIZE
      modifies this`view, this`inodes, this`lh, this`owner, this`tx
      ensures Valid() && tot <= reach <= |data| && Written(sb, old(St()), St(), k, off, data[..reach])
      ensures WriteEnds(sb, old(St()), k, off, 0, |data|, avail, tot, reach)
      ensures tot == |data| ==> Filled(sb, old(St()), St(), Slots(k, off, |data|))
      ensures tot < |data| ==> avail < |data| || DiskFull(sb, view)
      ensures |lh| < |old(lh)| + WriteCost(off, |data|) && Within(old(lh), lh)
      ensures Open() && tx.done == old(tx).done && tx.home == old(tx).home
      ensures Leaves(sb, old(St()), St(), k, off, old(lh), tot, lh, reach - tot, old(tx).base, tx.base)
    {
      hide Forward, Backward, MetaUsed, Ref, Used, Written, Touched, DiskFull, Filled, Slots, Affords, Recorded;
      hide Tracked, Trail, Except, Leaves;
      TouchedNone(off);
      ghost var st, bill := St(), Bill(0, 0, 0);
      WrittenNothing(sb, st, k, off);
      NoSlots(sb, st, k, off);
      TrailStarts(sb, st, k, off / BSIZE, lh);
      ExceptNone(tx.base);
      assert data[..0] == [];
      tot := 0;
      while tot < |data|
        invariant tot <= |data| && tot <= avail
        invariant Progress(st, old(lh), k, off, data, tot, bill)
        invariant tx.done == old(tx).done && tx.home == old(tx).home && Except(old(tx).base, tx.base, {})
        decreases |data| - tot
      {
        FilledAffords(sb, st, St(), k, off, tot);
        ghost var base := tx.base;
        var w, ok;
        ghost var n, next;
        w, ok, n, next := WriteTurn(k, off, data, avail, tot, st, old(lh), bill);
        if !ok {
          LeavesFrom(sb, st, St(), k, off, old(lh), tot, lh, n, old(tx).base, base, tx.base);
          return tot, tot + n;
        }
        ExceptMore(old(tx).base, base, tx.base, {});
        tot, bill := tot + w, next;
      }
      FilledAffords(sb, st, St(), k, off, tot);
      reach := tot;
      NothingLeft(sb, st, St(), k, off, old(lh), tot, lh, old(tx).base, tx.base);
    }

    /** `writei` of data at off, of which the first `avail` bytes can be copied in. The file is
        its old bytes with a prefix of data spliced in at off, up to where WriteEnds says; no
        other file changes. It returns r, but the bytes up to `reach` replace old ones that are
        in the file, and they are more exactly if a copy fails inside a block. Every block that
        changed is listed, but for that one. */
    method Writei(k: nat, off: nat, data: seq<Byte>, avail: nat) returns (r: int, ghost reach: nat)
      requires Valid() && Open() && AllStored(sb, St()) && k < sb.ninodes && off < WORD_LIMIT && |data| < WORD_LIMIT
      modifies this
      ensures Valid() && AllStored(sb, St())
      ensures r == -1 <==> off > old(inodes[k].size) || off + |data| > MAXFILE * BSIZE
      ensures r == -1 ==> St() == old(St()) && lh == old(lh) && tx == old(tx)
      ensures r != -1 ==>
                && 0 <= r <= reach <= |data| && WriteEnds(sb, old(St()), k, off, 0, |data|, avail, r, reach)
                && Spliced(sb, old(St()), St(), k, off, data[..reach], off + r)
                && (r == |data| <==> avail >= |data| && Affords(sb, old(St()), k, off, |data|))
                && (r == |data| ==> Filled(sb, old(St()), St(), Slots(k, off, |data|)))
                && (r < reach <==>
                    0 < avail < |data| && (off + avail) % BSIZE != 0 && Affords(sb, old(St()), k, off, avail))
                && (avail < |data| && Affords(sb, old(St()), k, off, avail) ==> r == LastBoundary(off, avail))
      ensures 0 <= r < |data| ==> avail < |data| || DiskFull(sb, view)
      ensures r != -1 ==>
                && Leaves(sb, old(St()), St(), k, off, old(lh), r, lh, reach - r, old(tx).base, tx.base)
                && Covered(old(view), view, lh, if r < reach then {BlockOf(sb, St(), k, (off + r) / BSIZE)} else {})
      ensures |lh| <= |old(lh)| + WriteCost(off, |data|)
      // every log_write but the last finds less than that in the log
      ensures Open() && tx.done == old(tx).done && tx.home == old(tx).home
      ensures tx.late < |old(lh)| + WriteCost(off, |data|)
    {
      hide Inv, NoHoles, Ref, Used, Written, Spliced, AllStored, WriteCost, Overflows, DiskFull, Tracked, Covered;
      hide Filled, Slots, Affords, WriteEnds, Recorded, LastBoundary, Leaves, BlockOf, Within, WithInode;
      OverflowTest(off, |data|);
      InvShape(sb, St(), owner);
      SizeBound(sb, St(), owner, k);
      CostPositive(off, |data|);
      if off > inodes[k].size || Overflows(off, |data|) { return -1, 0; }
      if off + |data| > MAXFILE * BSIZE { return -1, 0; }
      ghost var st := St();
      var tot;
      tot, reach := WriteLoop(k, off, data, avail);
      EndsExactly(sb, st, k, off, |data|, avail, tot, reach);
      ghost var t, lh1 := St(), lh;
      WrittenInode(sb, st, t, k, off, data[..reach]);
      if off + tot > inodes[k].size {
        inodes := inodes[k := inodes[k].(size := off + tot)];
      }
      Iupdate(k);
      WriteFacts(sb, st, t, St(), owner, k, off, data[..reach], off + tot, Slots(k, off, |data|));
      LeavesAfter(sb, st, t, St(), owner, k, off, old(lh), tot, lh1, lh, reach - tot, old(tx).base, tx.base);
      LeavesCovers(sb, st, St(), k, off, old(lh), tot, lh, reach - tot, old(tx).base, tx.base);
      return tot, reach;
    }

    /** What is committed is what the buffers hold. */
    ghost predicate Settled()
      reads this
    {
      Tracked(tx.home, view, [])
    }

    /** One turn of filewrite: begin_op, writei, end_op. If the disk agreed with the buffers, it
        commits exactly the bytes that are reported, and agrees with them again unless a copy
        failed inside a block. */
    method WriteOp(k: nat, off: nat, chunk: seq<Byte>, avail: nat) returns (r: int, ghost reach: nat)
      requires Valid() && Closed() && AllStored(sb, St()) && k < sb.ninodes && off < WORD_LIMIT && |chunk| <= CHUNK
      modifies this
      ensures Valid() && Closed() && AllStored(sb, St())
      ensures |tx.done| == |old(tx).done| + 1 && InBudget(old(tx).done, tx.done)
      ensures r == -1 <==> off > old(inodes[k].size) || off + |chunk| > MAXFILE * BSIZE
      ensures r == -1 ==> St() == old(St())
      ensures r != -1 ==>
                && 0 <= r <= reach <= |chunk| && WriteEnds(sb, old(St()), k, off, 0, |chunk|, avail, r, reach)
                && Spliced(sb, old(St()), St(), k, off, chunk[..reach], off + r)
                && (r == |chunk| <==> avail >= |chunk| && Affords(sb, old(St()), k, off, |chunk|))
                && (r == |chunk| ==> Filled(sb, old(St()), St(), Slots(k, off, |chunk|)))
      ensures 0 <= r < |chunk| ==> avail < |chunk| || DiskFull(sb, view)
      ensures r == -1 ==> tx.home == old(tx).home
      ensures r != -1 ==>
                && Kept(sb, old(St()), St(), k) && tx.home == Overlay(old(tx).home, lh, view)
                && Covered(old(view), view, lh, if r < reach then {BlockOf(sb, St(), k, (off + r) / BSIZE)} else {})
      ensures r != -1 && old(Settled()) ==>
                && Spliced(sb, OnDisk(sb, old(tx).home), OnDisk(sb, tx.home), k, off, chunk[..r], off + r)
                && (r == reach ==> Settled())
    {
      hide Inv, Ref, Used, AllStored, Spliced, WriteCost, DiskFull, InBudget;
      hide Filled, Slots, Affords, WriteEnds, Recorded, LastBoundary, Tracked, Leaves, Covered, OnDisk;
      ghost var st := St();
      BeginOp();
      InvShape(sb, St(), owner);
      r, reach := Writei(k, off, chunk, avail);
      ChunkFits(off, |chunk|);
      ghost var during := tx;
      if r != -1 && Tracked(tx.home, st.view, []) {
        InvShape(sb, St(), owner);
        OpCommits(sb, st, St(), owner, tx.home, lh, k, off, chunk, avail, r, reach, old(tx).base, tx.base);
      }
      NothingListed(tx.home, view);
      if r != -1 { LeavesKept(sb, st, St(), k, off, r, lh, reach - r, old(tx).base, tx.base); }
      EndOp();
      OneFrugal(during, lh, tx.done);
    }

    /** The inode branch of `filewrite` at file offset off: one operation per chunk, none of
        which calls log_write once it has listed MAXOPBLOCKS blocks; w bytes of data end up
        spliced into the file, up to where FileEnds says, all of them exactly when n is
        returned. */
    method FileWrite(k: nat, off: nat, data: seq<Byte>, avail: nat)
      returns (ret: int, off': nat, ghost w: nat, ghost reach: nat)
      requires Valid() && Closed() && AllStored(sb, St()) && k < sb.ninodes
      requires off < WORD_LIMIT && |data| < 0x8000_0000
      modifies this
      ensures Valid() && Closed() && AllStored(sb, St())
      ensures InBudget(old(tx).done, tx.done)
      ensures w <= reach <= |data| && off' == off + w && (w < reach ==> reach == avail < |data|)
      ensures ret == if w == |data| then |data| else -1
      ensures w == |data| <==> |data| == 0 || CanWrite(sb, old(St()), k, off, |data|, avail)
      ensures FileEnds(sb, old(St()), k, off, |data|, avail, w, reach)
      ensures w < |data| ==>
                || off > old(inodes[k].size) || off + |data| > MAXFILE * BSIZE
                || avail < |data| || DiskFull(sb, view)
      ensures if off <= old(inodes[k].size) then Spliced(sb, old(St()), St(), k, off, data[..reach], off + w)
              else St() == old(St()) && reach == 0
      ensures old(Settled()) && off <= old(inodes[k].size) ==>
                && Spliced(sb, OnDisk(sb, old(tx).home), OnDisk(sb, tx.home), k, off, data[..w], off + w)
                && (w == reach ==> Settled())
      ensures off > old(inodes[k].size) ==> tx.home == old(tx).home
    {
      hide Inv, Ref, Used, AllStored, DiskFull, InBudget, Spliced, Tracked, OnDisk, Kept, Covered, Overlay, BlockOf;
      hide Filled, Slots, Affords, WriteEnds, FileEnds, CanWrite, Recorded;
      InvShape(sb, St(), owner);
      ghost var st, home0 := St(), tx.home;
      HeldOnDisk(sb, st, home0, k, off);
      off', w, reach := off, 0, 0;
      NoOps(tx.done);
      SplicedNothing(sb, st, k, off);
      WriteStarts(sb, st, k, off, avail);
      var i := 0;
      while i < |data|
        invariant 0 <= i <= |data| && w == reach == i && off' == off + i
        invariant Valid() && Closed() && AllStored(sb, St())
        invariant off > st.inodes[k].size ==> tx.home == home0
        invariant Tracked(home0, st.view, []) && off <= st.inodes[k].size ==>
                    Settled() && OnDiskSpliced(sb, home0, tx.home, k, off, data, i, off + i)
        invariant InBudget(old(tx).done, tx.done)
        invariant if off <= st.inodes[k].size then Spliced(sb, st, St(), k, off, data[..i], off + i)
                  else St() == st && i == 0
        invariant Going(sb, st, St(), k, off, |data|, avail, i)
      {
        var n1 := if |data| - i > CHUNK then CHUNK else |data| - i;
        ghost var t, done, home1 := St(), tx.done, tx.home;
        InvShape(sb, t, owner);
        GoingFacts(sb, st, t, k, off, |data|, avail, i);
        var r;
        ghost var m;
        r, m := WriteOp(k, off', data[i..i + n1], avail - i);
        MoreOps(old(tx).done, done, tx.done);
        GoingSize(sb, st, t, k, off, data[..i], i);
        if r == -1 {
          Refused(sb, st, t, k, off, |data|, avail, i, n1);
          break;
        }
        ChunkPrefix(data, i, n1, m);
        SplicedMore(sb, st, t, St(), k, off, data, i, m, r);
        if Tracked(home0, st.view, []) && off <= st.inodes[k].size {
          ChunkPrefix(data, i, n1, r);
          OnDiskMore(sb, home0, home1, tx.home, k, off, data, i, r);
        }
        off', w, reach := off' + r, w + r, reach + m;
        if r != n1 {
          Stopped(sb, st, t, k, off, |data|, avail, i, n1, r, m);
          break;
        }
        GoesOn(sb, st, t, St(), k, off, |data|, avail, i, n1);
        i := i + r;
      }
      if i == |data| { AllGone(sb, st, St(), k, off, |data|, avail); }
      FileEndsExactly(sb, st, k, off, |data|, avail, w, reach);
      ret := if i == |data| then |data| else -1;
    }
  }

  /** On a fresh disk file 0 holds one byte. A writei of two bytes, the second of which cannot
      be copied in, returns 0 and leaves the first in the file. */
  method StrayByte(sb: Super) returns (r: int, before: seq<Byte>, after: seq<Byte>)
    requires sb.Valid() && sb.datastart < sb.size
    ensures r == 0 && before == [7] && after == [1]
  {
    hide Inv, Ref, Used, AllStored, DiskFull, WriteEnds, Filled, Slots, Affords, Recorded, Tracked, Leaves, Covered;
    var fs := new FileSystem(sb);
    InvShape(sb, fs.St(), fs.owner);
    FreshAffords(sb, fs.St(), 1);
    fs.BeginOp();
    ghost var st := fs.St();
    var w;
    ghost var m;
    w, m := fs.Writei(0, 0, [7], 1);
    w, before := fs.Readi(0, 0, 1, 1);
    InvShape(sb, fs.St(), fs.owner);
    AffordsAgain(sb, st, fs.St(), 1);
    ghost var two: seq<Byte> := [1, 2];
    ghost var t := fs.St();
    r, m := fs.Writei(0, 0, [1, 2], 1);
    EndsInside(sb, t, 0, 0, 2, 1, r, m);
    assert two[..1] == [1];
    w, after := fs.Readi(0, 0, 1, 1);
  }

  /** The disk is behind the buffers in one block. A write that lists it brings it up to date,
      stray bytes and all. */
  lemma StrayListed(home: Disk, v: Disk, w: Disk, lh: seq<nat>, x: nat)
    requires Except(home, v, {x}) && Covered(v, w, lh, {}) && x in lh
    ensures Tracked(Overlay(home, lh, w), w, [])
  {
    forall b: nat ensures SameOn(Overlay(home, lh, w), w, b) {
      OverlayAt(home, lh, w, b);
      assert (b != x ==> SameOn(home, v, b)) && (b !in lh ==> SameOn(v, w, b));
    }
  }

  /** After a write with stray bytes in block x the disk is behind in that block at most. */
  lemma StrayBehind(home: Disk, v: Disk, w: Disk, lh: seq<nat>, x: nat)
    requires Tracked(home, v, []) && Covered(v, w, lh, {x})
    ensures Except(Overlay(home, lh, w), w, {x})
  {
    forall b: nat | b !in {x} ensures SameOn(Overlay(home, lh, w), w, b) {
      OverlayAt(home, lh, w, b);
      assert SameOn(home, v, b) && (b !in lh && b != x ==> SameOn(v, w, b));
    }
  }

  /** A fresh disk on which file 0 holds [7, 8]. */
  method SevenEight(sb: Super) returns (fs: FileSystem)
    requires sb.Valid() && sb.datastart < sb.size
    ensures fresh(fs) && fs.sb == sb && fs.Valid() && fs.Closed() && fs.Settled() && AllStored(sb, fs.St())
    ensures Shape(sb, fs.St()) && NoHoles(sb, fs.St()) && Content(sb, fs.St(), 0) == [7, 8]
    ensures fs.inodes[0].size == 2 && Affords(sb, fs.St(), 0, 0, 1)
  {
    hide Inv, Ref, Used, AllStored, DiskFull, WriteEnds, Filled, Slots, Affords, Tracked, Covered, Kept, OnDisk;
    hide Except, Overlay, InBudget, Spliced, Splice, Content, NoHoles, Recorded;
    ghost var d: seq<Byte> := [7, 8];
    assert d[..2] == d;
    fs := new FileSystem(sb);
    InvShape(sb, fs.St(), fs.owner);
    FreshAffords(sb, fs.St(), 2);
    ghost var st := fs.St();
    var w;
    ghost var m;
    w, m := fs.WriteOp(0, 0, [7, 8], 2);
    InvShape(sb, fs.St(), fs.owner);
    Splices(sb, st, fs.St(), [], 0, d, 2, [7, 8]);
    AffordsAgain(sb, st, fs.St(), 2);
    AffordsLess(sb, fs.St(), 0, 0, 1, 2);
  }

  /** Bytes that a failed writei left in a buffer reach the disk with a later write to the same
      block. File 0 holds [7, 8] on disk. A write of two bytes, the second of which cannot be
      copied in, returns 0 and commits nothing; a write of one byte behind it commits the first
      of them too. */
  method StrayCommitted(sb: Super)
    returns (r: int, ghost before: seq<Byte>, ghost between: seq<Byte>, ghost after: seq<Byte>)
    requires sb.Valid() && sb.datastart < sb.size
    ensures r == 0 && before == [7, 8] && between == [7, 8] && after == [1, 9]
  {
    hide Inv, Ref, Used, AllStored, DiskFull, WriteEnds, Filled, Slots, Affords, Tracked, Covered, Kept, OnDisk;
    hide Except, Overlay, InBudget, Spliced, Splice, Content, NoHoles, Recorded;
    ghost var d2: seq<Byte>, d3: seq<Byte> := [1, 2], [9];
    assert d2[..1] == [1] && d2[..0] == [] && d3[..1] == d3;
    var fs := SevenEight(sb);
    var w;
    ghost var m;
    ghost var s1, home1 := fs.St(), fs.tx.home;
    InvShape(sb, s1, fs.owner);
    r, m := fs.WriteOp(0, 0, [1, 2], 1);
    StrayOne(sb, s1, r, m);
    ghost var s2, home2 := fs.St(), fs.tx.home;
    InvShape(sb, s2, fs.owner);
    ghost var x := BlockOf(sb, s2, 0, 0);
    Splices(sb, s1, s2, [7, 8], 0, [1], 0, [1, 8]);
    StrayBehind(home1, s1.view, s2.view, fs.lh, x);
    AffordsMapped(sb, s2);
    w, m := fs.WriteOp(0, 1, [9], 1);
    ghost var s3 := fs.St();
    InvShape(sb, s3, fs.owner);
    Splices(sb, s2, s3, [1, 8], 1, d3, 2, [1, 9]);
    BlockChanged(sb, s2, s3, fs.lh);
    StrayListed(home2, s2.view, s3.view, fs.lh, x);
    CommittedNow(sb, s1, home1);
    NothingCommitted(sb, home1, home2);
    CommittedNow(sb, s3, fs.tx.home);
    before, between, after := FileOnDisk(sb, home1), FileOnDisk(sb, home2), FileOnDisk(sb, fs.tx.home);
  }

  /** What file 0 holds after d was spliced in. */
  lemma Splices(sb: Super, st: State, t: State, c: seq<Byte>, off: nat, d: seq<Byte>, end: nat, c': seq<Byte>)
    requires Spliced(sb, st, t, 0, off, d, end) && Content(sb, st, 0) == c && off <= |c| && end <= off + |d|
    requires |c'| == Larger(|c|, end) <= Larger(|c|, off + |d|)
    requires forall o :: 0 <= o < |c'| ==> c'[o] == if off <= o < off + |d| then d[o - off] else c[o]
    ensures NoHoles(sb, t) && Content(sb, t, 0) == c' && t.inodes[0].size == |c'|
  {
    hide Ref;
    forall o | 0 <= o < |c'| ensures Content(sb, t, 0)[o] == c'[o] { SpliceAt(c, off, d, o); }
  }

  /** File 0 as a disk holds it. */
  ghost function FileOnDisk(sb: Super, d: Disk): seq<Byte> {
    var st := OnDisk(sb, d);
    if Shape(sb, st) && 0 < sb.ninodes && st.inodes[0].size <= MAXFILE * BSIZE then Content(sb, st, 0) else []
  }

  lemma CommittedNow(sb: Super, st: State, home: Disk)
    requires Shape(sb, st) && NoHoles(sb, st) && AllStored(sb, st) && Tracked(home, st.view, []) && 0 < sb.ninodes
    ensures FileOnDisk(sb, home) == Content(sb, st, 0)
  {
    hide Ref, Content, AllStored, Tracked, OnDisk, SameState;
    DiskHolds(sb, st, home);
    SameFiles(sb, st, OnDisk(sb, home));
  }

  lemma NothingCommitted(sb: Super, home: Disk, home': Disk)
    requires Spliced(sb, OnDisk(sb, home), OnDisk(sb, home'), 0, 0, [], 0)
    ensures FileOnDisk(sb, home') == FileOnDisk(sb, home)
  {
    hide Ref, OnDisk;
    SpliceNothing(Content(sb, OnDisk(sb, home), 0), 0);
  }

  lemma StrayOne(sb: Super, st: State, r: nat, m: nat)
    requires Shape(sb, st) && WriteEnds(sb, st, 0, 0, 0, 2, 1, r, m) && Affords(sb, st, 0, 0, 1)
    ensures r == 0 && m == 1
  {
    hide Affords, Shape;
    EndsExactly(sb, st, 0, 0, 2, 1, r, m);
    EndsInside(sb, st, 0, 0, 2, 1, r, m);
  }

  lemma AffordsMapped(sb: Super, st: State)
    requires Shape(sb, st) && NoHoles(sb, st) && sb.ninodes > 0 && st.inodes[0].size > 0
    ensures Affords(sb, st, 0, 1, 1)
  {
    assert BlockOf(sb, st, 0, 0) != 0;
    hide Ref;
    assert Slots(0, 1, 1) == {Addr(0, 0)};
    EmptyOne(sb, st, Addr(0, 0));
  }

  /** The second byte of file 0 changed, so its block is listed. */
  lemma BlockChanged(sb: Super, st: State, t: State, lh: seq<nat>)
    requires Kept(sb, st, t, 0) && NoHoles(sb, st) && NoHoles(sb, t) && Covered(st.view, t.view, lh, {})
    requires |Content(sb, st, 0)| == |Content(sb, t, 0)| == 2 && Content(sb, st, 0)[1] != Content(sb, t, 0)[1]
    ensures BlockOf(sb, st, 0, 0) in lh
  {
    hide Ref;
    assert ByteAt(sb, st, 0, 1) != ByteAt(sb, t, 0, 1);
    assert SameOn(st.view, t.view, BlockOf(sb, st, 0, 0)) || BlockOf(sb, st, 0, 0) in lh;
  }

  lemma FreshAffords(sb: Super, st: State, n: nat)
    requires Shape(sb, st) && sb.ninodes > 0 && sb.datastart < sb.size && !Used(sb, st.view, sb.datastart)
    requires 1 <= n <= 2
    ensures Affords(sb, st, 0, 0, n)
  {
    hide Used, Ref;
    assert Slots(0, 0, n) == {Addr(0, 0)};
    EmptyOne(sb, st, Addr(0, 0));
    assert sb.datastart in FreeSet(sb, st.view);
  }

  /** Bytes of a block that is there can be written again. */
  lemma AffordsAgain(sb: Super, st: State, t: State, n: nat)
    requires Shape(sb, st) && Filled(sb, st, t, Slots(0, 0, n))
    ensures Affords(sb, t, 0, 0, n)
  {
    hide Slots, Empty, FreeSet;
    EmptySum(sb, st, t, Slots(0, 0, n), Slots(0, 0, n));
    assert Slots(0, 0, n) + Slots(0, 0, n) == Slots(0, 0, n);
  }

  // ----- the blocks a write leaves unlogged -----

  /** No block of the file moves. After r bytes of a write at off, n > 0 bytes more are left in
      the next block, which then is the one block that changed unlogged; without them there
      is none. */
  ghost predicate Leaves(sb: Super, st: State, t: State, k: nat, off: nat, lh0: seq<nat>, r: nat, lh: seq<nat>,
                         n: nat, base: Disk, base': Disk)
  {
    && Within(lh0, lh) && Kept(sb, st, t, k)
    && if n == 0 then Except(base, base', {})
       else
         && LeftIn(sb, st, t, k, off / BSIZE, lh0, (off + r) / BSIZE, lh)
         && Except(base, base', {BlockOf(sb, t, k, (off + r) / BSIZE)})
  }

  lemma NothingLeft(sb: Super, st: State, t: State, k: nat, off: nat, lh0: seq<nat>, r: nat, lh: seq<nat>,
                    base: Disk, base': Disk)
    requires Shape(sb, st) && Trail(sb, st, t, k, off / BSIZE, lh0, off / BSIZE + Touched(off, r), lh)
    requires Except(base, base', {})
    ensures Within(lh0, lh) && Leaves(sb, st, t, k, off, lh0, r, lh, 0, base, base')
  {
    hide Ref, Except;
  }

  lemma ExceptMore(a: Disk, b: Disk, c: Disk, ex: set<nat>)
    requires Except(a, b, {}) && Except(b, c, ex)
    ensures Except(a, c, ex)
  {
    forall x: nat | x !in ex ensures SameOn(a, c, x) { assert SameOn(a, b, x) && SameOn(b, c, x); }
  }

  lemma LeavesFrom(sb: Super, st: State, t: State, k: nat, off: nat, lh0: seq<nat>, r: nat, lh: seq<nat>, n: nat,
                   base: Disk, mid: Disk, base': Disk)
    requires Leaves(sb, st, t, k, off, lh0, r, lh, n, mid, base') && Except(base, mid, {})
    ensures Leaves(sb, st, t, k, off, lh0, r, lh, n, base, base')
  {
    hide Except, BlockOf;
    ExceptMore(base, mid, base', if n == 0 then {} else {BlockOf(sb, t, k, (off + r) / BSIZE)});
  }

  lemma TrailTurn(sb: Super, st: State, t: State, u: State, owner: Owners, owner': Owners, k: nat, off: nat, tot: nat,
                  w: nat, lh0: seq<nat>, lh: seq<nat>, lh': seq<nat>, ok: bool, n: nat, base: Disk, base': Disk)
    requires Inv(sb, t, owner) && Inv(sb, u, owner') && Shape(sb, st)
    requires Trail(sb, st, t, k, off / BSIZE, lh0, off / BSIZE + Touched(off, tot), lh)
    requires PieceTrail(sb, t, u, owner, lh, lh', k, (off + tot) / BSIZE, ok, n)
    requires Filled(sb, st, t, Slots(k, off, tot))
    requires 0 < w <= BSIZE - (off + tot) % BSIZE && (tot == 0 || (off + tot) % BSIZE == 0)
    requires Shape(sb, u) && k < sb.ninodes && (off + tot) / BSIZE < MAXFILE
    requires Except(base, base', if ok || n == 0 then {} else {BlockOf(sb, u, k, (off + tot) / BSIZE)})
    ensures Within(lh, lh') && Within(lh0, lh')
    ensures ok ==> Trail(sb, st, u, k, off / BSIZE, lh0, off / BSIZE + Touched(off, tot + w), lh')
    ensures ok ==> Except(base, base', {})
    ensures !ok ==> Leaves(sb, st, u, k, off, lh0, tot, lh', n, base, base')
  {
    hide Inv, BlockOf, Filled, Slots, Touched, LeftIn, Except;
    TouchedNext(off, tot, w);
    TrailNext(sb, st, t, u, owner, owner', k, off / BSIZE, lh0, (off + tot) / BSIZE, lh, lh', ok, n);
    if !ok && n > 0 { LeftBehind(sb, st, t, u, owner, k, off, tot, lh0, lh, lh', n); }
  }

  /** iupdate lists the inode's block and moves no block of the file. */
  lemma LeavesAfter(sb: Super, st: State, t: State, u: State, owner: Owners, k: nat, off: nat, lh0: seq<nat>, r: nat,
                    lh: seq<nat>, lh': seq<nat>, n: nat, base: Disk, base': Disk)
    requires Leaves(sb, st, t, k, off, lh0, r, lh, n, base, base') && Inv(sb, t, owner)
    requires Shape(sb, u) && k < sb.ninodes && lh' == Absorb(lh, sb.Iblock(k))
    requires forall x :: ValidSlot(sb, x) ==> Ref(sb, u, x) == Ref(sb, t, x)
    ensures Leaves(sb, st, u, k, off, lh0, r, lh', n, base, base')
  {
    if n > 0 {
      MappedIsOwned(sb, t, owner, k, (off + r) / BSIZE);
      Regions(sb, 0, k);
      assert ValidSlot(sb, SlotOf(k, (off + r) / BSIZE));
    }
    hide Ref, Except, Forward, Backward, MetaUsed, NoHoles;
  }

  lemma LeavesKept(sb: Super, st: State, t: State, k: nat, off: nat, r: nat, lh: seq<nat>, n: nat,
                   base: Disk, base': Disk)
    requires Leaves(sb, st, t, k, off, [], r, lh, n, base, base')
    ensures Kept(sb, st, t, k)
  {}

  lemma LeavesCovers(sb: Super, st: State, t: State, k: nat, off: nat, lh0: seq<nat>, r: nat, lh: seq<nat>, n: nat,
                     base: Disk, base': Disk)
    requires Leaves(sb, st, t, k, off, lh0, r, lh, n, base, base') && Shape(sb, t) && k < sb.ninodes
    requires Tracked(base, st.view, lh0) && Tracked(base', t.view, lh) && (n > 0 ==> (off + r) / BSIZE < MAXFILE)
    ensures Covered(st.view, t.view, lh, if n > 0 then {BlockOf(sb, t, k, (off + r) / BSIZE)} else {})
  {
    hide Except, Tracked, Covered, LeftIn, BlockOf;
    TrackedCovers(base, st.view, lh0, base', t.view, lh, if n > 0 then {BlockOf(sb, t, k, (off + r) / BSIZE)} else {});
  }

  /** bmap's part of a turn, and the change of the data block. */
  lemma PieceTrails(sb: Super, t: State, u: State, v: State, owner: Owners, lh: seq<nat>, lh1: seq<nat>, lh': seq<nat>,
                    k: nat, bn: nat, ok: bool, n: nat)
    requires Shape(sb, t) && Grows(sb, t, u, k) && bn < MAXFILE && Shape(sb, v) && v.inodes == u.inodes
    requires forall cn: nat :: cn < MAXFILE ==> BlockOf(sb, v, k, cn) == BlockOf(sb, u, k, cn)
    requires Within(lh, lh1) && NewIn(owner, lh, lh1, u.inodes[k].addrs[NDIRECT])
    requires lh' == if ok then Absorb(lh1, BlockOf(sb, u, k, bn)) else lh1
    requires BlockOf(sb, t, k, bn) != 0 ==> lh1 == lh
    requires n > 0 ==> BlockOf(sb, u, k, bn) != 0 && (BlockOf(sb, t, k, bn) == 0 ==> BlockOf(sb, u, k, bn) in lh1)
    ensures PieceTrail(sb, t, v, owner, lh, lh', k, bn, ok, n)
  {
    hide BlockOf;
  }

  /** What balloc and bmap log for a new block is in no file. */
  lemma NewlyOwned(sb: Super, st: State, owner: Owners, lh: seq<nat>, r: nat, ind: nat)
    requires Inv(sb, st, owner) && (r != 0 ==> r < sb.size && !Used(sb, st.view, r))
    ensures NewIn(owner, lh, lh, ind)
    ensures r != 0 ==> NewIn(owner, lh, Absorb(Absorb(lh, sb.Bblock(r)), r), ind)
    ensures r != 0 ==> NewIn(owner, lh, Absorb(Absorb(Absorb(lh, sb.Bblock(r)), r), ind), ind)
  {
    hide Used, Ref;
    if r != 0 { Regions(sb, r, 0); }
  }

  // ----- what end_op commits -----

  lemma NothingListed(home: Disk, view: Disk)
    ensures Overlay(home, [], view) == home
  {}

  /** end_op after one writei that began with an empty list. */
  lemma OpCommits(sb: Super, st: State, t: State, owner: Owners, home: Disk, lh: seq<nat>, k: nat, off: nat,
                  data: seq<Byte>, avail: nat, r: nat, reach: nat, base: Disk, base': Disk)
    requires Inv(sb, t, owner) && AllStored(sb, st) && AllStored(sb, t) && Tracked(home, st.view, []) && Shape(sb, st)
    requires r <= reach <= |data| && off + |data| <= MAXFILE * BSIZE
    requires Spliced(sb, st, t, k, off, data[..reach], off + r)
    requires WriteEnds(sb, st, k, off, 0, |data|, avail, r, reach) && k < sb.ninodes && Shape(sb, t)
    requires Leaves(sb, st, t, k, off, [], r, lh, reach - r, base, base')
    requires Covered(st.view, t.view, lh, if r < reach then {BlockOf(sb, t, k, (off + r) / BSIZE)} else {})
    ensures var disk := Overlay(home, lh, t.view);
            && Spliced(sb, OnDisk(sb, home), OnDisk(sb, disk), k, off, data[..r], off + r)
            && (r == reach ==> Tracked(disk, t.view, []))
  {
    hide Inv, BlockOf, Spliced, AllStored, Covered, Tracked, Overlay, OnDisk, Affords, Except;
    var d := data[..reach];
    if r < reach {
      EndsInBlock(sb, st, k, off, |data|, avail, r, reach);
      NoneListed(sb, st, k, off / BSIZE);
    }
    Commits(sb, st, t, owner, home, lh, k, off, d, r);
    assert d[..r] == data[..r];
  }

  lemma NoneListed(sb: Super, st: State, k: nat, first: nat)
    requires Shape(sb, st) && k < sb.ninodes
    ensures Unlisted(sb, st, [], k, first)
  {}

  /** The first n bytes of data are in file k on disk, at off. */
  ghost predicate OnDiskSpliced(sb: Super, home: Disk, home': Disk, k: nat, off: nat,
                                data: seq<Byte>, n: nat, end: nat)
  {
    n <= |data| && Spliced(sb, OnDisk(sb, home), OnDisk(sb, home'), k, off, data[..n], end)
  }

  lemma HeldOnDisk(sb: Super, st: State, home: Disk, k: nat, off: nat)
    requires Shape(sb, st) && NoHoles(sb, st) && k < sb.ninodes && AllStored(sb, st)
    ensures Tracked(home, st.view, []) && off <= st.inodes[k].size ==>
              forall data: seq<Byte> :: OnDiskSpliced(sb, home, home, k, off, data, 0, off)
  {
    hide Ref, Content, AllStored, Spliced, OnDisk, SameState, Tracked, NoHoles;
    if Tracked(home, st.view, []) && off <= st.inodes[k].size {
      DiskHolds(sb, st, home);
      SplicedNothing(sb, st, k, off);
      SplicedSame(sb, st, OnDisk(sb, home), st, OnDisk(sb, home), k, off, [], off);
      forall data: seq<Byte> ensures OnDiskSpliced(sb, home, home, k, off, data, 0, off) { assert data[..0] == []; }
    }
  }

  lemma OnDiskMore(sb: Super, home0: Disk, home1: Disk, home2: Disk, k: nat, off: nat, data: seq<Byte>, i: nat, r: nat)
    requires OnDiskSpliced(sb, home0, home1, k, off, data, i, off + i) && i + r <= |data|
    requires Spliced(sb, OnDisk(sb, home1), OnDisk(sb, home2), k, off + i, data[i..i + r], off + i + r)
    ensures OnDiskSpliced(sb, home0, home2, k, off, data, i + r, off + i + r)
  {
    hide Ref, Content, OnDisk;
    assert OnDisk(sb, home0).inodes[k].size >= off;
    SplicedMore(sb, OnDisk(sb, home0), OnDisk(sb, home1), OnDisk(sb, home2), k, off, data, i, r, r);
  }

  // ----- filewrite's progress -----

  /** filewrite after i bytes, all of them written. */
  ghost predicate Going(sb: Super, st: State, t: State, k: nat, off: nat, len: nat, avail: nat, i: nat) {
    && Shape(sb, st) && k < sb.ninodes && Filled(sb, st, t, Slots(k, off, i)) && i <= avail
    && (i % CHUNK == 0 || i == len) && (i > 0 ==> CanWrite(sb, st, k, off, i, avail))
  }

  lemma WriteStarts(sb: Super, st: State, k: nat, off: nat, avail: nat)
    requires Shape(sb, st) && k < sb.ninodes
    ensures forall len: nat :: Going(sb, st, st, k, off, len, avail, 0)
  {
    hide Filled, Slots, CanWrite;
    NoSlots(sb, st, k, off);
  }

  lemma GoingFacts(sb: Super, st: State, t: State, k: nat, off: nat, len: nat, avail: nat, i: nat)
    requires Going(sb, st, t, k, off, len, avail, i)
    ensures Shape(sb, st) && i <= avail && Filled(sb, st, t, Slots(k, off, i))
    ensures off + i <= Larger(off, MAXFILE * BSIZE)
  {
    hide Filled, Slots, Affords;
  }

  /** How long the file is after i bytes. */
  lemma GoingSize(sb: Super, st: State, t: State, k: nat, off: nat, d: seq<Byte>, i: nat)
    requires Shape(sb, st) && Shape(sb, t) && k < sb.ninodes && |d| == i
    requires if off <= st.inodes[k].size then Spliced(sb, st, t, k, off, d, off + i) else t == st && i == 0
    ensures off + i > t.inodes[k].size <==> off > st.inodes[k].size
  {
    hide Ref;
    if off <= st.inodes[k].size {
      SpliceLength(Content(sb, st, k), off, d);
      assert |Content(sb, t, k)| == Larger(st.inodes[k].size, off + i);
    }
  }

  lemma Refused(sb: Super, st: State, t: State, k: nat, off: nat, len: nat, avail: nat, i: nat, n1: nat)
    requires Going(sb, st, t, k, off, len, avail, i) && i < len && n1 == if len - i > CHUNK then CHUNK else len - i
    requires off > st.inodes[k].size || off + i + n1 > MAXFILE * BSIZE
    ensures FileEnds(sb, st, k, off, len, avail, i, i)
  {
    hide Filled, Slots, CanWrite, WriteEnds;
    ChunkStart(i, 0);
  }

  lemma Stopped(sb: Super, st: State, t: State, k: nat, off: nat, len: nat, avail: nat, i: nat, n1: nat, r: nat, m: nat)
    requires Going(sb, st, t, k, off, len, avail, i) && i < len && n1 == if len - i > CHUNK then CHUNK else len - i
    requires off <= st.inodes[k].size && off + i + n1 <= MAXFILE * BSIZE && r < n1
    requires Shape(sb, t) && WriteEnds(sb, t, k, off + i, 0, n1, avail - i, r, m)
    ensures FileEnds(sb, st, k, off, len, avail, i + r, i + m)
  {
    hide Filled, Slots, CanWrite, WriteEnds;
    ChunkStart(i, r);
    EndsShift(sb, st, t, k, off, i, n1, avail, r, m);
  }

  lemma GoesOn(sb: Super, st: State, t: State, u: State, k: nat, off: nat, len: nat, avail: nat, i: nat, n1: nat)
    requires Going(sb, st, t, k, off, len, avail, i) && i < len && n1 == if len - i > CHUNK then CHUNK else len - i
    requires off <= st.inodes[k].size && off + i + n1 <= MAXFILE * BSIZE && n1 <= avail - i
    requires Shape(sb, t) && Affords(sb, t, k, off + i, n1) && Filled(sb, t, u, Slots(k, off + i, n1))
    ensures Going(sb, st, u, k, off, len, avail, i + n1)
  {
    hide Filled, Slots, Affords;
    SlotsJoin(k, off, i, n1);
    FilledMore(sb, st, t, u, Slots(k, off, i), Slots(k, off + i, n1));
    AffordsShift(sb, st, t, k, off, i, n1);
  }

  lemma AllGone(sb: Super, st: State, t: State, k: nat, off: nat, len: nat, avail: nat)
    requires Going(sb, st, t, k, off, len, avail, len)
    ensures FileEnds(sb, st, k, off, len, avail, len, len)
  {
    hide Filled, Slots, CanWrite, WriteEnds;
  }

  // ----- what bmap costs in blocks -----

  lemma FullIff(sb: Super, view: Disk, r: nat)
    requires if r == 0 then DiskFull(sb, view) else r < sb.size && !Used(sb, view, r)
    ensures FreeSet(sb, view) == {} <==> r == 0
  {
    hide Used;
    assert r != 0 ==> r in FreeSet(sb, view);
  }

  lemma EmptyOne(sb: Super, st: State, s: Slot)
    requires Shape(sb, st) && ValidSlot(sb, s)
    ensures |Empty(sb, st, {s})| == if Ref(sb, st, s) == 0 then 1 else 0
  {
    hide Ref;
    assert Empty(sb, st, {s}) == if Ref(sb, st, s) == 0 then {s} else {};
  }

  lemma DirectCost(sb: Super, st: State, k: nat, bn: nat)
    requires Shape(sb, st) && k < sb.ninodes && bn < NDIRECT
    ensures PathSlots(k, bn) == {Addr(k, bn)}
    ensures |Empty(sb, st, PathSlots(k, bn))| == if st.inodes[k].addrs[bn] == 0 then 1 else 0
  {
    EmptyOne(sb, st, Addr(k, bn));
  }

  /** Whether the indirect block could be had decides about the entry. */
  lemma IndirectNeeds(sb: Super, st: State, mid: State, k: nat, bn: nat, ind: nat)
    requires Shape(sb, st) && Shape(sb, mid) && k < sb.ninodes && NDIRECT <= bn < MAXFILE
    requires ind == 0 <==> st.inodes[k].addrs[NDIRECT] == 0 && FreeSet(sb, st.view) == {}
    requires ind != 0 ==> Filled(sb, st, mid, {Addr(k, NDIRECT)})
    ensures ind == 0 ==> |FreeSet(sb, st.view)| < |Empty(sb, st, PathSlots(k, bn))|
    ensures ind != 0 ==>
              (|FreeSet(sb, st.view)| < |Empty(sb, st, PathSlots(k, bn))|
               <==> Ref(sb, mid, Ind(k, bn - NDIRECT)) == 0 && FreeSet(sb, mid.view) == {})
  {
    hide FreeSet, Empty;
    EmptyOne(sb, st, Addr(k, NDIRECT));
    EmptyOne(sb, mid, Ind(k, bn - NDIRECT));
    hide Ref;
    AddrRef(sb, st, k, NDIRECT);
    if ind == 0 {
      EmptyMonotone(sb, st, {Addr(k, NDIRECT)}, PathSlots(k, bn));
    } else {
      EmptySum(sb, st, mid, {Addr(k, NDIRECT)}, {Ind(k, bn - NDIRECT)});
    }
  }

  lemma IndirectFills(sb: Super, st: State, mid: State, t: State, k: nat, bn: nat)
    requires Shape(sb, st) && Shape(sb, mid) && NDIRECT <= bn
    requires Filled(sb, st, mid, {Addr(k, NDIRECT)}) && Filled(sb, mid, t, {Ind(k, bn - NDIRECT)})
    ensures Filled(sb, st, t, PathSlots(k, bn))
  {
    hide Filled;
    FilledMore(sb, st, mid, t, {Addr(k, NDIRECT)}, {Ind(k, bn - NDIRECT)});
  }

  lemma AffordsTurn(sb: Super, st: State, t: State, k: nat, off: nat, tot: nat, w: nat)
    requires Shape(sb, st) && Filled(sb, st, t, Slots(k, off, tot))
    requires 0 < w <= BSIZE - (off + tot) % BSIZE && (tot == 0 || (off + tot) % BSIZE == 0)
    ensures var ss := PathSlots(k, (off + tot) / BSIZE);
            && Slots(k, off, tot + w) == Slots(k, off, tot) + ss && Shape(sb, t)
            && (Affords(sb, st, k, off, tot + w) <==> |Empty(sb, t, ss)| <= |FreeSet(sb, t.view)|)
  {
    hide Slots, Affords, PathSlots, Empty, FreeSet;
    AffordsNext(sb, st, t, k, off, tot, w);
  }

  // ----- operations -----

  /** The same operations have ended, and nothing was committed or left in a buffer since. */
  predicate SameTx(a: Tx, b: Tx) {
    b.done == a.done && b.base == a.base && b.home == a.home
  }

  /** The list is what the calls so far make it, and none of them found more than `late`. */
  ghost predicate Recorded(calls: seq<nat>, late: nat, lh: seq<nat>) {
    && lh == ListOf(calls, |calls|)
    && forall i :: 0 <= i < |calls| ==> |ListOf(calls, i)| <= late
  }

  lemma RecordedNext(calls: seq<nat>, late: nat, lh: seq<nat>, b: nat)
    requires Recorded(calls, late, lh)
    ensures Recorded(calls + [b], Larger(late, |lh|), Absorb(lh, b))
  {
    hide Absorb;
    forall i | 0 <= i <= |calls| ensures ListOf(calls + [b], i) == ListOf(calls, i) {
      ListOfSame(calls, b, i);
    }
  }

  /** The operations that ended since `before` kept to the budget of begin_op. */
  ghost predicate InBudget(before: seq<seq<nat>>, after: seq<seq<nat>>) {
    && |before| <= |after| && after[..|before|] == before
    && forall i :: |before| <= i < |after| ==> Frugal(after[i])
  }

  lemma OneFrugal(tx: Tx, lh: seq<nat>, after: seq<seq<nat>>)
    requires Recorded(tx.calls, tx.late, lh) && tx.late < MAXOPBLOCKS && after == tx.done + [tx.calls]
    ensures InBudget(tx.done, after)
  {
    assert Frugal(tx.calls);
  }

  lemma MoreOps(before: seq<seq<nat>>, mid: seq<seq<nat>>, after: seq<seq<nat>>)
    requires InBudget(before, mid) && InBudget(mid, after)
    ensures InBudget(before, after)
  {}

  lemma ChunkPrefix(data: seq<Byte>, i: nat, n: nat, m: nat)
    requires i + n <= |data| && m <= n
    ensures data[i..i + n][..m] == data[i..i + m]
  {}

  lemma NoOps(done: seq<seq<nat>>)
    ensures InBudget(done, done)
  {}

  lemma CostPositive(off: nat, n: nat)
    ensures WriteCost(off, n) > 0
  {}

  /** Copying a piece into the mapped block of file k at off + |d|. */
  lemma PieceWritten(sb: Super, st: State, v: State, u: State, owner: Owners, k: nat, off: nat,
                     d: seq<Byte>, c: seq<Byte>, ss: set<Slot>)
    requires Shape(sb, st) && Inv(sb, u, owner) && Written(sb, st, u, k, off, d)
    requires k < sb.ninodes && (off + |d|) % BSIZE + |c| <= BSIZE
    requires off + |d| + |c| <= MAXFILE * BSIZE && off + |d| < MAXFILE * BSIZE
    requires BlockOf(sb, u, k, (off + |d|) / BSIZE) != 0 && Shape(sb, v) && Filled(sb, v, u, ss)
    ensures var addr := BlockOf(sb, u, k, (off + |d|) / BSIZE);
            var t := State(u.view[addr := Patch(At(u.view, addr), (off + |d|) % BSIZE, c)], u.inodes);
            && Inv(sb, t, owner) && Written(sb, st, t, k, off, d + c) && Filled(sb, v, t, ss)
            && Shape(sb, t) && forall cn: nat :: cn < MAXFILE ==> BlockOf(sb, t, k, cn) == BlockOf(sb, u, k, cn)
  {
    hide Inv, Ref, Used, Patch, Written, WithData, Filled;
    InvShape(sb, u, owner);
    var bn, p := (off + |d|) / BSIZE, (off + |d|) % BSIZE;
    var addr := BlockOf(sb, u, k, bn);
    var blk := Patch(At(u.view, addr), p, c);
    WithDataIs(sb, u, k, bn, blk);
    WithDataInv(sb, u, owner, k, bn, blk);
    FilledSame(sb, v, u, State(u.view[addr := blk], u.inodes), ss);
    if |c| == 0 {
      PatchNothing(At(u.view, addr), p, c);
      assert d + c == d;
      assert Written(sb, st, State(u.view[addr := blk], u.inodes), k, off, d) by {
        WrittenSame(sb, st, u, State(u.view[addr := blk], u.inodes), k, off, d);
      }
    } else {
      WrittenChunk(sb, st, u, owner, k, off, d, c);
    }
  }

  lemma PatchNothing(blk: Block, p: nat, c: seq<Byte>)
    requires p <= BSIZE && c == []
    ensures Patch(blk, p, c) == blk
  {}

  lemma WrittenSame(sb: Super, st: State, t: State, u: State, k: nat, off: nat, d: seq<Byte>)
    requires Shape(sb, st) && Written(sb, st, t, k, off, d) && u.inodes == t.inodes
    requires forall c: nat :: At(u.view, c) == At(t.view, c)
    ensures Written(sb, st, u, k, off, d)
  {
    assert Grows(sb, t, u, k) by { hide Written; WrittenInode(sb, st, t, k, off, d); }
    WrittenGrow(sb, st, t, u, k, off, d);
  }

  lemma WrittenInode(sb: Super, st: State, t: State, k: nat, off: nat, d: seq<Byte>)
    requires Shape(sb, st) && Written(sb, st, t, k, off, d)
    ensures Shape(sb, t) && k < sb.ninodes && off + |d| <= MAXFILE * BSIZE
    ensures t.inodes[k] == st.inodes[k].(addrs := t.inodes[k].addrs)
  {
    hide Ref;
  }

  lemma FinishedIs(sb: Super, t: State, u: State, k: nat, end: nat)
    requires Shape(sb, t) && k < sb.ninodes && end < WORD_LIMIT && k in u.inodes && u.inodes[k].Fits()
    requires u.inodes == t.inodes[k := u.inodes[k]]
    requires u.inodes[k] == t.inodes[k].(size := if end > t.inodes[k].size then end else t.inodes[k].size)
    requires u == WithInode(sb, State(t.view, u.inodes), k, u.inodes[k])
    ensures u == Finished(sb, t, k, end)
  {
    hide PutInode;
  }

  /** writei's last step, seen from the state st when it was called. */
  lemma WriteFacts(sb: Super, st: State, t: State, u: State, owner: Owners, k: nat, off: nat,
                   d: seq<Byte>, end: nat, ss: set<Slot>)
    requires Shape(sb, st) && NoHoles(sb, st) && AllStored(sb, st) && Inv(sb, t, owner) && Written(sb, st, t, k, off, d)
    requires k < sb.ninodes && off <= st.inodes[k].size && end <= off + |d|
    requires k in t.inodes && k in u.inodes && u.inodes[k].Fits() && u.inodes == t.inodes[k := u.inodes[k]]
    requires u.inodes[k] == t.inodes[k].(size := if end > t.inodes[k].size then end else t.inodes[k].size)
    requires u == WithInode(sb, State(t.view, u.inodes), k, u.inodes[k])
    ensures Inv(sb, u, owner) && AllStored(sb, u)
    ensures Spliced(sb, st, u, k, off, d, end)
    ensures DiskFull(sb, t.view) ==> DiskFull(sb, u.view)
    ensures Filled(sb, st, t, ss) ==> Filled(sb, st, u, ss)
    ensures Shape(sb, t) && Shape(sb, u) && forall x :: ValidSlot(sb, x) ==> Ref(sb, u, x) == Ref(sb, t, x)
  {
    hide Forward, Backward, MetaUsed, Ref, Used, Written, Content, AllStored, Finished, WithInode, DiskFull, Filled;
    WrittenInode(sb, st, t, k, off, d);
    FinishedIs(sb, t, u, k, end);
    FinishedInv(sb, st, t, owner, k, off, d, end);
    FinishedStored(sb, st, t, k, off, d, end);
    FinishedContent(sb, st, t, owner, k, off, d, end);
    FullStays(sb, t, k, end);
    FinishedShape(sb, t, k, end);
    InodeWriteFrame(sb, t, owner, u, k);
    if Filled(sb, st, t, ss) { FilledSame(sb, st, t, u, ss); }
  }

  lemma FullStays(sb: Super, t: State, k: nat, end: nat)
    requires sb.Valid() && Shape(sb, t) && k < sb.ninodes && end < WORD_LIMIT
    ensures DiskFull(sb, t.view) ==> DiskFull(sb, Finished(sb, t, k, end).view)
  {
    hide Finished;
    FinishedShape(sb, t, k, end);
    var u := Finished(sb, t, k, end);
    forall b: nat | b < sb.size ensures Used(sb, u.view, b) == Used(sb, t.view, b) {
      Regions(sb, b, k);
    }
  }

  /** Log blocks that a write of n bytes at off can take: each touched block, a bitmap
      block for each but an unaligned first one, the indirect block and its bitmap
      block, and the inode's block. */
  function WriteCost(off: nat, n: nat): nat {
    var t := Touched(off, n);
    t + (if off % BSIZE != 0 && t > 0 then t - 1 else t) + 3
  }

  /** What writei has logged so far: t touched data blocks, a bitmap blocks for new ones,
      and e for the indirect block. */
  datatype Bill = Bill(t: nat, a: nat, e: nat) {
    ghost predicate Covers(start: nat, lh: seq<nat>, off: nat) {
      && |lh| <= start + t + a + e && e <= 2 && a <= t
      && (off % BSIZE != 0 && t > 0 ==> a < t)
    }

    /** The indirect block is charged once: from then on it is in the log. */
    ghost predicate Pays(start: nat, lh: seq<nat>, ind: nat, off: nat) {
      Covers(start, lh, off) && (e > 0 ==> ind != 0 && ind in lh)
    }

    function Next(lh: seq<nat>, ind: nat, bn: nat, mapped: bool): Bill {
      if mapped then Bill(t + 1, a, e) else Bill(t + 1, a + 1, e + IndirectCost(ind, lh, bn))
    }
  }

  lemma BillGrows(b: Bill, start: nat, off: nat, lh: seq<nat>, ind: nat, bn: nat, mapped: bool,
                  lh': seq<nat>, ind': nat, ok: bool)
    requires b.Pays(start, lh, ind, off) && Within(lh, lh')
    requires off % BSIZE != 0 && b.t == 0 ==> mapped
    requires |lh'| <= |lh| + if mapped then 1 else 2 + IndirectCost(ind, lh, bn)
    requires ind != 0 ==> ind' == ind
    requires ok && !mapped && bn >= NDIRECT ==> ind' != 0 && ind' in lh'
    ensures b.Next(lh, ind, bn, mapped).Covers(start, lh', off)
    ensures ok ==> b.Next(lh, ind, bn, mapped).Pays(start, lh', ind', off)
  {}

  /** The bill after one more turn of w bytes, whether the loop goes on or ends there. */
  lemma TurnBill(b: Bill, start: nat, off: nat, tot: nat, w: nat, len: nat, lh: seq<nat>, ind: nat, mapped: bool,
                 lh': seq<nat>, ind': nat, ok: bool)
    requires b.t == Touched(off, tot) && b.Pays(start, lh, ind, off) && Within(lh, lh')
    requires tot < len && 0 < w <= BSIZE - (off + tot) % BSIZE && (tot == 0 || (off + tot) % BSIZE == 0)
    requires off % BSIZE != 0 && tot == 0 ==> mapped
    requires |lh'| <= |lh| + if mapped then 1 else 2 + IndirectCost(ind, lh, (off + tot) / BSIZE)
    requires ind != 0 ==> ind' == ind
    requires ok && !mapped && (off + tot) / BSIZE >= NDIRECT ==> ind' != 0 && ind' in lh'
    ensures var c := b.Next(lh, ind, (off + tot) / BSIZE, mapped);
            && c.t == Touched(off, tot + w) && |lh'| < start + WriteCost(off, len)
            && (ok ==> c.Pays(start, lh', ind', off))
  {
    hide Touched;
    TouchedSome(off, tot);
    BillGrows(b, start, off, lh, ind, (off + tot) / BSIZE, mapped, lh', ind', ok);
    TouchedMore(off, tot, len);
    TouchedNext(off, tot, w);
  }

  /** filewrite's chunk of three blocks never exceeds the budget of one operation. */
  lemma ChunkFits(off: nat, n: nat)
    requires n <= ((MAXOPBLOCKS - 1 - 1 - 2) / 2) * BSIZE
    ensures WriteCost(off, n) <= MAXOPBLOCKS
  {}

  /** An unaligned offset inside the file lies in a block that is mapped. */
  lemma FirstMapped(sb: Super, st: State, k: nat, off: nat)
    requires Shape(sb, st) && NoHoles(sb, st) && k < sb.ninodes && off <= st.inodes[k].size && off < MAXFILE * BSIZE
    ensures off % BSIZE != 0 ==> BlockOf(sb, st, k, off / BSIZE) != 0
  {}

  /** The indirect block, once there, stays. */
  ghost predicate IndirectKept(before: map<nat, Inode>, after: map<nat, Inode>, k: nat) {
    && k in before && k in after && |before[k].addrs| == |after[k].addrs| == NDIRECT + 1
    && (before[k].addrs[NDIRECT] != 0 ==> after[k].addrs[NDIRECT] == before[k].addrs[NDIRECT])
  }

  lemma GrowsIndirect(sb: Super, st: State, t: State, k: nat)
    requires Shape(sb, st) && Grows(sb, st, t, k)
    ensures IndirectKept(st.inodes, t.inodes, k)
  {
    hide Ref;
  }

  lemma WithDataIs(sb: Super, u: State, k: nat, bn: nat, data: Block)
    requires Shape(sb, u) && k < sb.ninodes && bn < MAXFILE
    ensures WithData(sb, u, k, bn, data) == State(u.view[BlockOf(sb, u, k, bn) := data], u.inodes)
  {}

  lemma SliceJoin(c: seq<Byte>, x: nat, y: nat, z: nat)
    requires x <= y <= z <= |c|
    ensures c[x..y] + c[y..z] == c[x..z]
  {}

  /** `off + n < off` in 32-bit unsigned arithmetic. */
  predicate Overflows(off: nat, n: nat) {
    (off + n) % WORD_LIMIT < off
  }

  lemma OverflowTest(off: nat, n: nat)
    requires off < WORD_LIMIT && n < WORD_LIMIT
    ensures Overflows(off, n) <==> off + n >= WORD_LIMIT
  {}

  function Clip(size: nat, off: nat, n: nat): (m: nat)
    requires off <= size
  {
    if off + n > size then size - off else n
  }

  lemma MappedBelowSize(sb: Super, st: State, k: nat, o: nat)
    requires Shape(sb, st) && NoHoles(sb, st) && k < sb.ninodes && o < st.inodes[k].size
    ensures BlockOf(sb, st, k, o / BSIZE) != 0
  {}

  lemma ReadChunk(sb: Super, st: State, k: nat, o: nat, w: nat)
    requires Shape(sb, st) && NoHoles(sb, st) && k < sb.ninodes
    requires o + w <= st.inodes[k].size <= MAXFILE * BSIZE && 0 < w <= BSIZE - o % BSIZE
    ensures At(st.view, BlockOf(sb, st, k, o / BSIZE))[o % BSIZE..o % BSIZE + w] == Content(sb, st, k)[o..o + w]
  {
    hide BlockOf, NoHoles;
    var got := At(st.view, BlockOf(sb, st, k, o / BSIZE))[o % BSIZE..o % BSIZE + w];
    var want := Content(sb, st, k)[o..o + w];
    forall i | 0 <= i < w ensures got[i] == want[i] {
      SameBlock(o, i);
    }
  }

  lemma SameBlock(o: nat, i: nat)
    requires i < BSIZE - o % BSIZE
    ensures (o + i) / BSIZE == o / BSIZE && (o + i) % BSIZE == o % BSIZE + i
  {}

  lemma SizeBound(sb: Super, st: State, owner: Owners, k: nat)
    requires Inv(sb, st, owner) && k < sb.ninodes
    ensures Shape(sb, st) && st.inodes[k].size <= MAXFILE * BSIZE
  {}

  lemma FreedNothing(sb: Super, st: State, owner: Owners, k: nat)
    ensures FreedUpTo(sb, st, owner, st.view, k, 0)
  {}

  lemma IndirectStays(sb: Super, st: State, owner: Owners, view: Disk, k: nat, r: nat)
    requires Inv(sb, st, owner) && k < sb.ninodes && st.inodes[k].addrs[NDIRECT] != 0
    requires FreedUpTo(sb, st, owner, view, k, r)
    ensures At(view, st.inodes[k].addrs[NDIRECT]) == At(st.view, st.inodes[k].addrs[NDIRECT])
  {
    IndirectIsOwned(sb, st, owner, k);
  }

  lemma EntryRef(sb: Super, st: State, k: nat, j: nat)
    requires Shape(sb, st) && k < sb.ninodes && j < NINDIRECT && st.inodes[k].addrs[NDIRECT] != 0
    ensures Ref(sb, st, SlotAt(k, NDIRECT + j)) == GetWord(At(st.view, st.inodes[k].addrs[NDIRECT]), j)
  {}

  /** Without an indirect block there is nothing to free behind the direct blocks. */
  lemma {:induction false} FreedNoEntries(sb: Super, st: State, owner: Owners, view: Disk, k: nat, r: nat)
    requires Inv(sb, st, owner) && k < sb.ninodes && st.inodes[k].addrs[NDIRECT] == 0
    requires NDIRECT <= r <= MAXFILE + 1 && FreedUpTo(sb, st, owner, view, k, r)
    ensures FreedUpTo(sb, st, owner, view, k, MAXFILE + 1)
    decreases MAXFILE + 1 - r
  {
    hide FreedUpTo, Forward, Backward, NoHoles, MetaUsed;
    if r <= MAXFILE {
      FreedStep(sb, st, owner, view, k, r);
      FreedNoEntries(sb, st, owner, view, k, r + 1);
    }
  }

  lemma TruncateFacts(sb: Super, st: State, owner: Owners, view: Disk, k: nat)
    requires Inv(sb, st, owner) && k < sb.ninodes && FreedUpTo(sb, st, owner, view, k, MAXFILE + 1)
    requires AllStored(sb, st)
    ensures var t := Truncated(sb, st, view, k);
            && Inv(sb, t, Disowned(owner, k)) && AllStored(sb, t)
            && (forall c: nat :: c < sb.size ==>
                  (Used(sb, t.view, c) <==> Used(sb, st.view, c) && !(c in owner && owner[c].inum == k)))
            && (forall i: nat :: i < sb.ninodes && i != k ==> Untouched(sb, st, t, i))
  {
    hide Used, Ref, FreedUpTo, AllStored, Untouched, Truncated, Forward, Backward, NoHoles, MetaUsed;
    TruncatedInv(sb, st, owner, view, k);
    TruncatedStored(sb, st, owner, view, k);
    var t := Truncated(sb, st, view, k);
    forall c: nat | c < sb.size
      ensures Used(sb, t.view, c) <==> Used(sb, st.view, c) && !(c in owner && owner[c].inum == k)
    {
      TruncatedBits(sb, st, owner, view, k, c);
    }
    forall i: nat | i < sb.ninodes && i != k ensures Untouched(sb, st, t, i) {
      TruncatedOthers(sb, st, owner, view, k, i);
    }
  }

  ghost predicate DiskFull(sb: Super, view: Disk) {
    forall b: nat :: b < sb.size ==> Used(sb, view, b)
  }

  /** Log blocks for the indirect block and its bitmap block, unless it is logged already. */
  function IndirectCost(ind: nat, lh: seq<nat>, bn: nat): nat {
    if bn < NDIRECT || (ind != 0 && ind in lh) then 0 else 2
  }

  lemma InvShape(sb: Super, st: State, owner: Owners)
    requires Inv(sb, st, owner)
    ensures sb.Valid() && Shape(sb, st) && MetaUsed(sb, st.view) && NoHoles(sb, st)
  {}

  lemma NoEntries(sb: Super, st: State, k: nat)
    requires Shape(sb, st) && k < sb.ninodes
    ensures st.inodes[k].addrs[NDIRECT] == 0 ==> forall j: nat :: j < NINDIRECT ==> Ref(sb, st, Ind(k, j)) == 0
  {}

  /** A new indirect block has no entries. */
  lemma FreshIndirect(sb: Super, st: State, owner: Owners, k: nat, i: nat, b: nat)
    requires Inv(sb, st, owner) && k < sb.ninodes && i <= NDIRECT && FreeBlock(sb, st, b)
    requires st.inodes[k].addrs[i] == 0 && Shape(sb, WithAddr(sb, st, k, i, b))
    ensures i == NDIRECT ==> forall j: nat :: j < NINDIRECT ==> Ref(sb, WithAddr(sb, st, k, i, b), Ind(k, j)) == 0
  {
    hide Forward, Backward, NoHoles, MetaUsed, WithAddr;
    if i == NDIRECT {
      forall j: nat | j < NINDIRECT ensures Ref(sb, WithAddr(sb, st, k, i, b), Ind(k, j)) == 0 {
        WithAddrRef(sb, st, owner, k, i, b, Ind(k, j));
      }
    }
  }

  lemma AllocIs(sb: Super, view: Disk, b: nat, bi: nat)
    requires b % BPB == 0 && bi < BPB
    ensures Alloc(sb, view, b + bi) == view[sb.Bblock(b) := SetBit(At(view, sb.Bblock(b)), bi)][b + bi := Zero]
  {
    hide SetBit;
  }

  /** balloc has found every block below n in use. */
  ghost predicate UsedBelow(sb: Super, view: Disk, n: nat) {
    forall c: nat :: c < n && c < sb.size ==> Used(sb, view, c)
  }

  lemma UsedFrom(sb: Super, view: Disk)
    ensures UsedBelow(sb, view, 0)
  {}

  lemma UsedNext(sb: Super, view: Disk, n: nat)
    requires UsedBelow(sb, view, n) && Used(sb, view, n)
    ensures UsedBelow(sb, view, n + 1)
  {
    hide Used;
  }

  lemma UsedPast(sb: Super, view: Disk, n: nat, m: nat)
    requires UsedBelow(sb, view, n) && (n >= sb.size || n == m)
    ensures UsedBelow(sb, view, m)
  {}

  lemma UsedAll(sb: Super, view: Disk, n: nat)
    requires UsedBelow(sb, view, n) && n >= sb.size
    ensures forall b: nat :: b < sb.size ==> Used(sb, view, b)
  {
    hide Used;
  }

  /** The first free block is a data block. */
  lemma UsedNot(sb: Super, view: Disk, n: nat)
    requires UsedBelow(sb, view, n) && n < sb.size && !Used(sb, view, n) && MetaUsed(sb, view)
    ensures sb.datastart <= n && forall c: nat :: c < n ==> Used(sb, view, c)
  {
    hide Used;
  }

  /** Bit bi of the bitmap block for b is block b + bi's. */
  lemma ScannedBit(sb: Super, view: Disk, b: nat, bi: nat)
    requires b % BPB == 0 && bi < BPB
    ensures sb.Bblock(b + bi) == sb.Bblock(b) && (b + bi) % BPB == bi
    ensures Used(sb, view, b + bi) == GetBit(At(view, sb.Bblock(b)), bi)
  {}
}
