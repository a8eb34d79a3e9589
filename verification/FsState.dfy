/** The file system's disk state: which block belongs to which file, and what keeps
    files apart. */
module FsState {
  import opened Blocks
  import opened Journal
  import opened Inodes

  /** The super block, with the first data block that mkfs puts behind the bitmap. */
  datatype Super = Super(size: nat, ninodes: nat, inodestart: nat, bmapstart: nat, datastart: nat) {
    predicate Valid() {
      && 0 < inodestart && 0 < ninodes
      && inodestart + (ninodes - 1) / IPB < bmapstart
      && bmapstart + (size - 1) / BPB < datastart
      && datastart <= size < 0x8000_0000
    }

    function Bblock(b: nat): nat {
      b / BPB + bmapstart
    }

    function Iblock(k: nat): nat {
      k / IPB + inodestart
    }
  }

  /** What bread returns for every block, and the in-memory inodes. */
  datatype State = State(view: Disk, inodes: map<nat, Inode>)

  /** A place that holds a block number: an entry of ip->addrs, or of the indirect block. */
  datatype Slot = Addr(inum: nat, i: nat) | Ind(inum: nat, j: nat)

  predicate ValidSlot(sb: Super, s: Slot) {
    && s.inum < sb.ninodes
    && match s
       case Addr(_, i) => i <= NDIRECT
       case Ind(_, j) => j < NINDIRECT
  }

  ghost predicate Shape(sb: Super, st: State) {
    forall k: nat :: k < sb.ninodes ==> k in st.inodes && st.inodes[k].Fits()
  }

  /** The block number in slot s; 0 for none. */
  function Ref(sb: Super, st: State, s: Slot): nat
    requires Shape(sb, st) && ValidSlot(sb, s)
  {
    var addrs := st.inodes[s.inum].addrs;
    match s
    case Addr(_, i) => addrs[i]
    case Ind(_, j) => if addrs[NDIRECT] == 0 then 0 else GetWord(At(st.view, addrs[NDIRECT]), j)
  }

  /** The slot for block bn of file k. */
  function SlotOf(k: nat, bn: nat): Slot {
    if bn < NDIRECT then Addr(k, bn) else Ind(k, bn - NDIRECT)
  }

  function BlockOf(sb: Super, st: State, k: nat, bn: nat): nat
    requires Shape(sb, st) && k < sb.ninodes && bn < MAXFILE
  {
    Ref(sb, st, SlotOf(k, bn))
  }

  predicate Used(sb: Super, view: Disk, b: nat) {
    GetBit(At(view, sb.Bblock(b)), b % BPB)
  }

  /** Who owns each block: the one slot that refers to it. */
  type Owners = map<nat, Slot>

  ghost predicate Forward(sb: Super, st: State, owner: Owners)
    requires Shape(sb, st)
  {
    forall s :: ValidSlot(sb, s) && Ref(sb, st, s) != 0 ==> Ref(sb, st, s) in owner && owner[Ref(sb, st, s)] == s
  }

  ghost predicate Backward(sb: Super, st: State, owner: Owners)
    requires Shape(sb, st)
  {
    forall b :: b in owner ==>
      && sb.datastart <= b < sb.size && Used(sb, st.view, b)
      && ValidSlot(sb, owner[b]) && Ref(sb, st, owner[b]) == b
  }

  ghost predicate MetaUsed(sb: Super, view: Disk) {
    forall b: nat :: b < sb.datastart ==> Used(sb, view, b)
  }

  /** No block below the end of a file is missing. */
  ghost predicate NoHoles(sb: Super, st: State)
    requires Shape(sb, st)
  {
    && (forall k: nat :: k < sb.ninodes ==> st.inodes[k].size <= MAXFILE * BSIZE)
    && forall k: nat, bn: nat :: k < sb.ninodes && bn < MAXFILE && bn * BSIZE < st.inodes[k].size ==>
         BlockOf(sb, st, k, bn) != 0
  }

  /** No block is referenced twice, every referenced and every metadata block is
      marked in use, and files have no holes. */
  ghost predicate Inv(sb: Super, st: State, owner: Owners) {
    && sb.Valid() && Shape(sb, st)
    && MetaUsed(sb, st.view)
    && Forward(sb, st, owner) && Backward(sb, st, owner)
    && NoHoles(sb, st)
  }

  /** The inode block holds inode k as it is in memory. */
  predicate Stored(sb: Super, st: State, k: nat)
    requires k in st.inodes
  {
    GetInode(At(st.view, sb.Iblock(k)), k % IPB) == st.inodes[k]
  }

  ghost predicate AllStored(sb: Super, st: State) {
    forall i: nat :: i < sb.ninodes ==> i in st.inodes && Stored(sb, st, i)
  }

  // ----- consequences -----

  lemma NoSharing(sb: Super, st: State, owner: Owners, s: Slot, t: Slot)
    requires Inv(sb, st, owner) && ValidSlot(sb, s) && ValidSlot(sb, t)
    requires s != t && Ref(sb, st, s) != 0
    ensures Ref(sb, st, s) != Ref(sb, st, t)
    ensures Used(sb, st.view, Ref(sb, st, s)) && sb.datastart <= Ref(sb, st, s) < sb.size
  {}

  // ----- the layout -----

  lemma Regions(sb: Super, b: nat, k: nat)
    requires sb.Valid()
    ensures b < sb.size ==> sb.bmapstart <= sb.Bblock(b) < sb.datastart
    ensures k < sb.ninodes ==> sb.inodestart <= sb.Iblock(k) < sb.bmapstart
  {}

  function MarkUsed(sb: Super, view: Disk, b: nat): Disk {
    view[sb.Bblock(b) := SetBit(At(view, sb.Bblock(b)), b % BPB)]
  }

  function MarkFree(sb: Super, view: Disk, b: nat): Disk {
    view[sb.Bblock(b) := ClearBit(At(view, sb.Bblock(b)), b % BPB)]
  }

  lemma MarkUsedBits(sb: Super, view: Disk, b: nat, c: nat)
    ensures Used(sb, MarkUsed(sb, view, b), c) <==> c == b || Used(sb, view, c)
  {
    SetGetBit(At(view, sb.Bblock(b)), b % BPB, c % BPB);
  }

  lemma MarkFreeBits(sb: Super, view: Disk, b: nat, c: nat)
    ensures Used(sb, MarkFree(sb, view, b), c) <==> c != b && Used(sb, view, c)
  {
    ClearGetBit(At(view, sb.Bblock(b)), b % BPB, c % BPB);
  }

  /** `balloc`'s effect on the disk when it picks block b. */
  function Alloc(sb: Super, view: Disk, b: nat): Disk {
    MarkUsed(sb, view, b)[b := Zero]
  }

  /** A write to a data block leaves the bitmap alone. */
  lemma DataKeepsBits(sb: Super, view: Disk, b: nat, data: Block, c: nat)
    requires sb.Valid() && sb.datastart <= b && c < sb.size
    ensures Used(sb, view[b := data], c) == Used(sb, view, c)
  {
    Regions(sb, c, 0);
  }

  lemma AllocBits(sb: Super, view: Disk, b: nat, c: nat)
    requires sb.Valid() && sb.datastart <= b < sb.size && c < sb.size
    ensures Used(sb, Alloc(sb, view, b), c) <==> c == b || Used(sb, view, c)
  {
    MarkUsedBits(sb, view, b, c);
    DataKeepsBits(sb, MarkUsed(sb, view, b), b, Zero, c);
  }

  /** Allocating b changes no inode block and no data block but b. */
  lemma AllocFrame(sb: Super, view: Disk, b: nat, c: nat)
    requires sb.Valid() && sb.datastart <= b < sb.size
    requires c != b && (c < sb.bmapstart || sb.datastart <= c)
    ensures At(Alloc(sb, view, b), c) == At(view, c)
  {
    Regions(sb, b, 0);
  }

  // ----- giving a file a block -----

  /** t is st with block b, free before, in slot s; all other references are the same. */
  ghost predicate Attached(sb: Super, st: State, t: State, s: Slot, b: nat)
    requires Shape(sb, st)
  {
    && Shape(sb, t) && ValidSlot(sb, s)
    && (forall i: nat :: i < sb.ninodes ==> t.inodes[i] == st.inodes[i].(addrs := t.inodes[i].addrs))
    && (forall c: nat :: c < sb.size ==> (Used(sb, t.view, c) <==> c == b || Used(sb, st.view, c)))
    && forall x :: ValidSlot(sb, x) ==> Ref(sb, t, x) == if x == s then b else Ref(sb, st, x)
  }

  lemma AttachedInv(sb: Super, st: State, t: State, owner: Owners, s: Slot, b: nat)
    requires Inv(sb, st, owner) && Attached(sb, st, t, s, b)
    requires 0 < b < sb.size && !Used(sb, st.view, b) && Ref(sb, st, s) == 0
    ensures Inv(sb, t, owner[b := s]) && b !in owner && sb.datastart <= b
  {
    hide Ref, Used;
    assert sb.datastart <= b;
    forall k: nat, bn: nat | k < sb.ninodes && bn < MAXFILE && bn * BSIZE < t.inodes[k].size
      ensures BlockOf(sb, t, k, bn) != 0
    {
      assert BlockOf(sb, st, k, bn) != 0;
      assert ValidSlot(sb, SlotOf(k, bn));
    }
  }

  // ----- how many blocks are free, and how many a file needs -----

  ghost function FreeSet(sb: Super, view: Disk): set<nat> {
    set b: nat | b < sb.size && !Used(sb, view, b)
  }

  /** The empty ones among the slots ss. */
  ghost function Empty(sb: Super, st: State, ss: set<Slot>): set<Slot>
    requires Shape(sb, st)
  {
    set s | s in ss && ValidSlot(sb, s) && Ref(sb, st, s) == 0
  }

  /** From st to t the empty slots among ss were filled, each with a free block, and no
      other slot was filled or emptied. */
  ghost predicate Filled(sb: Super, st: State, t: State, ss: set<Slot>)
    requires Shape(sb, st)
  {
    && Shape(sb, t)
    && (forall s :: ValidSlot(sb, s) ==> (Ref(sb, t, s) == 0 <==> Ref(sb, st, s) == 0 && s !in ss))
    && |FreeSet(sb, t.view)| + |Empty(sb, st, ss)| == |FreeSet(sb, st.view)|
  }

  lemma AttachedFills(sb: Super, st: State, t: State, s: Slot, b: nat)
    requires Shape(sb, st) && Attached(sb, st, t, s, b) && Ref(sb, st, s) == 0
    requires 0 < b < sb.size && !Used(sb, st.view, b)
    ensures Filled(sb, st, t, {s})
  {
    hide Ref, Used;
    assert FreeSet(sb, t.view) == FreeSet(sb, st.view) - {b};
    assert Empty(sb, st, {s}) == {s};
  }

  /** Slots that are all in use already cost nothing. */
  lemma FilledAlready(sb: Super, st: State, ss: set<Slot>)
    requires Shape(sb, st) && forall s :: s in ss && ValidSlot(sb, s) ==> Ref(sb, st, s) != 0
    ensures Filled(sb, st, st, ss) && Empty(sb, st, ss) == {}
  {
    hide Ref, Used;
  }

  lemma EmptySum(sb: Super, st: State, t: State, ss: set<Slot>, us: set<Slot>)
    requires Shape(sb, st) && Filled(sb, st, t, ss)
    ensures |Empty(sb, st, ss + us)| == |Empty(sb, st, ss)| + |Empty(sb, t, us)|
  {
    hide Ref, Used;
    assert Empty(sb, st, ss + us) == Empty(sb, st, ss) + Empty(sb, t, us);
    assert Empty(sb, st, ss) !! Empty(sb, t, us);
  }

  lemma FilledMore(sb: Super, st: State, t: State, u: State, ss: set<Slot>, us: set<Slot>)
    requires Shape(sb, st) && Filled(sb, st, t, ss) && Filled(sb, t, u, us)
    ensures Filled(sb, st, u, ss + us)
  {
    hide Ref, FreeSet, Empty;
    EmptySum(sb, st, t, ss, us);
  }

  /** A change that moves no reference and no bit. */
  lemma FilledSame(sb: Super, st: State, t: State, u: State, ss: set<Slot>)
    requires Shape(sb, st) && Filled(sb, st, t, ss) && Shape(sb, u)
    requires forall c: nat :: c < sb.size ==> Used(sb, u.view, c) == Used(sb, t.view, c)
    requires forall x :: ValidSlot(sb, x) ==> Ref(sb, u, x) == Ref(sb, t, x)
    ensures Filled(sb, st, u, ss)
  {
    hide Ref, Used;
    assert FreeSet(sb, u.view) == FreeSet(sb, t.view);
  }

  lemma EmptyMonotone(sb: Super, st: State, ss: set<Slot>, us: set<Slot>)
    requires Shape(sb, st) && ss <= us
    ensures |Empty(sb, st, ss)| <= |Empty(sb, st, us)|
  {
    hide Ref;
    assert Empty(sb, st, us) == Empty(sb, st, ss) + (Empty(sb, st, us) - Empty(sb, st, ss));
  }

  /** The slots on the way to block bn of file k. */
  function PathSlots(k: nat, bn: nat): set<Slot> {
    if bn < NDIRECT then {Addr(k, bn)} else {Addr(k, NDIRECT)} + {Ind(k, bn - NDIRECT)}
  }

  /** The slots that blocks lo .. hi of file k need. */
  function FileSlots(k: nat, lo: nat, hi: nat): set<Slot>
    decreases hi
  {
    if hi <= lo then {} else FileSlots(k, lo, hi - 1) + PathSlots(k, hi - 1)
  }

  lemma {:induction false} FileSlotsJoin(k: nat, lo: nat, a: nat, b: nat, hi: nat)
    requires lo <= b <= a <= hi
    ensures FileSlots(k, lo, a) + FileSlots(k, b, hi) == FileSlots(k, lo, hi)
    decreases hi - a
  {
    if a < hi { FileSlotsJoin(k, lo, a, b, hi - 1); } else { FileSlotsWithin(k, lo, b, hi); }
  }

  lemma {:induction false} FileSlotsWithin(k: nat, lo: nat, b: nat, hi: nat)
    requires lo <= b
    ensures FileSlots(k, b, hi) <= FileSlots(k, lo, hi)
    decreases hi
  {
    if b < hi { FileSlotsWithin(k, lo, b, hi - 1); }
  }

  lemma {:induction false} FileSlotsMonotone(k: nat, lo: nat, a: nat, hi: nat)
    requires a <= hi
    ensures FileSlots(k, lo, a) <= FileSlots(k, lo, hi)
    decreases hi
  {
    if a < hi { FileSlotsMonotone(k, lo, a, hi - 1); }
  }

  /** Growing file k: nothing that was mapped moves or changes, no other inode and no
      inode block changes. */
  ghost predicate Grows(sb: Super, st: State, t: State, k: nat)
    requires Shape(sb, st)
  {
    && Shape(sb, t) && k < sb.ninodes
    && (forall i: nat :: i < sb.ninodes && i != k ==> t.inodes[i] == st.inodes[i])
    && t.inodes[k] == st.inodes[k].(addrs := t.inodes[k].addrs)
    && (forall i :: 0 <= i <= NDIRECT && st.inodes[k].addrs[i] != 0 ==> t.inodes[k].addrs[i] == st.inodes[k].addrs[i])
    && (forall c: nat :: c < sb.bmapstart ==> At(t.view, c) == At(st.view, c))
    && forall i: nat, bn: nat :: i < sb.ninodes && bn < MAXFILE && BlockOf(sb, st, i, bn) != 0 ==>
         && BlockOf(sb, t, i, bn) == BlockOf(sb, st, i, bn)
         && At(t.view, BlockOf(sb, st, i, bn)) == At(st.view, BlockOf(sb, st, i, bn))
  }

  lemma GrowsTransitive(sb: Super, st: State, t: State, u: State, k: nat)
    requires Shape(sb, st) && Grows(sb, st, t, k) && Grows(sb, t, u, k)
    ensures Grows(sb, st, u, k)
  {
    hide Ref;
  }

  /** A file's data blocks are not its indirect block, nor free. */
  lemma MappedIsOwned(sb: Super, st: State, owner: Owners, i: nat, bn: nat)
    requires Inv(sb, st, owner) && i < sb.ninodes && bn < MAXFILE && BlockOf(sb, st, i, bn) != 0
    ensures var c := BlockOf(sb, st, i, bn);
            c in owner && owner[c] == SlotOf(i, bn) && Used(sb, st.view, c) && sb.datastart <= c < sb.size
  {
    assert ValidSlot(sb, SlotOf(i, bn));
  }

  lemma IndirectIsOwned(sb: Super, st: State, owner: Owners, i: nat)
    requires Inv(sb, st, owner) && i < sb.ninodes && st.inodes[i].addrs[NDIRECT] != 0
    ensures var c := st.inodes[i].addrs[NDIRECT];
            c in owner && owner[c] == Addr(i, NDIRECT) && Used(sb, st.view, c) && sb.datastart <= c < sb.size
  {
    assert Ref(sb, st, Addr(i, NDIRECT)) == st.inodes[i].addrs[NDIRECT];
  }

  /** The state after `ip->addrs[i] = balloc()` returned b. */
  function WithAddr(sb: Super, st: State, k: nat, i: nat, b: nat): State
    requires Shape(sb, st) && k < sb.ninodes && i <= NDIRECT
  {
    State(Alloc(sb, st.view, b), st.inodes[k := st.inodes[k].(addrs := st.inodes[k].addrs[i := b])])
  }

  /** The state after `a[j] = balloc()` returned b in file k's indirect block. */
  function WithEntry(sb: Super, st: State, k: nat, j: nat, b: nat): State
    requires Shape(sb, st) && k < sb.ninodes && j < NINDIRECT && b < WORD_LIMIT
  {
    var ind := st.inodes[k].addrs[NDIRECT];
    var view := Alloc(sb, st.view, b);
    st.(view := view[ind := PutWord(At(view, ind), j, b)])
  }

  ghost predicate FreeBlock(sb: Super, st: State, b: nat) {
    sb.datastart <= b < sb.size && !Used(sb, st.view, b)
  }

  lemma WithAddrRef(sb: Super, st: State, owner: Owners, k: nat, i: nat, b: nat, x: Slot)
    requires Inv(sb, st, owner) && k < sb.ninodes && i <= NDIRECT && FreeBlock(sb, st, b)
    requires st.inodes[k].addrs[i] == 0 && ValidSlot(sb, x) && Shape(sb, WithAddr(sb, st, k, i, b))
    ensures Ref(sb, WithAddr(sb, st, k, i, b), x) == if x == Addr(k, i) then b else Ref(sb, st, x)
  {
    hide Forward, Backward, NoHoles, MetaUsed;
    if x.Ind? && st.inodes[x.inum].addrs[NDIRECT] != 0 {
      IndirectIsOwned(sb, st, owner, x.inum);
      AllocFrame(sb, st.view, b, st.inodes[x.inum].addrs[NDIRECT]);
    } else if x.Ind? && x.inum == k && i == NDIRECT {
      ZeroWord(x.j);
    }
  }

  lemma WithEntryRef(sb: Super, st: State, owner: Owners, k: nat, j: nat, b: nat, x: Slot)
    requires Inv(sb, st, owner) && k < sb.ninodes && j < NINDIRECT && FreeBlock(sb, st, b) && b < WORD_LIMIT
    requires st.inodes[k].addrs[NDIRECT] != 0 && ValidSlot(sb, x)
    ensures Ref(sb, WithEntry(sb, st, k, j, b), x) == if x == Ind(k, j) then b else Ref(sb, st, x)
  {
    hide Forward, Backward, NoHoles, MetaUsed, PutWord, GetWord, Alloc;
    IndirectIsOwned(sb, st, owner, k);
    var ind := st.inodes[k].addrs[NDIRECT];
    AllocFrame(sb, st.view, b, ind);
    if x.Ind? && st.inodes[x.inum].addrs[NDIRECT] != 0 {
      IndirectIsOwned(sb, st, owner, x.inum);
      AllocFrame(sb, st.view, b, st.inodes[x.inum].addrs[NDIRECT]);
      PutGetWord(At(st.view, ind), j, b, x.j);
    }
  }

  /** bmap's two allocations keep the invariant. */
  lemma WithAddrInv(sb: Super, st: State, owner: Owners, k: nat, i: nat, b: nat)
    requires Inv(sb, st, owner) && k < sb.ninodes && i <= NDIRECT && FreeBlock(sb, st, b)
    requires st.inodes[k].addrs[i] == 0
    ensures Inv(sb, WithAddr(sb, st, k, i, b), owner[b := Addr(k, i)]) && b !in owner
    ensures Filled(sb, st, WithAddr(sb, st, k, i, b), {Addr(k, i)})
  {
    hide Forward, Backward, NoHoles, MetaUsed, Ref, Alloc, Used;
    var t := WithAddr(sb, st, k, i, b);
    forall c: nat | c < sb.size ensures Used(sb, t.view, c) <==> c == b || Used(sb, st.view, c) {
      AllocBits(sb, st.view, b, c);
    }
    forall x | ValidSlot(sb, x) ensures Ref(sb, t, x) == if x == Addr(k, i) then b else Ref(sb, st, x) {
      WithAddrRef(sb, st, owner, k, i, b, x);
    }
    assert Ref(sb, st, Addr(k, i)) == 0 by { AddrRef(sb, st, k, i); }
    AttachedInv(sb, st, t, owner, Addr(k, i), b);
    AttachedFills(sb, st, t, Addr(k, i), b);
  }

  lemma AddrRef(sb: Super, st: State, k: nat, i: nat)
    requires Shape(sb, st) && k < sb.ninodes && i <= NDIRECT
    ensures Ref(sb, st, Addr(k, i)) == st.inodes[k].addrs[i]
  {}

  lemma WithEntryInv(sb: Super, st: State, owner: Owners, k: nat, j: nat, b: nat)
    requires Inv(sb, st, owner) && k < sb.ninodes && j < NINDIRECT && FreeBlock(sb, st, b)
    requires st.inodes[k].addrs[NDIRECT] != 0 && Ref(sb, st, Ind(k, j)) == 0
    ensures Inv(sb, WithEntry(sb, st, k, j, b), owner[b := Ind(k, j)]) && b !in owner
    ensures Filled(sb, st, WithEntry(sb, st, k, j, b), {Ind(k, j)})
  {
    hide Forward, Backward, NoHoles, MetaUsed, Ref, Alloc, Used, PutWord;
    var t := WithEntry(sb, st, k, j, b);
    IndirectIsOwned(sb, st, owner, k);
    var ind, v := st.inodes[k].addrs[NDIRECT], Alloc(sb, st.view, b);
    forall c: nat | c < sb.size ensures Used(sb, t.view, c) <==> c == b || Used(sb, st.view, c) {
      AllocBits(sb, st.view, b, c);
      DataKeepsBits(sb, v, ind, PutWord(At(v, ind), j, b), c);
    }
    forall x | ValidSlot(sb, x) ensures Ref(sb, t, x) == if x == Ind(k, j) then b else Ref(sb, st, x) {
      WithEntryRef(sb, st, owner, k, j, b, x);
    }
    AttachedInv(sb, st, t, owner, Ind(k, j), b);
    AttachedFills(sb, st, t, Ind(k, j), b);
  }

  /** bmap's two allocations move and change nothing that is mapped. */
  lemma WithAddrGrows(sb: Super, st: State, owner: Owners, k: nat, i: nat, b: nat)
    requires Inv(sb, st, owner) && k < sb.ninodes && i <= NDIRECT && FreeBlock(sb, st, b)
    requires st.inodes[k].addrs[i] == 0
    ensures Grows(sb, st, WithAddr(sb, st, k, i, b), k)
  {
    hide Forward, Backward, NoHoles, MetaUsed, Ref, Alloc, Used;
    var t := WithAddr(sb, st, k, i, b);
    forall m: nat, bn: nat | m < sb.ninodes && bn < MAXFILE && BlockOf(sb, st, m, bn) != 0
      ensures BlockOf(sb, t, m, bn) == BlockOf(sb, st, m, bn)
      ensures At(t.view, BlockOf(sb, st, m, bn)) == At(st.view, BlockOf(sb, st, m, bn))
    {
      AddrRef(sb, st, k, i);
      WithAddrRef(sb, st, owner, k, i, b, SlotOf(m, bn));
      MappedIsOwned(sb, st, owner, m, bn);
      AllocFrame(sb, st.view, b, BlockOf(sb, st, m, bn));
    }
    forall c: nat | c < sb.bmapstart ensures At(t.view, c) == At(st.view, c) {
      AllocFrame(sb, st.view, b, c);
    }
  }

  lemma WithEntryGrows(sb: Super, st: State, owner: Owners, k: nat, j: nat, b: nat)
    requires Inv(sb, st, owner) && k < sb.ninodes && j < NINDIRECT && FreeBlock(sb, st, b)
    requires st.inodes[k].addrs[NDIRECT] != 0 && Ref(sb, st, Ind(k, j)) == 0
    ensures Grows(sb, st, WithEntry(sb, st, k, j, b), k)
  {
    hide Forward, Backward, NoHoles, MetaUsed, Ref, Alloc, Used, PutWord;
    var t := WithEntry(sb, st, k, j, b);
    IndirectIsOwned(sb, st, owner, k);
    forall m: nat, bn: nat | m < sb.ninodes && bn < MAXFILE && BlockOf(sb, st, m, bn) != 0
      ensures BlockOf(sb, t, m, bn) == BlockOf(sb, st, m, bn)
      ensures At(t.view, BlockOf(sb, st, m, bn)) == At(st.view, BlockOf(sb, st, m, bn))
    {
      WithEntryRef(sb, st, owner, k, j, b, SlotOf(m, bn));
      MappedIsOwned(sb, st, owner, m, bn);
      AllocFrame(sb, st.view, b, BlockOf(sb, st, m, bn));
    }
    forall c: nat | c < sb.bmapstart ensures At(t.view, c) == At(st.view, c) {
      AllocFrame(sb, st.view, b, c);
    }
  }

  // ----- writing data -----

  /** The state after data went into file k's block bn. */
  function WithData(sb: Super, st: State, k: nat, bn: nat, data: Block): State
    requires Shape(sb, st) && k < sb.ninodes && bn < MAXFILE
  {
    st.(view := st.view[BlockOf(sb, st, k, bn) := data])
  }

  lemma WithDataRef(sb: Super, st: State, owner: Owners, k: nat, bn: nat, data: Block, x: Slot)
    requires Inv(sb, st, owner) && k < sb.ninodes && bn < MAXFILE && BlockOf(sb, st, k, bn) != 0
    requires ValidSlot(sb, x)
    ensures Ref(sb, WithData(sb, st, k, bn, data), x) == Ref(sb, st, x)
  {
    hide Forward, Backward, NoHoles, MetaUsed, GetWord;
    MappedIsOwned(sb, st, owner, k, bn);
    if x.Ind? && st.inodes[x.inum].addrs[NDIRECT] != 0 {
      IndirectIsOwned(sb, st, owner, x.inum);
    }
  }

  lemma WithDataInv(sb: Super, st: State, owner: Owners, k: nat, bn: nat, data: Block)
    requires Inv(sb, st, owner) && k < sb.ninodes && bn < MAXFILE && BlockOf(sb, st, k, bn) != 0
    ensures Inv(sb, WithData(sb, st, k, bn, data), owner)
    ensures forall c: nat :: c < sb.size ==> Used(sb, WithData(sb, st, k, bn, data).view, c) == Used(sb, st.view, c)
    ensures forall x :: ValidSlot(sb, x) ==> Ref(sb, WithData(sb, st, k, bn, data), x) == Ref(sb, st, x)
  {
    var b, t := BlockOf(sb, st, k, bn), WithData(sb, st, k, bn, data);
    MappedIsOwned(sb, st, owner, k, bn);
    forall c: nat | c < sb.size ensures Used(sb, t.view, c) == Used(sb, st.view, c) {
      DataKeepsBits(sb, st.view, b, data, c);
    }
    forall x | ValidSlot(sb, x) ensures Ref(sb, t, x) == Ref(sb, st, x) {
      WithDataRef(sb, st, owner, k, bn, data, x);
    }
    hide Ref, Used;
    SameRefsInv(sb, st, t, owner);
  }

  lemma SameRefsInv(sb: Super, st: State, t: State, owner: Owners)
    requires Inv(sb, st, owner) && t.inodes == st.inodes
    requires forall c: nat :: c < sb.size ==> Used(sb, t.view, c) == Used(sb, st.view, c)
    requires forall x :: ValidSlot(sb, x) ==> Ref(sb, t, x) == Ref(sb, st, x)
    ensures Inv(sb, t, owner)
  {
    hide Ref, Used;
    forall k: nat, bn: nat | k < sb.ninodes && bn < MAXFILE && bn * BSIZE < t.inodes[k].size
      ensures BlockOf(sb, t, k, bn) != 0
    {
      assert BlockOf(sb, st, k, bn) != 0;
      assert ValidSlot(sb, SlotOf(k, bn));
    }
  }

  /** Only that one block of that one file changes. */
  lemma WithDataFrame(sb: Super, st: State, owner: Owners, k: nat, bn: nat, data: Block, i: nat, cn: nat)
    requires Inv(sb, st, owner) && k < sb.ninodes && bn < MAXFILE && BlockOf(sb, st, k, bn) != 0
    requires i < sb.ninodes && cn < MAXFILE && BlockOf(sb, st, i, cn) != 0
    ensures var t := WithData(sb, st, k, bn, data);
            && BlockOf(sb, t, i, cn) == BlockOf(sb, st, i, cn)
            && At(t.view, BlockOf(sb, t, i, cn))
               == if i == k && cn == bn then data else At(st.view, BlockOf(sb, st, i, cn))
  {
    hide Forward, Backward, NoHoles, MetaUsed, Ref;
    WithDataRef(sb, st, owner, k, bn, data, SlotOf(i, cn));
    MappedIsOwned(sb, st, owner, k, bn);
    MappedIsOwned(sb, st, owner, i, cn);
  }

  // ----- file contents as bytes -----

  function ByteAt(sb: Super, st: State, k: nat, o: nat): Byte
    requires Shape(sb, st) && k < sb.ninodes && o < MAXFILE * BSIZE
  {
    At(st.view, BlockOf(sb, st, k, o / BSIZE))[o % BSIZE]
  }

  /** File k as the flat byte sequence that readi and writei present. */
  function Content(sb: Super, st: State, k: nat): (c: seq<Byte>)
    requires Shape(sb, st) && k < sb.ninodes && st.inodes[k].size <= MAXFILE * BSIZE
    ensures |c| == st.inodes[k].size
    ensures forall o :: 0 <= o < |c| ==> c[o] == ByteAt(sb, st, k, o)
  {
    seq<Byte>(st.inodes[k].size, (o: nat) requires o < MAXFILE * BSIZE => ByteAt(sb, st, k, o))
  }

  /** c with d written at off, past the end if need be. */
  function Splice(c: seq<Byte>, off: nat, d: seq<Byte>): seq<Byte>
    requires off <= |c|
  {
    c[..off] + d + if off + |d| < |c| then c[off + |d|..] else []
  }

  function Larger(a: nat, b: nat): nat {
    if a < b then b else a
  }

  /** File i has the same inode and data in st and t. */
  ghost predicate Untouched(sb: Super, st: State, t: State, i: nat)
    requires Shape(sb, st) && Shape(sb, t) && i < sb.ninodes
  {
    && t.inodes[i] == st.inodes[i]
    && forall bn: nat :: bn < MAXFILE && BlockOf(sb, st, i, bn) != 0 ==>
         && BlockOf(sb, t, i, bn) == BlockOf(sb, st, i, bn)
         && At(t.view, BlockOf(sb, st, i, bn)) == At(st.view, BlockOf(sb, st, i, bn))
  }

  lemma UntouchedContent(sb: Super, st: State, t: State, i: nat)
    requires Shape(sb, st) && Shape(sb, t) && i < sb.ninodes && NoHoles(sb, st) && Untouched(sb, st, t, i)
    ensures Content(sb, t, i) == Content(sb, st, i)
  {
    hide Ref;
    forall o | 0 <= o < st.inodes[i].size ensures ByteAt(sb, t, i, o) == ByteAt(sb, st, i, o) {
      assert BlockOf(sb, st, i, o / BSIZE) != 0;
    }
  }

  /** t is st with d written to file k at off, before the size is updated. */
  ghost predicate Written(sb: Super, st: State, t: State, k: nat, off: nat, d: seq<Byte>)
    requires Shape(sb, st)
  {
    && Shape(sb, t) && k < sb.ninodes && off + |d| <= MAXFILE * BSIZE
    && (forall i: nat :: i < sb.ninodes && i != k ==> Untouched(sb, st, t, i))
    && t.inodes[k] == st.inodes[k].(addrs := t.inodes[k].addrs)
    && (forall c: nat :: c < sb.bmapstart ==> At(t.view, c) == At(st.view, c))
    && forall o: nat :: o < MAXFILE * BSIZE && (BlockOf(sb, st, k, o / BSIZE) != 0 || off <= o < off + |d|) ==>
         && BlockOf(sb, t, k, o / BSIZE) != 0
         && ByteAt(sb, t, k, o) == if off <= o < off + |d| then d[o - off] else ByteAt(sb, st, k, o)
  }

  /** blk with c written at position p. */
  function Patch(blk: Block, p: nat, c: seq<Byte>): Block
    requires p + |c| <= BSIZE
  {
    blk[..p] + c + blk[p + |c|..]
  }

  lemma WrittenNothing(sb: Super, st: State, k: nat, off: nat)
    requires Shape(sb, st) && k < sb.ninodes && off <= MAXFILE * BSIZE
    ensures Written(sb, st, st, k, off, [])
  {
    hide Ref;
  }

  lemma WrittenGrow(sb: Super, st: State, t: State, u: State, k: nat, off: nat, d: seq<Byte>)
    requires Shape(sb, st) && Written(sb, st, t, k, off, d) && Grows(sb, t, u, k)
    ensures Written(sb, st, u, k, off, d)
  {
    hide Ref;
    forall i: nat | i < sb.ninodes && i != k ensures Untouched(sb, st, u, i) {
      assert Untouched(sb, st, t, i);
    }
    forall o: nat | o < MAXFILE * BSIZE && (BlockOf(sb, st, k, o / BSIZE) != 0 || off <= o < off + |d|)
      ensures BlockOf(sb, u, k, o / BSIZE) != 0
      ensures ByteAt(sb, u, k, o) == if off <= o < off + |d| then d[o - off] else ByteAt(sb, st, k, o)
    {
      assert ByteAt(sb, t, k, o) == if off <= o < off + |d| then d[o - off] else ByteAt(sb, st, k, o);
    }
  }

  lemma PatchByte(blk: Block, p: nat, c: seq<Byte>, q: nat)
    requires p + |c| <= BSIZE && q < BSIZE
    ensures Patch(blk, p, c)[q] == if p <= q < p + |c| then c[q - p] else blk[q]
  {}

  /** One turn of writei's loop, once its block is mapped. */
  lemma WrittenChunk(sb: Super, st: State, t: State, owner: Owners, k: nat, off: nat, d: seq<Byte>, c: seq<Byte>)
    requires Shape(sb, st) && Inv(sb, t, owner) && Written(sb, st, t, k, off, d)
    requires (off + |d|) % BSIZE + |c| <= BSIZE && off + |d| + |c| <= MAXFILE * BSIZE && |c| > 0
    requires BlockOf(sb, t, k, (off + |d|) / BSIZE) != 0
    ensures var bn, p := (off + |d|) / BSIZE, (off + |d|) % BSIZE;
            var blk := At(t.view, BlockOf(sb, t, k, bn));
            Written(sb, st, WithData(sb, t, k, bn, Patch(blk, p, c)), k, off, d + c)
  {
    hide Ref, Forward, Backward, NoHoles, MetaUsed, Patch;
    var bn, p := (off + |d|) / BSIZE, (off + |d|) % BSIZE;
    var blk := At(t.view, BlockOf(sb, t, k, bn));
    var u := WithData(sb, t, k, bn, Patch(blk, p, c));
    forall i: nat | i < sb.ninodes && i != k ensures Untouched(sb, st, u, i) {
      ChunkLeavesOthers(sb, st, t, owner, k, bn, Patch(blk, p, c), i);
    }
    MappedIsOwned(sb, t, owner, k, bn);
    forall o: nat | o < MAXFILE * BSIZE && (BlockOf(sb, st, k, o / BSIZE) != 0 || off <= o < off + |d + c|)
      ensures BlockOf(sb, u, k, o / BSIZE) != 0
      ensures ByteAt(sb, u, k, o) == if off <= o < off + |d + c| then (d + c)[o - off] else ByteAt(sb, st, k, o)
    {
      ChunkByte(sb, st, t, owner, k, off, d, c, o);
    }
  }

  lemma ChunkLeavesOthers(sb: Super, st: State, t: State, owner: Owners, k: nat, bn: nat, data: Block, i: nat)
    requires Shape(sb, st) && Inv(sb, t, owner) && k < sb.ninodes && bn < MAXFILE && BlockOf(sb, t, k, bn) != 0
    requires i < sb.ninodes && i != k && Untouched(sb, st, t, i)
    ensures Untouched(sb, st, WithData(sb, t, k, bn, data), i)
  {
    hide Ref, Forward, Backward, NoHoles, MetaUsed;
    forall cn: nat | cn < MAXFILE && BlockOf(sb, st, i, cn) != 0
      ensures BlockOf(sb, WithData(sb, t, k, bn, data), i, cn) == BlockOf(sb, st, i, cn)
      ensures At(WithData(sb, t, k, bn, data).view, BlockOf(sb, st, i, cn)) == At(st.view, BlockOf(sb, st, i, cn))
    {
      WithDataFrame(sb, t, owner, k, bn, data, i, cn);
    }
  }

  lemma ChunkByte(sb: Super, st: State, t: State, owner: Owners, k: nat, off: nat, d: seq<Byte>, c: seq<Byte>, o: nat)
    requires Shape(sb, st) && Inv(sb, t, owner) && Written(sb, st, t, k, off, d)
    requires (off + |d|) % BSIZE + |c| <= BSIZE && off + |d| + |c| <= MAXFILE * BSIZE && |c| > 0
    requires BlockOf(sb, t, k, (off + |d|) / BSIZE) != 0
    requires o < MAXFILE * BSIZE && (BlockOf(sb, st, k, o / BSIZE) != 0 || off <= o < off + |d| + |c|)
    ensures var bn, p := (off + |d|) / BSIZE, (off + |d|) % BSIZE;
            var u := WithData(sb, t, k, bn, Patch(At(t.view, BlockOf(sb, t, k, bn)), p, c));
            && BlockOf(sb, u, k, o / BSIZE) != 0
            && ByteAt(sb, u, k, o) == if off <= o < off + |d| + |c| then (d + c)[o - off] else ByteAt(sb, st, k, o)
  {
    hide Ref, Inv, Patch, Untouched;
    var bn, p := (off + |d|) / BSIZE, (off + |d|) % BSIZE;
    var blk := At(t.view, BlockOf(sb, t, k, bn));
    if BlockOf(sb, st, k, o / BSIZE) != 0 || off <= o < off + |d| {
      assert ByteAt(sb, t, k, o) == if off <= o < off + |d| then d[o - off] else ByteAt(sb, st, k, o);
    } else {
      assert o / BSIZE == bn;
    }
    WithDataFrame(sb, t, owner, k, bn, Patch(blk, p, c), k, o / BSIZE);
    PatchByte(blk, p, c, o % BSIZE);
  }

  /** writei's last step: extend the size, then iupdate. */
  function Finished(sb: Super, t: State, k: nat, end: nat): State
    requires Shape(sb, t) && k < sb.ninodes && end < WORD_LIMIT
  {
    WithInode(sb, t, k, t.inodes[k].(size := if end > t.inodes[k].size then end else t.inodes[k].size))
  }

  /** The state after file k's inode became ip, in memory and, by iupdate, in its block. */
  function WithInode(sb: Super, t: State, k: nat, ip: Inode): State
    requires k < sb.ninodes && ip.Fits()
  {
    State(t.view[sb.Iblock(k) := PutInode(At(t.view, sb.Iblock(k)), k % IPB, ip)], t.inodes[k := ip])
  }

  /** Writing an inode block changes no reference, no bit and no file data. */
  lemma InodeWriteFrame(sb: Super, t: State, owner: Owners, u: State, k: nat)
    requires Inv(sb, t, owner) && Shape(sb, u) && k < sb.ninodes
    requires forall c: nat :: c != sb.Iblock(k) ==> At(u.view, c) == At(t.view, c)
    requires forall i: nat :: i < sb.ninodes ==> u.inodes[i].addrs == t.inodes[i].addrs
    ensures forall c: nat :: c < sb.size ==> Used(sb, u.view, c) == Used(sb, t.view, c)
    ensures forall x :: ValidSlot(sb, x) ==> Ref(sb, u, x) == Ref(sb, t, x)
  {
    hide Forward, Backward, NoHoles, MetaUsed;
    Regions(sb, 0, k);
    forall c: nat | c < sb.size ensures Used(sb, u.view, c) == Used(sb, t.view, c) {
      Regions(sb, c, k);
    }
    forall x | ValidSlot(sb, x) ensures Ref(sb, u, x) == Ref(sb, t, x) {
      if t.inodes[x.inum].addrs[NDIRECT] != 0 { IndirectIsOwned(sb, t, owner, x.inum); }
    }
  }

  lemma FinishedShape(sb: Super, t: State, k: nat, end: nat)
    requires sb.Valid() && Shape(sb, t) && k < sb.ninodes && end < WORD_LIMIT
    ensures Shape(sb, Finished(sb, t, k, end))
    ensures forall i: nat :: i < sb.ninodes ==> Finished(sb, t, k, end).inodes[i].addrs == t.inodes[i].addrs
    ensures forall i: nat :: i < sb.ninodes && i != k ==> Finished(sb, t, k, end).inodes[i] == t.inodes[i]
    ensures Finished(sb, t, k, end).inodes[k].size == if end > t.inodes[k].size then end else t.inodes[k].size
    ensures forall c: nat :: c != sb.Iblock(k) ==> At(Finished(sb, t, k, end).view, c) == At(t.view, c)
  {
    hide PutInode;
  }

  lemma FinishedInv(sb: Super, st: State, t: State, owner: Owners, k: nat, off: nat, d: seq<Byte>, end: nat)
    requires Shape(sb, st) && NoHoles(sb, st) && Inv(sb, t, owner) && Written(sb, st, t, k, off, d)
    requires off <= st.inodes[k].size && end <= off + |d|
    ensures Inv(sb, Finished(sb, t, k, end), owner)
  {
    hide Finished, Ref, Used, Untouched;
    var u := Finished(sb, t, k, end);
    FinishedShape(sb, t, k, end);
    InodeWriteFrame(sb, t, owner, u, k);
    forall i: nat, bn: nat | i < sb.ninodes && bn < MAXFILE && bn * BSIZE < u.inodes[i].size
      ensures BlockOf(sb, u, i, bn) != 0
    {
      FinishedMapped(sb, st, t, owner, k, off, d, i, bn);
      assert ValidSlot(sb, SlotOf(i, bn));
    }
  }

  lemma FinishedMapped(sb: Super, st: State, t: State, owner: Owners, k: nat, off: nat, d: seq<Byte>, i: nat, bn: nat)
    requires Shape(sb, st) && NoHoles(sb, st) && Inv(sb, t, owner) && Written(sb, st, t, k, off, d)
    requires off <= st.inodes[k].size && i < sb.ninodes && bn < MAXFILE
    requires bn * BSIZE < t.inodes[i].size || (i == k && bn * BSIZE < off + |d|)
    ensures BlockOf(sb, t, i, bn) != 0
  {
    hide Ref, Untouched, Forward, Backward;
    if bn * BSIZE >= t.inodes[i].size {
      assert ByteAt(sb, t, k, bn * BSIZE) == d[bn * BSIZE - off];
    }
  }

  lemma FinishedStored(sb: Super, st: State, t: State, k: nat, off: nat, d: seq<Byte>, end: nat)
    requires sb.Valid() && Shape(sb, st) && Written(sb, st, t, k, off, d)
    requires AllStored(sb, st) && end < WORD_LIMIT
    ensures AllStored(sb, Finished(sb, t, k, end))
  {
    hide Ref, GetInode, PutInode;
    var u := Finished(sb, t, k, end);
    FinishedShape(sb, t, k, end);
    forall i: nat | i < sb.ninodes ensures i in u.inodes && Stored(sb, u, i) {
      Regions(sb, 0, i);
      InodeRoundTrip(At(t.view, sb.Iblock(k)), k % IPB, u.inodes[k], i % IPB);
      if i != k { assert Untouched(sb, st, t, i) && Stored(sb, st, i); }
    }
  }

  lemma FinishedKeeps(sb: Super, t: State, owner: Owners, k: nat, end: nat, i: nat, bn: nat)
    requires Inv(sb, t, owner) && k < sb.ninodes && end < WORD_LIMIT && i < sb.ninodes && bn < MAXFILE
    requires BlockOf(sb, t, i, bn) != 0 && Shape(sb, Finished(sb, t, k, end))
    ensures BlockOf(sb, Finished(sb, t, k, end), i, bn) == BlockOf(sb, t, i, bn)
    ensures At(Finished(sb, t, k, end).view, BlockOf(sb, t, i, bn)) == At(t.view, BlockOf(sb, t, i, bn))
  {
    hide Forward, Backward, MetaUsed, NoHoles, Ref, Finished, Used;
    var u := Finished(sb, t, k, end);
    FinishedShape(sb, t, k, end);
    InodeWriteFrame(sb, t, owner, u, k);
    MappedIsOwned(sb, t, owner, i, bn);
    Regions(sb, 0, k);
  }

  lemma FinishedByte(sb: Super, st: State, t: State, owner: Owners, k: nat, off: nat, d: seq<Byte>, end: nat, o: nat)
    requires Shape(sb, st) && NoHoles(sb, st) && Inv(sb, t, owner) && Written(sb, st, t, k, off, d)
    requires off <= st.inodes[k].size && end < WORD_LIMIT && Shape(sb, Finished(sb, t, k, end))
    requires o < st.inodes[k].size || off <= o < off + |d|
    ensures ByteAt(sb, Finished(sb, t, k, end), k, o) == Splice(Content(sb, st, k), off, d)[o]
  {
    hide Inv, Ref, Finished, Untouched;
    if o < st.inodes[k].size { assert BlockOf(sb, st, k, o / BSIZE) != 0; }
    assert ByteAt(sb, t, k, o) == if off <= o < off + |d| then d[o - off] else ByteAt(sb, st, k, o);
    FinishedKeeps(sb, t, owner, k, end, k, o / BSIZE);
  }

  lemma FinishedOthers(sb: Super, st: State, t: State, owner: Owners, k: nat, off: nat, d: seq<Byte>, end: nat, i: nat)
    requires Shape(sb, st) && NoHoles(sb, st) && Inv(sb, t, owner) && Written(sb, st, t, k, off, d)
    requires end < WORD_LIMIT && Shape(sb, Finished(sb, t, k, end)) && i < sb.ninodes && i != k
    ensures Untouched(sb, st, Finished(sb, t, k, end), i)
  {
    hide Forward, Backward, MetaUsed, NoHoles, Ref, Finished;
    var u := Finished(sb, t, k, end);
    FinishedShape(sb, t, k, end);
    assert Untouched(sb, st, t, i);
    forall bn: nat | bn < MAXFILE && BlockOf(sb, st, i, bn) != 0
      ensures BlockOf(sb, u, i, bn) == BlockOf(sb, st, i, bn)
      ensures At(u.view, BlockOf(sb, st, i, bn)) == At(st.view, BlockOf(sb, st, i, bn))
    {
      FinishedKeeps(sb, t, owner, k, end, i, bn);
    }
  }

  /** writei refines the flat byte sequence: exactly the slice at off is replaced, the file
      ends where its size says, and the other files keep their bytes. */
  lemma FinishedContent(sb: Super, st: State, t: State, owner: Owners, k: nat, off: nat, d: seq<Byte>, end: nat)
    requires Shape(sb, st) && NoHoles(sb, st) && Inv(sb, t, owner) && Written(sb, st, t, k, off, d)
    requires off <= st.inodes[k].size && end <= off + |d|
    requires Inv(sb, Finished(sb, t, k, end), owner)
    ensures Content(sb, Finished(sb, t, k, end), k)
            == Splice(Content(sb, st, k), off, d)[..Larger(st.inodes[k].size, end)]
    ensures forall i: nat :: i < sb.ninodes && i != k ==>
              Content(sb, Finished(sb, t, k, end), i) == Content(sb, st, i)
  {
    hide Forward, Backward, MetaUsed, Ref, Finished, Used;
    var u := Finished(sb, t, k, end);
    FinishedShape(sb, t, k, end);
    var size := u.inodes[k].size;
    forall o: nat | o < size ensures ByteAt(sb, u, k, o) == Splice(Content(sb, st, k), off, d)[o] {
      FinishedByte(sb, st, t, owner, k, off, d, end, o);
    }
    assert Content(sb, u, k) == Splice(Content(sb, st, k), off, d)[..size];
    forall i: nat | i < sb.ninodes && i != k ensures Content(sb, u, i) == Content(sb, st, i) {
      FinishedOthers(sb, st, t, owner, k, off, d, end, i);
      UntouchedContent(sb, st, u, i);
    }
  }

  // ----- truncation -----

  /** itrunc frees the blocks in this order: direct, indirect, the indirect block. */
  function Rank(s: Slot): nat {
    match s
    case Addr(_, i) => if i < NDIRECT then i else MAXFILE
    case Ind(_, j) => NDIRECT + j
  }

  function SlotAt(k: nat, r: nat): Slot {
    if r < NDIRECT then Addr(k, r) else if r < MAXFILE then Ind(k, r - NDIRECT) else Addr(k, NDIRECT)
  }

  /** view is st's with the first r slots of file k freed in the bitmap, and no other change. */
  ghost predicate FreedUpTo(sb: Super, st: State, owner: Owners, view: Disk, k: nat, r: nat) {
    && (forall c: nat :: c < sb.size ==>
          (Used(sb, view, c) <==> Used(sb, st.view, c) && !(c in owner && owner[c].inum == k && Rank(owner[c]) < r)))
    && forall c: nat :: c < sb.bmapstart || sb.datastart <= c ==> At(view, c) == At(st.view, c)
  }

  lemma FreedStep(sb: Super, st: State, owner: Owners, view: Disk, k: nat, r: nat)
    requires Inv(sb, st, owner) && k < sb.ninodes && r <= MAXFILE && FreedUpTo(sb, st, owner, view, k, r)
    ensures var c := Ref(sb, st, SlotAt(k, r));
            if c == 0 then FreedUpTo(sb, st, owner, view, k, r + 1)
            else Used(sb, view, c) && c < sb.size && FreedUpTo(sb, st, owner, MarkFree(sb, view, c), k, r + 1)
  {
    hide Ref, Used, MetaUsed, NoHoles, MarkFree, Forward, Backward;
    var c := Ref(sb, st, SlotAt(k, r));
    RankOwner(sb, st, owner, k, r);
    if c != 0 {
      Regions(sb, c, 0);
      MarkFreeFrame(sb, view, c);
      forall d: nat | d < sb.size
        ensures Used(sb, MarkFree(sb, view, c), d)
           <==> Used(sb, st.view, d) && !(d in owner && owner[d].inum == k && Rank(owner[d]) < r + 1)
      {
        MarkFreeBits(sb, view, c, d);
      }
    }
  }

  /** The block of rank r in file k is the one that slot refers to. */
  lemma RankOwner(sb: Super, st: State, owner: Owners, k: nat, r: nat)
    requires Inv(sb, st, owner) && k < sb.ninodes && r <= MAXFILE
    ensures var c := Ref(sb, st, SlotAt(k, r));
            && (if c == 0 then c !in owner else c in owner && c < sb.size && Used(sb, st.view, c))
            && forall d :: d in owner ==> (owner[d].inum == k && Rank(owner[d]) == r <==> d == c)
  {
    hide Ref, Used, MetaUsed, NoHoles, Rank;
    var c := Ref(sb, st, SlotAt(k, r));
    assert ValidSlot(sb, SlotAt(k, r));
    forall d | d in owner ensures owner[d].inum == k && Rank(owner[d]) == r <==> d == c {
      RankUnique(sb, owner[d], k, r);
    }
  }

  lemma RankUnique(sb: Super, s: Slot, k: nat, r: nat)
    requires ValidSlot(sb, s) && r <= MAXFILE
    ensures s.inum == k && Rank(s) == r <==> s == SlotAt(k, r)
    ensures Rank(s) <= MAXFILE
  {}

  lemma MarkFreeFrame(sb: Super, view: Disk, c: nat)
    ensures forall d: nat :: d != sb.Bblock(c) ==> At(MarkFree(sb, view, c), d) == At(view, d)
  {}

  function NoAddrs(): (a: seq<nat>)
    ensures |a| == NDIRECT + 1 && forall i :: 0 <= i < |a| ==> a[i] == 0
  {
    [0, 0, 0, 0, 0, 0, 0, 0, 0, 0, 0, 0, 0]
  }

  /** What remains of the ownership once file k owns nothing. */
  function Disowned(owner: Owners, k: nat): Owners {
    map b | b in owner && owner[b].inum != k :: owner[b]
  }

  /** The state after itrunc: every block of file k is free, the file is empty. */
  function Truncated(sb: Super, st: State, view: Disk, k: nat): State
    requires Shape(sb, st) && k < sb.ninodes
  {
    WithInode(sb, State(view, st.inodes), k, st.inodes[k].(size := 0, addrs := NoAddrs()))
  }

  lemma TruncatedFrame(sb: Super, st: State, view: Disk, k: nat)
    requires sb.Valid() && Shape(sb, st) && k < sb.ninodes
    ensures var t := Truncated(sb, st, view, k);
            && Shape(sb, t)
            && t.inodes[k] == st.inodes[k].(size := 0, addrs := NoAddrs())
            && (forall i: nat :: i < sb.ninodes && i != k ==> t.inodes[i] == st.inodes[i])
            && (forall c: nat :: c != sb.Iblock(k) ==> At(t.view, c) == At(view, c))
  {
    hide PutInode;
  }

  lemma TruncatedRef(sb: Super, st: State, owner: Owners, view: Disk, k: nat, x: Slot)
    requires Inv(sb, st, owner) && k < sb.ninodes && FreedUpTo(sb, st, owner, view, k, MAXFILE + 1)
    requires ValidSlot(sb, x) && Shape(sb, Truncated(sb, st, view, k))
    ensures Ref(sb, Truncated(sb, st, view, k), x) == if x.inum == k then 0 else Ref(sb, st, x)
  {
    hide Forward, Backward, MetaUsed, NoHoles, Used, GetWord, Truncated;
    TruncatedFrame(sb, st, view, k);
    Regions(sb, 0, k);
    if st.inodes[x.inum].addrs[NDIRECT] != 0 { IndirectIsOwned(sb, st, owner, x.inum); }
  }

  /** itrunc clears exactly the bits of the blocks that the file owned. */
  lemma TruncatedBits(sb: Super, st: State, owner: Owners, view: Disk, k: nat, c: nat)
    requires Inv(sb, st, owner) && k < sb.ninodes && FreedUpTo(sb, st, owner, view, k, MAXFILE + 1) && c < sb.size
    ensures Used(sb, Truncated(sb, st, view, k).view, c)
       <==> Used(sb, st.view, c) && !(c in owner && owner[c].inum == k)
  {
    hide Forward, MetaUsed, NoHoles, Truncated, Ref;
    TruncatedFrame(sb, st, view, k);
    Regions(sb, c, k);
    if c in owner { RankUnique(sb, owner[c], k, 0); }
  }

  lemma TruncatedInv(sb: Super, st: State, owner: Owners, view: Disk, k: nat)
    requires Inv(sb, st, owner) && k < sb.ninodes && FreedUpTo(sb, st, owner, view, k, MAXFILE + 1)
    ensures Inv(sb, Truncated(sb, st, view, k), Disowned(owner, k))
  {
    hide Truncated, Ref, Used, FreedUpTo;
    var t := Truncated(sb, st, view, k);
    TruncatedFrame(sb, st, view, k);
    forall c: nat | c < sb.size
      ensures Used(sb, t.view, c) <==> Used(sb, st.view, c) && !(c in owner && owner[c].inum == k)
    {
      TruncatedBits(sb, st, owner, view, k, c);
    }
    forall x | ValidSlot(sb, x) ensures Ref(sb, t, x) == if x.inum == k then 0 else Ref(sb, st, x) {
      TruncatedRef(sb, st, owner, view, k, x);
    }
    forall i: nat, bn: nat | i < sb.ninodes && bn < MAXFILE && bn * BSIZE < t.inodes[i].size
      ensures BlockOf(sb, t, i, bn) != 0
    {
      assert BlockOf(sb, st, i, bn) != 0;
      assert ValidSlot(sb, SlotOf(i, bn));
    }
  }

  lemma TruncatedStored(sb: Super, st: State, owner: Owners, view: Disk, k: nat)
    requires Inv(sb, st, owner) && k < sb.ninodes && FreedUpTo(sb, st, owner, view, k, MAXFILE + 1)
    requires AllStored(sb, st)
    ensures AllStored(sb, Truncated(sb, st, view, k))
  {
    hide Ref, GetInode, PutInode, Used, Forward, Backward, NoHoles, MetaUsed;
    var t := Truncated(sb, st, view, k);
    TruncatedFrame(sb, st, view, k);
    forall i: nat | i < sb.ninodes ensures i in t.inodes && Stored(sb, t, i) {
      Regions(sb, 0, i);
      InodeRoundTrip(At(view, sb.Iblock(k)), k % IPB, t.inodes[k], i % IPB);
      assert Stored(sb, st, i);
    }
  }

  lemma TruncatedOthers(sb: Super, st: State, owner: Owners, view: Disk, k: nat, i: nat)
    requires Inv(sb, st, owner) && k < sb.ninodes && FreedUpTo(sb, st, owner, view, k, MAXFILE + 1)
    requires i < sb.ninodes && i != k && Shape(sb, Truncated(sb, st, view, k))
    ensures Untouched(sb, st, Truncated(sb, st, view, k), i)
  {
    hide Truncated, Ref, Used, Forward, Backward, NoHoles, MetaUsed;
    var t := Truncated(sb, st, view, k);
    TruncatedFrame(sb, st, view, k);
    Regions(sb, 0, k);
    forall bn: nat | bn < MAXFILE && BlockOf(sb, st, i, bn) != 0
      ensures BlockOf(sb, t, i, bn) == BlockOf(sb, st, i, bn)
      ensures At(t.view, BlockOf(sb, st, i, bn)) == At(st.view, BlockOf(sb, st, i, bn))
    {
      TruncatedRef(sb, st, owner, view, k, SlotOf(i, bn));
      MappedIsOwned(sb, st, owner, i, bn);
    }
  }

  // ----- a disk as mkfs makes it -----

  /** Inode k as ilock reads it from a zero block. */
  function BlankInode(k: nat): (ip: Inode)
    ensures ip == Inode(0, 0, 0, 0, 0, NoAddrs())
  {
    BlankRead(k % IPB);
    GetInode(Zero, k % IPB)
  }

  function BlankInodes(sb: Super): map<nat, Inode> {
    map k: nat | k < sb.ninodes :: BlankInode(k)
  }

  /** Only blocks in front of the data area are in use, and the inode blocks are zero. */
  ghost predicate Formatted(sb: Super, view: Disk) {
    && (forall b: nat :: b < sb.size ==> (Used(sb, view, b) <==> b < sb.datastart))
    && forall c: nat :: c < sb.bmapstart ==> At(view, c) == Zero
  }

  lemma BlankRead(k: nat)
    requires k < IPB
    ensures GetInode(Zero, k) == Inode(0, 0, 0, 0, 0, NoAddrs())
  {
    ZeroWord(16 * k);
    ZeroWord(16 * k + 1);
    ZeroWord(16 * k + 2);
    forall i | 0 <= i <= NDIRECT ensures SlotAddrs(Zero, k)[i] == 0 {
      ZeroWord(16 * k + 3 + i);
    }
    assert SlotAddrs(Zero, k) == NoAddrs();
  }

  lemma FormattedInv(sb: Super, view: Disk)
    requires sb.Valid() && Formatted(sb, view)
    ensures Inv(sb, State(view, BlankInodes(sb)), map[]) && AllStored(sb, State(view, BlankInodes(sb)))
  {
    hide Used, GetInode;
    var st := State(view, BlankInodes(sb));
    assert Shape(sb, st);
    forall s | ValidSlot(sb, s) ensures Ref(sb, st, s) == 0 {
    }
    forall k: nat | k < sb.ninodes ensures Stored(sb, st, k) {
      Regions(sb, 0, k);
    }
  }

  lemma FormatStep(sb: Super, view: Disk, b: nat)
    requires sb.Valid() && b < sb.datastart
    requires forall c: nat :: c < sb.size ==> (Used(sb, view, c) <==> c < b)
    requires forall c: nat :: c < sb.bmapstart ==> At(view, c) == Zero
    ensures forall c: nat :: c < sb.size ==> (Used(sb, MarkUsed(sb, view, b), c) <==> c < b + 1)
    ensures forall c: nat :: c < sb.bmapstart ==> At(MarkUsed(sb, view, b), c) == Zero
  {
    hide Used, SetBit;
    Regions(sb, b, 0);
    forall c: nat | c < sb.size ensures Used(sb, MarkUsed(sb, view, b), c) <==> c < b + 1 {
      MarkUsedBits(sb, view, b, c);
    }
    forall c: nat | c < sb.bmapstart ensures At(MarkUsed(sb, view, b), c) == Zero {
      assert At(view, c) == Zero;
    }
  }

  lemma ZeroFree(sb: Super)
    ensures forall c: nat :: !Used(sb, map[], c)
  {
    forall c: nat ensures !Used(sb, map[], c) {
      ZeroBit(c % BPB);
    }
  }
}
