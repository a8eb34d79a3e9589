/** malloc and free of user/umalloc.c, with the break that sbrk moves.

    The heap is sound as long as all memory that its headers describe lies below the break.
    morecore passes its size to sbrk as an int; a size of 2 GB or more does not fit, and then
    the header describes memory that the process does not have. */
module UserHeap {
  import opened HeapArena

  const HEADER := 16        // sizeof(Header)
  const CHUNK := 4096       // least number of units that morecore asks for

  /** Position f + c on a ring of n elements. */
  function Cyc(f: nat, c: nat, n: nat): nat
    requires f < n && c <= n
    ensures Cyc(f, c, n) < n
  {
    if f + c < n then f + c else f + c - n
  }

  lemma {:induction false} PlaceExists(a: Arena, bp: nat, n: nat) returns (k: nat)
    requires RingOk(a) && 0 < n <= |a.ring| && a.ring[0] < bp && bp !in a.pos
    requires n < |a.ring| ==> bp < a.ring[n]
    ensures Place(a.ring, bp, k)
  {
    assert Elem(a, n - 1);
    if a.ring[n - 1] < bp { k := n - 1; } else { k := PlaceExists(a, bp, n - 1); }
  }

  /** Where the scan of free is, relative to the place k of bp. */
  lemma ScanStep(a: Arena, bp: nat, k: nat, i: nat)
    requires RingOk(a) && Place(a.ring, bp, k) && i < |a.ring| && bp !in a.pos
    ensures Elem(a, i)
    ensures var p, q := a.ring[i], Next(a.ring, i);
            (i == k <==> (p < bp < q) || (p >= q && (bp > p || bp < q)))
  {
    assert Elem(a, i) && Elem(a, 0);
    if i + 1 < |a.ring| { assert Before(a, i, i + 1) && Elem(a, i + 1); }
    if i < k { assert Before(a, i, k) && (i + 1 < k ==> Before(a, i + 1, k)); }
    if k < i { assert Before(a, k, i) && (k + 1 < i ==> Before(a, k + 1, i)) && Elem(a, k + 1); }
    if i > 0 { assert Before(a, 0, i); }
    if k > 0 { assert Before(a, 0, k); }
  }

  class Heap {
    const base: nat
    var ptr: map<nat, nat>
    var size: map<nat, nat>
    var freep: nat              // 0 until the first malloc
    var top: nat                // the process's break, in units of a Header
    ghost var arena: Arena      // what the headers mean

    /** Set up by the first malloc. */
    ghost predicate Ready()
      reads this
    {
      && arena.ptr == ptr && arena.size == size
      && Inv(arena) && |arena.ring| > 0 && arena.ring[0] == base && freep in arena.pos
    }

    /** Between calls; before the first malloc there is no memory at all. */
    ghost predicate Valid()
      reads this
    {
      if freep == 0 then base > 0 && ptr == map[] && size == map[] && arena == Start(base).(ptr := map[], size := map[])
      else Ready()
    }

    constructor (base: nat, top: nat)
      requires 0 < base < top
      ensures Valid() && Backed() && this.base == base && this.top == top && freep == 0
      ensures arena.live == map[] && arena.of == map[]
    {
      this.base, this.top := base, top;
      ptr, size, freep := map[], map[], 0;
      arena := Start(base).(ptr := map[], size := map[]);
    }

    /** All memory that the headers describe lies below the break. */
    ghost predicate Backed()
      requires |arena.ring| > 0
      reads this
    {
      Above(arena, top)
    }

    /** `sbrk`: the old break, or 0 if the process cannot grow. */
    method Sbrk(n: int, memory: bool) returns (r: nat)
      requires top > 0 && n % HEADER == 0
      modifies this`top
      ensures r == (if n > 0 && !memory then 0 else old(top))
      ensures top == if r == 0 then old(top) else Break(old(top), n)
    {
      if n > 0 && !memory { return 0; }
      r := top;
      top := Break(top, n);
    }

    /** The scan of `free`: the list element that bp belongs behind. It terminates
        wherever freep points. */
    method FindPlace(bp: nat) returns (p: nat, ghost k: nat)
      requires Ready() && bp > base && bp !in arena.pos
      ensures Place(arena.ring, bp, k) && p == arena.ring[k] && p in ptr && p in size && ptr[p] == Next(arena.ring, k)
      ensures ptr[p] in ptr && ptr[p] in size
    {
      hide CoverOk, Coalesced;
      k := PlaceExists(arena, bp, |arena.ring|);
      p := freep;
      assert Listed(arena, p);
      ghost var i := arena.pos[p];
      ScanStep(arena, bp, k, i);
      while !(bp > p && bp < ptr[p])
        invariant 0 <= i < |arena.ring| && p == arena.ring[i] && Elem(arena, i)
        decreases if i <= k then k - i else |arena.ring| + k - i
      {
        ScanStep(arena, bp, k, i);
        if p >= ptr[p] && (bp > p || bp < ptr[p]) { break; }
        i := if i + 1 < |arena.ring| then i + 1 else 0;
        p := ptr[p];
        ScanStep(arena, bp, k, i);
      }
      ScanStep(arena, bp, k, i);
      ScanStep(arena, bp, k, if i + 1 < |arena.ring| then i + 1 else 0);
    }

    /** `free`: the block goes back to the list, merged with the free blocks it touches;
        no unit is lost and no other live block changes. freep is the list element in front
        of it. */
    method Free(ap: nat)
      requires Ready() && ap > 0 && ap - 1 in arena.live
      modifies this`ptr, this`size, this`freep, this`arena
      ensures Ready() && arena.live == old(arena.live) - {ap - 1} && arena.of.Keys == old(arena.of.Keys)
      ensures HasFree(arena, old(arena.live)[ap - 1])
      ensures freep < ap - 1 && forall x :: x in old(arena.ring) && x > freep ==> x > ap - 1
    {
      hide Inv, Place, HasFree, SizeRight, PtrRight, Next;
      var bp := ap - 1;
      LiveFacts(arena, bp);
      ghost var k;
      var p;
      p, k := FindPlace(bp);
      ghost var c := Freed(arena, k, bp);
      RightIs(ptr, size, p, bp);
      var next := ptr[p];
      if bp + size[bp] == next {
        size := size[bp := size[bp] + size[next]];
        ptr := ptr[bp := ptr[next]];
      } else {
        ptr := ptr[bp := next];
      }
      if p + size[p] == bp {
        size := size[p := size[p] + size[bp]];
        ptr := ptr[p := ptr[bp]];
      } else {
        ptr := ptr[p := bp];
      }
      PlaceIs(arena, bp, k);
      freep := p;
      arena := c;
    }

    /** `morecore`: at least CHUNK units, recorded from the old break on, go through free; 0 if
        sbrk fails. The process has these units exactly if their size in bytes fits an int. */
    method Morecore(nu: nat, memory: bool) returns (r: nat)
      requires Ready() && Backed() && 0 < nu < 0x1_0000_0000
      modifies this
      ensures Ready() && arena.live == old(arena.live)
      ensures r == 0 <==> SbrkArg(Chunk(nu)) > 0 && !memory
      ensures r == 0 ==> freep == old(freep) && arena == old(arena) && top == old(top)
      ensures r != 0 ==> r == freep && HasFree(arena, nu) && top == Break(old(top), SbrkArg(Chunk(nu)))
      ensures r != 0 ==> arena.of.Keys == old(arena.of.Keys) + Units(old(top), Chunk(nu))
      ensures r != 0 ==> (Backed() <==> HEADER * Chunk(nu) < 0x8000_0000)
    {
      hide Inv, HasFree, Above, SbrkArg, Break;
      var n := if nu < CHUNK then CHUNK else nu;
      ArgParts(n);
      TopPositive(arena, top);
      var hp := Sbrk(SbrkArg(n), memory);
      if hp == 0 { return 0; }
      GrownKeeps(arena, hp, n);
      GrownUnits(arena, hp, n);
      ghost var a := arena;
      size := size[hp := n];
      arena := Grown(arena, hp, n);
      Free(hp + 1);
      FreeEnough(arena, n, nu);
      ListPositive(arena, freep);
      assert a.live[hp := n] - {hp} == a.live;
      BackedIff(a, hp, n, arena, top);
      return freep;
    }

    /** Hand out block p, the successor of prevp at position i, or its last n units. */
    method Carve(prevp: nat, p: nat, n: nat, ghost i: nat) returns (r: nat)
      requires Ready() && 0 < i < |arena.ring| && p == arena.ring[i] && prevp == arena.ring[i - 1] && Elem(arena, i)
      requires 0 < n <= size[p]
      modifies this`ptr, this`size, this`freep, this`arena
      ensures Ready() && freep == prevp && arena.of.Keys == old(arena.of.Keys)
      ensures r > 0 && r - 1 !in old(arena.live) && arena.live == old(arena.live)[r - 1 := n]
      ensures r - 1 == p + old(size[p]) - n
    {
      hide Inv, Elem;
      Neighbour(arena, i);
      var h := p;
      if size[p] == n {
        TakenFacts(arena, i);
        ptr := ptr[prevp := ptr[p]];
        arena := Taken(arena, i);
      } else {
        SplitFacts(arena, i, n);
        ghost var b := Split(arena, i, n);
        size := size[p := size[p] - n];
        h := p + size[p];
        size := size[h := n];
        arena := b;
      }
      freep := prevp;
      return h + 1;
    }

    /** malloc's first call: an empty list. */
    method SetUp(ghost n: nat)
      requires Valid() && freep == 0
      modifies this`ptr, this`size, this`freep, this`arena
      ensures Ready() && arena.live == old(arena.live) && arena.of == old(arena.of)
      ensures !HasFree(old(arena), n) && !HasFree(arena, n)
      ensures old(Backed()) ==> Backed()
    {
      StartInv(base);
      NoFreeAtStart(base, n);
      ptr, size := map[base := base], map[base := 0];
      freep := base;
      arena := Start(base);
    }

    /** `malloc`: a block of Need(nbytes) units that overlaps no live block, cut from the
        free list or from what morecore records; 0 exactly if the list has no such block and
        sbrk fails. It terminates with at most one call of morecore, made exactly if no free
        block fits, after which the heap is backed exactly if the size passed to sbrk was. The
        free block is the first that fits behind freep, and its last units are handed out. */
    method Malloc(nbytes: nat, memory: bool) returns (r: nat, ghost calls: nat)
      requires Valid() && Backed() && nbytes < 0x1_0000_0000
      modifies this
      ensures Ready() && calls == if HasFree(old(arena), Need(nbytes)) then 0 else 1
      ensures calls == 0 ==> arena.of.Keys == old(arena.of.Keys) && top == old(top) && Backed()
      ensures r == 0 <==> calls == 1 && SbrkArg(Chunk(Need(nbytes))) > 0 && !memory
      ensures r == 0 ==> arena.live == old(arena.live) && arena.of == old(arena.of) && top == old(top) && Backed()
      ensures r != 0 ==> r - 1 !in old(arena.live) && arena.live == old(arena.live)[r - 1 := Need(nbytes)]
      ensures calls == 0 ==> exists c: nat :: NextFit(old(arena), old(freep), c, Need(nbytes), r, freep)
      ensures r != 0 && calls == 1 ==>
                && arena.of.Keys == old(arena.of.Keys) + Units(old(top), Chunk(Need(nbytes)))
                && top == Break(old(top), SbrkArg(Chunk(Need(nbytes))))
                && (Backed() <==> nbytes <= 0x7FFF_FFE0)
    {
      hide Inv, HasFree, Elem, Small, Units, Chunk, Need, Above, Start, SbrkArg, Break;
      hide NextFit, Taken, Split, Extended, Cyc;
      var nunits := Need(nbytes);
      NeedBound(nbytes);
      SoundRequests(nbytes);
      calls := 0;
      var prevp := freep;
      if prevp == 0 {
        SetUp(nunits);
        prevp := freep;
      }
      ghost var f, c := arena.pos[freep], 0;
      ScanStart(arena, freep, nunits);
      var p := ptr[prevp];
      while true
        invariant Ready() && 0 <= f < |arena.ring| && freep == arena.ring[f] && 0 <= c < |arena.ring|
        invariant prevp == arena.ring[Cyc(f, c, |arena.ring|)] && p == arena.ring[Cyc(f, c + 1, |arena.ring|)]
        invariant Small(arena, f, c, nunits) && 0 <= calls <= 1 && arena.live == old(arena.live)
        invariant calls == 0 ==> arena.of == old(arena.of) && top == old(top) && Backed()
        invariant calls == 0 ==> (HasFree(old(arena), nunits) <==> HasFree(arena, nunits))
        invariant calls == 0 && HasFree(arena, nunits) ==> arena == old(arena) && freep == old(freep)
        invariant calls == 1 ==> HasFree(arena, nunits) && Extended(old(arena), old(top), arena, top, nunits, memory)
        decreases 1 - calls, |arena.ring| - c
      {
        ghost var i := Cyc(f, c + 1, |arena.ring|);
        ScanNext(arena, f, c, nunits);
        if size[p] >= nunits {
          FitsHere(arena, i, nunits);
          ghost var a := arena;
          r := Carve(prevp, p, nunits, i);
          SameBacking(a, arena, top);
          NextFitIs(a, f, c, nunits, r, freep);
          if calls == 1 { ExtendedStays(old(arena), old(top), a, arena, top, nunits, memory); }
          return;
        }
        if p == freep {
          calls := calls + 1;
          p := Morecore(nunits, memory);
          if p == 0 { return 0, calls; }
          ExtendedIs(old(arena), old(top), arena, top, nunits, memory);
          f, c := arena.pos[freep], 0;
          ScanStart(arena, freep, nunits);
        } else {
          c := c + 1;
        }
        prevp, p := p, ptr[p];
      }
    }
  }

  // ----- the break -----

  /** The int that sbrk gets for nu units: the low 32 bits of the size in bytes, signed. */
  function SbrkArg(nu: nat): int {
    var x := HEADER * nu % 0x1_0000_0000;
    if x < 0x8000_0000 then x else x - 0x1_0000_0000
  }

  /** growproc's new size, in units; one that would be negative wraps around, and uvmdealloc
      ignores it. */
  function Break(top: nat, n: int): nat {
    if top + n / HEADER < 0 then top else top + n / HEADER
  }

  lemma ArgParts(nu: nat)
    ensures SbrkArg(nu) % HEADER == 0 && SbrkArg(nu) <= HEADER * nu
    ensures SbrkArg(nu) == HEADER * nu <==> HEADER * nu < 0x8000_0000
  {
    var q := HEADER * nu / 0x1_0000_0000;
    assert HEADER * nu % 0x1_0000_0000 == HEADER * (nu - 0x1000_0000 * q);
  }

  /** sbrk provides the units that morecore records exactly if their size fits an int. */
  lemma BreakCovers(top: nat, nu: nat)
    requires nu > 0
    ensures top + nu <= Break(top, SbrkArg(nu)) <==> HEADER * nu < 0x8000_0000
  {
    hide SbrkArg;
    ArgParts(nu);
  }

  lemma BackedIff(a: Arena, hp: nat, n: nat, b: Arena, top: nat)
    requires |a.ring| > 0 && |b.ring| > 0 && b.ring[0] == a.ring[0] && Above(a, hp) && n > 0
    requires b.of.Keys == a.of.Keys + Units(hp, n) && top == Break(hp, SbrkArg(n))
    ensures Above(b, top) <==> HEADER * n < 0x8000_0000
  {
    BreakCovers(hp, n);
    hide SbrkArg, Break;
    assert hp + n - 1 in Units(hp, n);
  }

  lemma SameBacking(a: Arena, b: Arena, top: nat)
    requires |a.ring| > 0 && |b.ring| > 0 && b.ring[0] == a.ring[0] && b.of.Keys == a.of.Keys
    ensures Above(b, top) <==> Above(a, top)
  {}

  lemma TopPositive(a: Arena, top: nat)
    requires |a.ring| > 0 && Above(a, top)
    ensures top > 0
  {}

  lemma FitsHere(a: Arena, i: nat, n: nat)
    requires 0 < i < |a.ring| && a.ring[i] in a.size && a.size[a.ring[i]] >= n
    ensures HasFree(a, n)
  {
    assert FreeAt(a, i, n);
  }

  lemma NeedBound(nbytes: nat)
    requires nbytes < 0x1_0000_0000
    ensures Need(nbytes) <= 0x1000_0001
  {}

  /** The requests that malloc can serve soundly from new memory. */
  lemma SoundRequests(nbytes: nat)
    requires nbytes < 0x1_0000_0000
    ensures HEADER * Chunk(Need(nbytes)) < 0x8000_0000 <==> nbytes <= 0x7FFF_FFE0
    ensures SbrkArg(Chunk(Need(nbytes))) == HEADER * Chunk(Need(nbytes)) <==> nbytes <= 0x7FFF_FFE0
  {
    ArgParts(Chunk(Need(nbytes)));
  }

  lemma HugeNumbers(top: nat)
    ensures var n := Need(0xFFFF_FFFF);
            n == 0x1000_0001 && Chunk(n) == n && SbrkArg(n) > 0 && Break(top, SbrkArg(n)) == top + 1
  {}

  /** malloc(0xFFFFFFFF) in a new process moves the break by one unit and hands out a block
      that ends far above it. */
  method HugeRequest(base: nat, top: nat) returns (r: nat, size: nat, brk: nat)
    requires 0 < base < top
    ensures r > 0 && size == 0x1000_0001 && brk == top + 1 && r - 1 + size > brk
  {
    hide Inv, HasFree, Units, Above, Need, Chunk, SbrkArg, Break;
    HugeNumbers(top);
    var h := new Heap(base, top);
    assert !HasFree(h.arena, Need(0xFFFF_FFFF)) by { NoFreeAtStart(base, Need(0xFFFF_FFFF)); }
    ghost var calls;
    r, calls := h.Malloc(0xFFFF_FFFF, true);
    LiveFacts(h.arena, r - 1);
    size, brk := h.size[r - 1], h.top;
    NewBlock(h.arena, r - 1, top, size);
  }

  /** All memory is above the old break, so the block is. */
  lemma NewBlock(a: Arena, p: nat, top: nat, n: nat)
    requires Inv(a) && p in a.live && a.live[p] == n > 0 && a.of.Keys == Units(top, n)
    ensures p >= top
  {
    assert LiveOk(a, p);
    assert IsBlock(a, p) && In(a, p, p);
  }

  /** Units for nbytes bytes and the header. */
  function Need(nbytes: nat): (n: nat)
    ensures n > 0 && HEADER * (n - 1) >= nbytes
  {
    (nbytes + HEADER - 1) / HEADER + 1
  }

  function Chunk(n: nat): nat {
    if n < CHUNK then CHUNK else n
  }

  lemma Neighbour(a: Arena, i: nat)
    requires Inv(a) && 0 < i < |a.ring| && Elem(a, i)
    ensures a.ring[i] in a.ptr && a.ring[i] in a.size && a.ring[i] !in a.live
    ensures a.ring[i - 1] in a.pos && a.pos[a.ring[i - 1]] == i - 1
  {
    assert Elem(a, i - 1);
    assert a.ring[i] in a.live ==> LiveOk(a, a.ring[i]);
  }

  lemma TakenFacts(a: Arena, i: nat)
    requires Inv(a) && 0 < i < |a.ring| && Elem(a, i)
    ensures Inv(Taken(a, i)) && |Taken(a, i).ring| > 0 && Taken(a, i).ring[0] == a.ring[0]
    ensures a.ring[i - 1] in Taken(a, i).pos
  {
    hide Inv;
    Neighbour(a, i);
    TakenKeeps(a, i);
  }

  lemma SplitFacts(a: Arena, i: nat, n: nat)
    requires Inv(a) && 0 < i < |a.ring| && Elem(a, i) && 0 < n < a.size[a.ring[i]]
    ensures Inv(Split(a, i, n)) && Split(a, i, n).of.Keys == a.of.Keys && a.ring[i] + a.size[a.ring[i]] - n !in a.live
  {
    SplitKeeps(a, i, n);
    InsideFree(a, i, a.ring[i] + a.size[a.ring[i]] - n);
  }

  /** The c elements after position f have fewer than n units. */
  ghost predicate Small(a: Arena, f: nat, c: nat, n: nat) {
    f < |a.ring| && c <= |a.ring| && forall d :: 1 <= d <= c ==> !FreeAt(a, Cyc(f, d, |a.ring|), n)
  }

  /** The block behind r is the end of the first list element behind freep that has n units;
      c elements in between have not, and prev is the last of them, or freep. */
  ghost predicate NextFit(a: Arena, freep: nat, c: nat, n: nat, r: nat, prev: nat) {
    && freep in a.pos && a.pos[freep] < |a.ring| && c < |a.ring| && Small(a, a.pos[freep], c, n)
    && prev == a.ring[Cyc(a.pos[freep], c, |a.ring|)]
    && var i := Cyc(a.pos[freep], c + 1, |a.ring|);
       FreeAt(a, i, n) && r - 1 == a.ring[i] + a.size[a.ring[i]] - n
  }

  /** The heap grew by what morecore records for n units. */
  ghost predicate Extended(a: Arena, top: nat, b: Arena, top': nat, n: nat, memory: bool)
    requires |b.ring| > 0
  {
    && !HasFree(a, n) && b.of.Keys == a.of.Keys + Units(top, Chunk(n))
    && top' == Break(top, SbrkArg(Chunk(n))) && !(SbrkArg(Chunk(n)) > 0 && !memory)
    && (Above(b, top') <==> HEADER * Chunk(n) < 0x8000_0000)
  }

  lemma ExtendedIs(a: Arena, top: nat, b: Arena, top': nat, n: nat, memory: bool)
    requires |b.ring| > 0 && !HasFree(a, n) && b.of.Keys == a.of.Keys + Units(top, Chunk(n))
    requires top' == Break(top, SbrkArg(Chunk(n))) && !(SbrkArg(Chunk(n)) > 0 && !memory)
    requires Above(b, top') <==> HEADER * Chunk(n) < 0x8000_0000
    ensures Extended(a, top, b, top', n, memory)
  {}

  lemma ExtendedStays(a: Arena, top: nat, b: Arena, c: Arena, top': nat, n: nat, memory: bool)
    requires |b.ring| > 0 && |c.ring| > 0 && Extended(a, top, b, top', n, memory)
    requires c.of.Keys == b.of.Keys && (Above(c, top') <==> Above(b, top'))
    ensures !HasFree(a, n) && c.of.Keys == a.of.Keys + Units(top, Chunk(n))
    ensures top' == Break(top, SbrkArg(Chunk(n))) && !(SbrkArg(Chunk(n)) > 0 && !memory)
    ensures Above(c, top') <==> HEADER * Chunk(n) < 0x8000_0000
  {}

  lemma NextFitIs(a: Arena, f: nat, c: nat, n: nat, r: nat, prev: nat)
    requires Inv(a) && f < |a.ring| && c < |a.ring| && Small(a, f, c, n) && prev == a.ring[Cyc(f, c, |a.ring|)]
    requires var i := Cyc(f, c + 1, |a.ring|);
             0 < i && a.ring[i] in a.size && a.size[a.ring[i]] >= n && r - 1 == a.ring[i] + a.size[a.ring[i]] - n
    ensures NextFit(a, a.ring[f], c, n, r, prev)
  {
    assert Elem(a, f);
  }

  lemma PlaceIs(a: Arena, bp: nat, k: nat)
    requires Inv(a) && Place(a.ring, bp, k)
    ensures a.ring[k] < bp && forall x :: x in a.ring && x > a.ring[k] ==> x > bp
  {
    forall i | 0 <= i < |a.ring| && a.ring[i] > a.ring[k] ensures a.ring[i] > bp {
      assert i < k ==> Before(a, i, k);
      assert i > k + 1 ==> Before(a, k + 1, i);
    }
  }

  lemma NoFreeAtStart(base: nat, n: nat)
    ensures !HasFree(Start(base), n) && !HasFree(Start(base).(ptr := map[], size := map[]), n)
  {}

  lemma ScanStart(a: Arena, freep: nat, n: nat)
    requires Inv(a) && freep in a.pos
    ensures var f := a.pos[freep];
            && f < |a.ring| && freep == a.ring[f] && freep in a.ptr && a.ptr[freep] == a.ring[Cyc(f, 1, |a.ring|)]
            && freep == a.ring[Cyc(f, 0, |a.ring|)] && Small(a, f, 0, n)
  {
    assert Listed(a, freep) && Elem(a, a.pos[freep]);
  }

  /** Malloc's scan looks at the element c + 1 places behind position f. */
  lemma ScanNext(a: Arena, f: nat, c: nat, n: nat)
    requires Inv(a) && Small(a, f, c, n) && c < |a.ring| && n > 0
    ensures var len, i := |a.ring|, Cyc(f, c + 1, |a.ring|);
            var p := a.ring[i];
            && Elem(a, i) && p in a.ptr && p in a.size
            && (p == a.ring[f] <==> c + 1 == len)
            && (c + 1 < len ==> a.ptr[p] == a.ring[Cyc(f, c + 2, len)])
            && (a.size[p] >= n ==> i > 0 && Cyc(f, c, len) == i - 1)
            && (a.size[p] < n && c + 1 < len ==> Small(a, f, c + 1, n))
            && (a.size[p] < n && c + 1 == len ==> !HasFree(a, n))
  {
    var i := Cyc(f, c + 1, |a.ring|);
    assert Elem(a, i) && Elem(a, f);
    if a.size[a.ring[i]] < n && c + 1 == |a.ring| { NoneFits(a, f, n); }
  }

  lemma NoneFits(a: Arena, f: nat, n: nat)
    requires f < |a.ring| && Small(a, f, |a.ring| - 1, n) && !FreeAt(a, f, n)
    ensures !HasFree(a, n)
  {
    forall g: nat ensures !FreeAt(a, g, n) {
      if g < |a.ring| && g != f {
        assert !FreeAt(a, Cyc(f, if g > f then g - f else g + |a.ring| - f, |a.ring|), n);
      }
    }
  }

  /** The arena after malloc has set up base. */
  function Start(base: nat): Arena {
    Arena(map[base := base], map[base := 0], [base], map[base := 0], map[], map[])
  }

  lemma StartInv(base: nat)
    requires base > 0
    ensures Inv(Start(base))
  {
    var a := Start(base);
    forall i | 0 <= i < |a.ring| ensures Elem(a, i) {}
    forall p | p in a.pos ensures Listed(a, p) {}
  }

  function Units(g: nat, n: nat): set<nat> {
    set u: nat | g <= u < g + n && Spans(g, n, u)
  }

  lemma GrownUnits(a: Arena, g: nat, n: nat)
    ensures Grown(a, g, n).of.Keys == a.of.Keys + Units(g, n)
  {}

  lemma ListPositive(a: Arena, p: nat)
    requires Inv(a) && p in a.pos
    ensures p > 0
  {
    assert Listed(a, p);
    if a.pos[p] > 0 { assert Before(a, 0, a.pos[p]); }
  }

  lemma FreeEnough(a: Arena, n: nat, m: nat)
    requires HasFree(a, n) && m <= n
    ensures HasFree(a, m)
  {
    var i: nat :| FreeAt(a, i, n);
    assert FreeAt(a, i, m);
  }

  lemma LiveFacts(a: Arena, bp: nat)
    requires Inv(a) && bp in a.live
    ensures |a.ring| > 0 && bp > a.ring[0] && bp !in a.pos && bp in a.size && a.size[bp] == a.live[bp] > 0
  {
    assert LiveOk(a, bp);
  }

  /** What the two ifs of free do to the headers, from the block p that bp belongs behind. */
  function SizeRight(ptr: map<nat, nat>, size: map<nat, nat>, p: nat, bp: nat): map<nat, nat>
    requires p in ptr && bp in size && ptr[p] in size
  {
    if bp + size[bp] == ptr[p] then size[bp := size[bp] + size[ptr[p]]] else size
  }

  function PtrRight(ptr: map<nat, nat>, size: map<nat, nat>, p: nat, bp: nat): map<nat, nat>
    requires p in ptr && bp in size && ptr[p] in ptr
  {
    if bp + size[bp] == ptr[p] then ptr[bp := ptr[ptr[p]]] else ptr[bp := ptr[p]]
  }

  lemma RightIs(ptr: map<nat, nat>, size: map<nat, nat>, p: nat, bp: nat)
    requires p in ptr && bp in size && ptr[p] in ptr && ptr[p] in size
    ensures bp + size[bp] == ptr[p] ==>
              && SizeRight(ptr, size, p, bp) == size[bp := size[bp] + size[ptr[p]]]
              && PtrRight(ptr, size, p, bp) == ptr[bp := ptr[ptr[p]]]
    ensures bp + size[bp] != ptr[p] ==>
              SizeRight(ptr, size, p, bp) == size && PtrRight(ptr, size, p, bp) == ptr[bp := ptr[p]]
  {}

  /** The arena after free, which has linked bp in and merged it with its neighbours. */
  lemma Freed(a: Arena, k: nat, bp: nat) returns (c: Arena)
    requires Inv(a) && bp in a.live && Place(a.ring, bp, k) && bp in a.size
    requires var p := a.ring[k];
             && p in a.ptr && p in a.size && a.ptr[p] in a.ptr && a.ptr[p] in a.size
             && a.ptr[p] == Next(a.ring, k)
    ensures Inv(c) && c.live == a.live - {bp} && c.of.Keys == a.of.Keys && |c.ring| > 0 && c.ring[0] == a.ring[0]
    ensures a.ring[k] in c.pos && HasFree(c, a.live[bp])
    ensures var p := a.ring[k];
            var s1, p1 := SizeRight(a.ptr, a.size, p, bp), PtrRight(a.ptr, a.size, p, bp);
            && p in s1
            && c.size == (if p + s1[p] == bp then s1[p := s1[p] + s1[bp]] else s1)
            && c.ptr == (if p + s1[p] == bp then p1[p := p1[bp]] else p1[p := bp])
  {
    hide Inserted, RingOk, CoverOk, Coalesced, HasFree;
    LiveFacts(a, bp);
    InsertKeeps(a, k, bp);
    var b := MergedRight(a, Inserted(a, k, bp), k, bp);
    c := MergedLeft(b, k, bp, a.live[bp]);
    assert b.size == SizeRight(a.ptr, a.size, a.ring[k], bp);
    var p1 := PtrRight(a.ptr, a.size, a.ring[k], bp);
    assert b.ptr == p1[a.ring[k] := bp];
    assert p1[a.ring[k] := bp][a.ring[k] := p1[bp]] == p1[a.ring[k] := p1[bp]];
  }

  /** Some free block has at least n units. */
  ghost predicate HasFree(a: Arena, n: nat) {
    exists i: nat :: FreeAt(a, i, n)
  }

  ghost predicate FreeAt(a: Arena, i: nat, n: nat) {
    0 < i < |a.ring| && a.ring[i] in a.size && a.size[a.ring[i]] >= n
  }

  lemma InsertShape(a: Arena, k: nat, bp: nat)
    requires k < |a.ring| && a.ring[k] in a.ptr && a.ring[k] != bp
    ensures var b := Inserted(a, k, bp);
            && |b.ring| == |a.ring| + 1 && b.ring[k] == a.ring[k] && b.ring[k + 1] == bp && b.ring[0] == a.ring[0]
            && (k + 1 < |a.ring| ==> b.ring[k + 2] == a.ring[k + 1])
            && b.size == a.size && b.live == a.live - {bp} && b.of == a.of
            && b.ptr == a.ptr[bp := a.ptr[a.ring[k]]][a.ring[k] := bp]
  {}

  lemma MergeShape(a: Arena, i: nat)
    requires i + 1 < |a.ring| && a.ring[i] in a.size && a.ring[i + 1] in a.size && a.ring[i + 1] in a.ptr
    ensures var b := Merged(a, i);
            && |b.ring| == |a.ring| - 1 && b.live == a.live && b.of.Keys == a.of.Keys
            && (forall j :: 0 <= j <= i ==> b.ring[j] == a.ring[j])
            && b.size == a.size[a.ring[i] := a.size[a.ring[i]] + a.size[a.ring[i + 1]]]
            && b.ptr == a.ptr[a.ring[i] := a.ptr[a.ring[i + 1]]]
  {}

  /** free's first if: bp, just linked in behind position k, swallows the next block if it touches it. */
  lemma MergedRight(a: Arena, b: Arena, k: nat, bp: nat) returns (c: Arena)
    requires Inv(a) && bp in a.live && Place(a.ring, bp, k) && a.ring[k] in a.ptr && bp in a.size
    requires b == Inserted(a, k, bp) && Weak(b) && Coalesced(b, k, k + 1)
    ensures Weak(c) && Coalesced(c, k, |c.ring|) && c.live == a.live - {bp} && c.of.Keys == a.of.Keys
    ensures k + 1 < |c.ring| && c.ring[k] == a.ring[k] && c.ring[k + 1] == bp && c.ring[0] == a.ring[0]
    ensures bp in c.size && c.size[bp] >= a.size[bp]
    ensures var p, next := a.ring[k], a.ptr[a.ring[k]];
            if bp + a.size[bp] == next then
              && next in a.size && next in a.ptr
              && c.size == a.size[bp := a.size[bp] + a.size[next]] && c.ptr == a.ptr[bp := a.ptr[next]][p := bp]
            else c.size == a.size && c.ptr == a.ptr[bp := next][p := bp]
  {
    hide Inserted, Merged, RingOk, CoverOk;
    InsertShape(a, k, bp);
    WeakElem(a, k);
    WeakElem(b, k + 1);
    NotBase(a, k, bp);
    if k + 1 < |a.ring| && bp + a.size[bp] == a.ring[k + 1] {
      WeakElem(a, k + 1);
      WeakElem(b, k + 2);
      MergeKeeps(b, k + 1);
      MergeCoalesced(b, k + 1, k);
      MergeShape(b, k + 1);
      c := Merged(b, k + 1);
      assert c.ptr == a.ptr[bp := a.ptr[a.ring[k + 1]]][a.ring[k] := bp];
    } else {
      c := b;
      assert k + 2 < |b.ring| ==> !Touches(b, k + 1);
    }
  }

  lemma NotBase(a: Arena, k: nat, bp: nat)
    requires Weak(a) && bp in a.live && Place(a.ring, bp, k)
    ensures bp > a.ring[0] && a.ring[k] != bp && bp in a.size && a.size[bp] == a.live[bp] > 0
    ensures Next(a.ring, k) == bp + a.size[bp] ==> k + 1 < |a.ring|
  {
    assert LiveOk(a, bp);
  }

  lemma WeakElem(a: Arena, i: nat)
    requires Weak(a) && i < |a.ring|
    ensures Elem(a, i)
  {}

  /** free's second if: position k swallows bp behind it if it touches it. */
  lemma MergedLeft(b: Arena, k: nat, bp: nat, n: nat) returns (c: Arena)
    requires Weak(b) && Coalesced(b, k, |b.ring|) && k + 1 < |b.ring| && b.ring[k + 1] == bp
    requires bp in b.size && b.size[bp] >= n
    ensures Inv(c) && c.live == b.live && c.of.Keys == b.of.Keys && |c.ring| > 0 && c.ring[0] == b.ring[0]
    ensures b.ring[k] in b.size && b.ring[k] in c.pos && bp in b.ptr && HasFree(c, n)
    ensures if b.ring[k] + b.size[b.ring[k]] == bp then
              c.size == b.size[b.ring[k] := b.size[b.ring[k]] + b.size[bp]] && c.ptr == b.ptr[b.ring[k] := b.ptr[bp]]
            else c.size == b.size && c.ptr == b.ptr
  {
    assert Elem(b, k) && Elem(b, k + 1) && Before(b, k, k + 1);
    if Touches(b, k) {
      MergeKeeps(b, k);
      MergeCoalesced(b, k, |b.ring|);
      MergeShape(b, k);
      c := Merged(b, k);
      assert FreeAt(c, k, n);
    } else {
      c := b;
      assert FreeAt(c, k + 1, n);
    }
  }
}
