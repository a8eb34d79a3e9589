/** What the headers of malloc and free mean: a circular list of free blocks in address
    order, live blocks, and every unit of memory in exactly one of them. Addresses and
    sizes are in units of a Header. */
module HeapArena {
  /** The headers in memory, and how they are meant: ring lists the free blocks from base
      on, pos inverts it, live holds the blocks handed out, and `of` says for every unit
      of memory obtained so far in which block it lies. */
  datatype Arena = Arena(
    ptr: map<nat, nat>,     // s.ptr
    size: map<nat, nat>,    // s.size
    ring: seq<nat>,
    pos: map<nat, nat>,
    live: map<nat, nat>,
    of: map<nat, nat>)

  /** The list element after position i. */
  function Next(ring: seq<nat>, i: nat): nat
    requires i < |ring|
  {
    if i + 1 < |ring| then ring[i + 1] else ring[0]
  }

  /** ring[i] is linked to its successor; only the first element, base, is empty. */
  ghost predicate Elem(a: Arena, i: nat)
    requires i < |a.ring|
  {
    var p := a.ring[i];
    && p in a.ptr && p in a.size && a.ptr[p] == Next(a.ring, i) && (a.size[p] == 0 <==> i == 0)
    && p in a.pos && a.pos[p] == i
  }

  ghost predicate Before(a: Arena, i: nat, j: nat)
    requires i < |a.ring| && j < |a.ring|
  {
    a.ring[i] in a.size && a.ring[i] + a.size[a.ring[i]] <= a.ring[j]
  }

  ghost predicate Listed(a: Arena, p: nat) {
    p in a.pos ==> a.pos[p] < |a.ring| && a.ring[a.pos[p]] == p
  }

  /** A circular list in address order, without overlaps. */
  ghost predicate RingOk(a: Arena) {
    && |a.ring| > 0 && a.ring[0] > 0
    && (forall i :: 0 <= i < |a.ring| ==> Elem(a, i))
    && (forall i, j :: 0 <= i < j < |a.ring| ==> Before(a, i, j))
    && forall p :: p in a.pos ==> Listed(a, p)
  }

  ghost predicate Touches(a: Arena, i: nat)
    requires i + 1 < |a.ring|
  {
    a.ring[i] in a.size && a.ring[i] + a.size[a.ring[i]] == a.ring[i + 1]
  }

  /** No two neighbours touch, except perhaps at x or y. */
  ghost predicate Coalesced(a: Arena, x: nat, y: nat) {
    forall i :: 0 <= i < |a.ring| - 1 && i != x && i != y ==> !Touches(a, i)
  }

  ghost predicate IsBlock(a: Arena, p: nat) {
    p in a.live || (p in a.pos && a.pos[p] > 0)
  }

  /** u is a unit of block p. */
  ghost predicate In(a: Arena, u: nat, p: nat) {
    p in a.size && p <= u < p + a.size[p]
  }

  ghost predicate LiveOk(a: Arena, p: nat)
    requires |a.ring| > 0
  {
    p in a.live ==> p > a.ring[0] && p in a.size && a.size[p] == a.live[p] > 0 && p !in a.pos
  }

  /** Every unit obtained lies in exactly one block, live or free, and blocks consist of
      such units: nothing is lost, and no two blocks overlap. */
  ghost predicate CoverOk(a: Arena)
    requires |a.ring| > 0
  {
    && (forall p :: p in a.live ==> LiveOk(a, p))
    && (forall u :: u in a.of ==> IsBlock(a, a.of[u]) && In(a, u, a.of[u]))
    && forall p: nat, u: nat :: IsBlock(a, p) && In(a, u, p) ==> u in a.of && a.of[u] == p
  }

  ghost predicate Weak(a: Arena) {
    RingOk(a) && CoverOk(a)
  }

  /** The invariant: between calls the free list is coalesced too. */
  ghost predicate Inv(a: Arena) {
    Weak(a) && Coalesced(a, |a.ring|, |a.ring|)
  }

  lemma NotEmpty(a: Arena, p: nat)
    requires Weak(a) && IsBlock(a, p)
    ensures p in a.size && a.size[p] > 0
  {
    if p in a.live { assert LiveOk(a, p); } else { assert Listed(a, p) && Elem(a, a.pos[p]); }
  }

  /** Blocks in use do not overlap each other or the free blocks. */
  lemma NoOverlap(a: Arena, p: nat, q: nat)
    requires Inv(a) && IsBlock(a, p) && IsBlock(a, q) && p != q && p in a.size && q in a.size
    ensures p + a.size[p] <= q || q + a.size[q] <= p
  {
    NotEmpty(a, p);
    NotEmpty(a, q);
    var u := if p < q then q else p;
    if p + a.size[p] > q && q + a.size[q] > p {
      assert In(a, u, p) && In(a, u, q);
      assert false;
    }
  }

  /** The free list in address order, with a gap before every element. */
  lemma AddressOrder(a: Arena, i: nat, j: nat)
    requires Inv(a) && i < j < |a.ring|
    ensures a.ring[i] in a.size && a.ring[j] in a.size && a.ring[i] + a.size[a.ring[i]] < a.ring[j]
  {
    assert Elem(a, i) && Elem(a, j) && Elem(a, i + 1) && Before(a, i, i + 1) && !Touches(a, i);
    if i + 1 < j { assert Before(a, i + 1, j); }
  }

  // ----- linking a block in, and merging two neighbours -----

  function Insert(s: seq<nat>, k: nat, x: nat): seq<nat>
    requires k < |s|
  {
    seq(|s| + 1, i requires 0 <= i <= |s| => if i <= k then s[i] else if i == k + 1 then x else s[i - 1])
  }

  function Remove(s: seq<nat>, k: nat): seq<nat>
    requires k < |s|
  {
    seq(|s| - 1, i requires 0 <= i < |s| - 1 => if i < k then s[i] else s[i + 1])
  }

  ghost function Inserted(a: Arena, k: nat, bp: nat): Arena
    requires k < |a.ring| && a.ring[k] in a.ptr
  {
    var p := a.ring[k];
    a.(ptr := a.ptr[bp := a.ptr[p]][p := bp],
       ring := Insert(a.ring, k, bp),
       pos := map q | q in a.pos.Keys + {bp} ::
                if q == bp then k + 1 else if a.pos[q] <= k then a.pos[q] else a.pos[q] + 1,
       live := a.live - {bp})
  }

  /** ring[i] swallows ring[i + 1]. */
  ghost function Merged(a: Arena, i: nat): Arena
    requires i + 1 < |a.ring| && a.ring[i] in a.size && a.ring[i + 1] in a.size && a.ring[i + 1] in a.ptr
  {
    var p, q := a.ring[i], a.ring[i + 1];
    a.(ptr := a.ptr[p := a.ptr[q]],
       size := a.size[p := a.size[p] + a.size[q]],
       ring := Remove(a.ring, i + 1),
       pos := map r | r in a.pos.Keys - {q} :: if a.pos[r] <= i then a.pos[r] else a.pos[r] - 1,
       of := map u | u in a.of :: if a.of[u] == q then p else a.of[u])
  }

  /** Position k is where a block at address bp belongs. */
  ghost predicate Place(ring: seq<nat>, bp: nat, k: nat) {
    k < |ring| && ring[k] < bp && (k + 1 < |ring| ==> bp < ring[k + 1])
  }

  /** A live block does not reach into the free block behind it, nor a free block into
      the live block behind it. */
  lemma Apart(a: Arena, bp: nat, k: nat)
    requires Weak(a) && bp in a.live && Place(a.ring, bp, k)
    ensures a.ring[k] in a.size && bp in a.size && a.size[bp] > 0
    ensures a.ring[k] + a.size[a.ring[k]] <= bp
    ensures k + 1 < |a.ring| ==> bp + a.size[bp] <= a.ring[k + 1]
  {
    assert Elem(a, k) && LiveOk(a, bp) && IsBlock(a, bp);
    if a.ring[k] + a.size[a.ring[k]] > bp {
      assert In(a, bp, a.ring[k]) && IsBlock(a, a.ring[k]) && In(a, bp, bp);
    }
    if k + 1 < |a.ring| {
      assert Elem(a, k + 1);
      if bp + a.size[bp] > a.ring[k + 1] {
        var q := a.ring[k + 1];
        assert In(a, q, bp) && IsBlock(a, q) && In(a, q, q);
      }
    }
  }

  lemma InsertElem(a: Arena, k: nat, bp: nat, i: nat)
    requires Weak(a) && bp in a.live && Place(a.ring, bp, k) && a.ring[k] in a.ptr && i <= |a.ring|
    ensures Elem(Inserted(a, k, bp), i)
  {
    assert LiveOk(a, bp) && Elem(a, k);
    if i <= k { assert Elem(a, i); } else if i > k + 1 { assert Elem(a, i - 1); }
  }

  lemma InsertBefore(a: Arena, k: nat, bp: nat, i: nat, j: nat)
    requires Weak(a) && bp in a.live && Place(a.ring, bp, k) && a.ring[k] in a.ptr && i < j <= |a.ring|
    ensures Before(Inserted(a, k, bp), i, j)
  {
    Apart(a, bp, k);
    var i', j' := if i <= k then i else i - 1, if j <= k then j else j - 1;
    assert Elem(a, i');
    if i' < j' { assert Before(a, i', j'); }
    if i < k { assert Before(a, i, k); }
    if k + 1 < j' { assert Before(a, k + 1, j') && Elem(a, k + 1); }
  }

  lemma InsertRing(a: Arena, k: nat, bp: nat)
    requires Inv(a) && bp in a.live && Place(a.ring, bp, k) && a.ring[k] in a.ptr
    ensures RingOk(Inserted(a, k, bp)) && Coalesced(Inserted(a, k, bp), k, k + 1)
  {
    var b := Inserted(a, k, bp);
    assert LiveOk(a, bp);
    hide CoverOk;
    forall i | 0 <= i < |b.ring| ensures Elem(b, i) { InsertElem(a, k, bp, i); }
    forall i, j | 0 <= i < j < |b.ring| ensures Before(b, i, j) { InsertBefore(a, k, bp, i, j); }
    forall p | p in b.pos ensures Listed(b, p) { assert p == bp || Listed(a, p); }
    forall i | 0 <= i < |b.ring| - 1 && i != k && i != k + 1 ensures !Touches(b, i) {
      assert !Touches(a, if i < k then i else i - 1);
    }
  }

  lemma InsertKeeps(a: Arena, k: nat, bp: nat)
    requires Inv(a) && bp in a.live && Place(a.ring, bp, k) && a.ring[k] in a.ptr
    ensures Weak(Inserted(a, k, bp)) && Coalesced(Inserted(a, k, bp), k, k + 1)
  {
    InsertRing(a, k, bp);
    hide RingOk, Coalesced;
    var b := Inserted(a, k, bp);
    assert LiveOk(a, bp);
    forall p | p in b.live ensures LiveOk(b, p) { assert LiveOk(a, p); }
    forall u | u in b.of ensures IsBlock(b, b.of[u]) && In(b, u, b.of[u]) {
      assert IsBlock(a, a.of[u]) && In(a, u, a.of[u]);
    }
    forall p: nat, u: nat | IsBlock(b, p) && In(b, u, p) ensures u in b.of && b.of[u] == p {
      assert IsBlock(a, p) && In(a, u, p);
    }
  }

  lemma MergeElem(a: Arena, m: nat, i: nat)
    requires RingOk(a) && 0 < m && m + 1 < |a.ring| && Elem(a, m) && Elem(a, m + 1) && Touches(a, m) && i < |a.ring| - 1
    ensures Elem(Merged(a, m), i)
  {
    assert Elem(a, if i <= m then i else i + 1);
  }

  lemma MergeBefore(a: Arena, m: nat, i: nat, j: nat)
    requires RingOk(a) && 0 < m && m + 1 < |a.ring| && Elem(a, m) && Elem(a, m + 1) && Touches(a, m)
    requires i < j < |a.ring| - 1
    ensures Before(Merged(a, m), i, j)
  {
    var i', j' := if i <= m then i else i + 1, if j <= m then j else j + 1;
    assert Elem(a, i') && Before(a, i', j');
    if i == m { assert Before(a, m + 1, j'); }
  }

  lemma MergeKeeps(a: Arena, m: nat)
    requires Weak(a) && 0 < m && m + 1 < |a.ring| && Elem(a, m) && Elem(a, m + 1) && Touches(a, m)
    ensures Weak(Merged(a, m))
  {
    var b, p, q := Merged(a, m), a.ring[m], a.ring[m + 1];
    forall i | 0 <= i < |b.ring| ensures Elem(b, i) { MergeElem(a, m, i); }
    forall i, j | 0 <= i < j < |b.ring| ensures Before(b, i, j) { MergeBefore(a, m, i, j); }
    forall r | r in b.pos ensures Listed(b, r) { assert Listed(a, r); }
    forall r | r in b.live ensures LiveOk(b, r) { assert LiveOk(a, r); }
    forall u | u in b.of ensures IsBlock(b, b.of[u]) && In(b, u, b.of[u]) {
      assert IsBlock(a, a.of[u]) && In(a, u, a.of[u]);
    }
    forall r: nat, u: nat | IsBlock(b, r) && In(b, u, r) ensures u in b.of && b.of[u] == r {
      assert IsBlock(a, r) && IsBlock(a, q);
      assert In(a, u, r) || (r == p && In(a, u, q));
    }
  }

  lemma MergeCoalesced(a: Arena, m: nat, x: nat)
    requires RingOk(a) && 0 < m && m + 1 < |a.ring| && Elem(a, m) && Elem(a, m + 1) && Touches(a, m)
    requires Coalesced(a, m, x) && (x < m || x >= |a.ring| - 1)
    ensures Coalesced(Merged(a, m), if x < m then x else |a.ring|, |a.ring|)
  {
    var b := Merged(a, m);
    forall i | 0 <= i < |b.ring| - 1 && !(x < m && i == x) ensures !Touches(b, i) {
      var i' := if i < m then i else i + 1;
      assert Elem(a, i') && !Touches(a, i');
    }
  }

  // ----- handing out a block -----

  /** All of ring[i] is handed out. */
  ghost function Taken(a: Arena, i: nat): Arena
    requires 0 < i < |a.ring| && a.ring[i] in a.ptr && a.ring[i] in a.size
  {
    var p := a.ring[i];
    a.(ptr := a.ptr[a.ring[i - 1] := a.ptr[p]],
       ring := Remove(a.ring, i),
       pos := map r | r in a.pos.Keys - {p} :: if a.pos[r] < i then a.pos[r] else a.pos[r] - 1,
       live := a.live[p := a.size[p]])
  }

  /** The last n units of ring[i] are handed out. */
  ghost function Split(a: Arena, i: nat, n: nat): Arena
    requires i < |a.ring| && a.ring[i] in a.size && n < a.size[a.ring[i]]
  {
    var p := a.ring[i];
    var h := p + a.size[p] - n;
    a.(size := a.size[p := a.size[p] - n][h := n],
       live := a.live[h := n],
       of := map u | u in a.of :: if h <= u < h + n then h else a.of[u])
  }

  lemma TakenElem(a: Arena, m: nat, i: nat)
    requires RingOk(a) && 0 < m < |a.ring| && Elem(a, m) && i < |a.ring| - 1
    ensures Elem(Taken(a, m), i)
  {
    assert Elem(a, m - 1) && Elem(a, if i < m then i else i + 1);
  }

  lemma TakenKeeps(a: Arena, m: nat)
    requires Inv(a) && 0 < m < |a.ring| && Elem(a, m)
    ensures Inv(Taken(a, m))
  {
    var b, p := Taken(a, m), a.ring[m];
    forall i | 0 <= i < |b.ring| ensures Elem(b, i) { TakenElem(a, m, i); }
    forall i, j | 0 <= i < j < |b.ring| ensures Before(b, i, j) {
      assert Before(a, if i < m then i else i + 1, if j < m then j else j + 1);
    }
    forall r | r in b.pos ensures Listed(b, r) { assert Listed(a, r); }
    assert Before(a, 0, m) && Elem(a, 0);
    forall r | r in b.live ensures LiveOk(b, r) { assert r == p || LiveOk(a, r); }
    forall u | u in b.of ensures IsBlock(b, b.of[u]) && In(b, u, b.of[u]) {
      assert IsBlock(a, a.of[u]) && In(a, u, a.of[u]);
    }
    forall r: nat, u: nat | IsBlock(b, r) && In(b, u, r) ensures u in b.of && b.of[u] == r {
      assert IsBlock(a, r) && In(a, u, r);
    }
    forall i | 0 <= i < |b.ring| - 1 ensures !Touches(b, i) { TakenGap(a, m, i); }
  }

  lemma TakenGap(a: Arena, m: nat, i: nat)
    requires Inv(a) && 0 < m < |a.ring| && Elem(a, m) && i < |a.ring| - 2
    ensures !Touches(Taken(a, m), i)
  {
    if i == m - 1 {
      assert Before(a, m - 1, m) && Before(a, m, m + 1);
    } else {
      assert !Touches(a, if i < m then i else i + 1);
    }
  }

  /** A unit inside a free block is no header that is in use. */
  lemma InsideFree(a: Arena, m: nat, h: nat)
    requires Weak(a) && 0 < m < |a.ring| && Elem(a, m) && a.ring[m] < h < a.ring[m] + a.size[a.ring[m]]
    ensures h !in a.live && h !in a.pos && h > a.ring[0] && h in a.of
  {
    var p := a.ring[m];
    assert IsBlock(a, p) && In(a, h, p) && Before(a, 0, m) && Elem(a, 0);
    if h in a.live { assert LiveOk(a, h) && IsBlock(a, h) && In(a, h, h); }
    if h in a.pos {
      assert Listed(a, h) && Elem(a, a.pos[h]);
      if a.pos[h] > 0 { assert IsBlock(a, h) && In(a, h, h); }
    }
  }

  lemma SplitRing(a: Arena, m: nat, n: nat)
    requires Inv(a) && 0 < m < |a.ring| && Elem(a, m) && 0 < n < a.size[a.ring[m]]
    ensures var b := Split(a, m, n); RingOk(b) && Coalesced(b, |b.ring|, |b.ring|)
  {
    var b := Split(a, m, n);
    InsideFree(a, m, a.ring[m] + a.size[a.ring[m]] - n);
    hide CoverOk;
    forall i | 0 <= i < |b.ring| ensures Elem(b, i) { assert Elem(a, i); }
    forall i, j | 0 <= i < j < |b.ring| ensures Before(b, i, j) { assert Before(a, i, j) && Elem(a, i); }
    forall r | r in b.pos ensures Listed(b, r) { assert Listed(a, r); }
    forall i | 0 <= i < |b.ring| - 1 ensures !Touches(b, i) {
      assert !Touches(a, i) && Elem(a, i) && Before(a, i, i + 1);
    }
  }

  lemma SplitKeeps(a: Arena, m: nat, n: nat)
    requires Inv(a) && 0 < m < |a.ring| && Elem(a, m) && 0 < n < a.size[a.ring[m]]
    ensures Inv(Split(a, m, n))
  {
    hide RingOk, Coalesced;
    var b := Split(a, m, n);
    SplitRing(a, m, n);
    var h := a.ring[m] + a.size[a.ring[m]] - n;
    InsideFree(a, m, h);
    forall r | r in b.live ensures LiveOk(b, r) { assert r == h || LiveOk(a, r); }
    forall u | u in b.of ensures IsBlock(b, b.of[u]) && In(b, u, b.of[u]) { SplitUnit(a, m, n, u); }
    forall r: nat, u: nat | IsBlock(b, r) && In(b, u, r) ensures u in b.of && b.of[u] == r {
      SplitBlock(a, m, n, r, u);
    }
  }

  lemma SplitBlock(a: Arena, m: nat, n: nat, r: nat, u: nat)
    requires Weak(a) && 0 < m < |a.ring| && Elem(a, m) && 0 < n < a.size[a.ring[m]]
    requires IsBlock(Split(a, m, n), r) && In(Split(a, m, n), u, r)
    ensures var b := Split(a, m, n); u in b.of && b.of[u] == r
  {
    var p := a.ring[m];
    var h := p + a.size[p] - n;
    InsideFree(a, m, h);
    assert IsBlock(a, p);
    assert r != h ==> IsBlock(a, r) && In(a, u, r);
    assert h <= u < h + n ==> In(a, u, p);
  }

  lemma SplitUnit(a: Arena, m: nat, n: nat, u: nat)
    requires Weak(a) && 0 < m < |a.ring| && Elem(a, m) && 0 < n < a.size[a.ring[m]] && u in a.of
    requires a.ring[m] + a.size[a.ring[m]] - n !in a.pos && a.ring[m] + a.size[a.ring[m]] - n !in a.live
    ensures var b := Split(a, m, n); IsBlock(b, b.of[u]) && In(b, u, b.of[u])
  {
    assert IsBlock(a, a.of[u]) && In(a, u, a.of[u]);
    assert IsBlock(a, a.ring[m]);
    assert In(a, u, a.ring[m]) ==> a.of[u] == a.ring[m];
  }

  // ----- memory from sbrk -----

  /** n units from g on, which nothing uses yet, become a live block. */
  ghost function Grown(a: Arena, g: nat, n: nat): Arena {
    a.(size := a.size[g := n], live := a.live[g := n], of := a.of + map u: nat | g <= u < g + n && Spans(g, n, u) :: g)
  }

  predicate Spans(g: nat, n: nat, u: nat) {
    g <= u < g + n
  }

  /** Memory from sbrk lies above all memory obtained before. */
  ghost predicate Above(a: Arena, g: nat)
    requires |a.ring| > 0
  {
    g > a.ring[0] && forall u :: u in a.of ==> u < g
  }

  lemma GrownKeeps(a: Arena, g: nat, n: nat)
    requires Inv(a) && Above(a, g) && n > 0
    ensures Inv(Grown(a, g, n)) && g !in a.live
  {
    var b := Grown(a, g, n);
    assert Elem(a, 0);
    if g in a.live { assert LiveOk(a, g) && IsBlock(a, g) && In(a, g, g); }
    if g in a.pos { assert Listed(a, g) && Elem(a, a.pos[g]) && IsBlock(a, g) && In(a, g, g); }
    forall i | 0 <= i < |b.ring| ensures Elem(b, i) { assert Elem(a, i); }
    forall i, j | 0 <= i < j < |b.ring| ensures Before(b, i, j) { assert Before(a, i, j) && Elem(a, i); }
    forall r | r in b.pos ensures Listed(b, r) { assert Listed(a, r); }
    forall r | r in b.live ensures LiveOk(b, r) { assert r == g || LiveOk(a, r); }
    forall u | u in b.of ensures IsBlock(b, b.of[u]) && In(b, u, b.of[u]) {
      if u in a.of { assert IsBlock(a, a.of[u]) && In(a, u, a.of[u]); }
    }
    forall r: nat, u: nat | IsBlock(b, r) && In(b, u, r) ensures u in b.of && b.of[u] == r {
      if r != g { assert IsBlock(a, r) && In(a, u, r); }
    }
    forall i | 0 <= i < |b.ring| - 1 ensures !Touches(b, i) { assert !Touches(a, i) && Elem(a, i); }
  }
}
