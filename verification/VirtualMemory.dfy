/** kalloc.c, vm.c and the page-table half of proc.c as the kernel runs them: a free
    list threaded through the pages, tables of entries written in place. */
module VirtualMemory {
  import opened Blocks
  import opened Paging

  /** Virtual page w of page table r is mapped in t as in s, to the same bytes, or in neither. */
  ghost predicate SameAt(s: Vm, t: Vm, r: nat, w: nat) {
    var e := Lookup(s, r, w);
    if PteValid(e) then
      && Lookup(t, r, w) == e
      && (w < TRAPFRAME ==> PtePage(e) in s.mem && PtePage(e) in t.mem && t.mem[PtePage(e)] == s.mem[PtePage(e)])
    else !PteValid(Lookup(t, r, w))
  }

  /** Every address space looks the same, but for pages lo .. hi of page table root. */
  ghost predicate SpaceFrame(s: Vm, t: Vm, root: nat, lo: nat, hi: nat) {
    forall r: nat, w: nat :: !(r == root && lo <= w < hi) ==> SameAt(s, t, r, w)
  }

  predicate Belongs(role: Role, root: nat) {
    (role.Node? && role.key.root == root) || (role.Leaf? && role.root == root)
  }

  /** No page is lost or made up: free pages may go to page table root, all others keep
      their role, and held pages and user pages their bytes. */
  ghost predicate RoleGrows(s: Vm, t: Vm, root: nat) {
    && t.role.Keys == s.role.Keys
    && forall p :: p in s.role ==>
         if s.role[p].Held? || s.role[p].Leaf? then
           t.role[p] == s.role[p] && p in s.mem && p in t.mem && t.mem[p] == s.mem[p]
         else if s.role[p].Free? then t.role[p].Free? || Belongs(t.role[p], root)
         else t.role[p] == s.role[p]
  }

  ghost predicate NodesKept(s: Vm, t: Vm) {
    forall k :: k in s.node ==> k in t.node && t.node[k] == s.node[k]
  }

  lemma SpaceFrameTransitive(s: Vm, t: Vm, u: Vm, root: nat, lo: nat, hi: nat)
    requires SpaceFrame(s, t, root, lo, hi) && SpaceFrame(t, u, root, lo, hi)
    ensures SpaceFrame(s, u, root, lo, hi)
  {
    hide Lookup, PteValid, PtePage;
    forall r: nat, w: nat | !(r == root && lo <= w < hi) ensures SameAt(s, u, r, w) {
      assert SameAt(s, t, r, w) && SameAt(t, u, r, w);
    }
  }

  lemma RoleGrowsTransitive(s: Vm, t: Vm, u: Vm, root: nat)
    requires RoleGrows(s, t, root) && RoleGrows(t, u, root)
    ensures RoleGrows(s, u, root)
  {}

  lemma FrameReflexive(s: Vm, root: nat, lo: nat, hi: nat)
    requires Inv(s)
    ensures RoleGrows(s, s, root) && SpaceFrame(s, s, root, lo, hi) && NodesKept(s, s)
  {
    hide NodesOk, InnerOk, LeavesOk, LeafRoles, FreeOk, Lookup;
    forall r: nat, w: nat ensures SameAt(s, s, r, w) {
      if PteValid(Lookup(s, r, w)) && w < TRAPFRAME { LeafPage(s, r, w); }
    }
  }

  // ----- walking the tree -----

  /** PX(level, va) of virtual page v. */
  function Px(level: nat, v: nat): nat
    requires level <= 2
  {
    if level == 2 then v / (NPTE * NPTE) % NPTE else if level == 1 then v / NPTE % NPTE else v % NPTE
  }

  /** The node of page table root at `level` on the way to virtual page v. */
  function WalkKey(root: nat, level: nat, v: nat): Key
    requires level <= 2
  {
    if level == 2 then Root(root) else if level == 1 then Key(root, 1, v / (NPTE * NPTE)) else LeafKey(root, v)
  }

  lemma WalkDown(root: nat, level: nat, v: nat)
    requires 1 <= level <= 2 && v < TOPVPN
    ensures Px(level, v) < NPTE && Child(WalkKey(root, level, v), Px(level, v)) == WalkKey(root, level - 1, v)
    ensures Px(0, v) == v % NPTE < NPTE
  {}

  /** The tables below the root on the way to virtual page v. */
  function Path(root: nat, v: nat): set<Key> {
    {WalkKey(root, 1, v), LeafKey(root, v)}
  }

  /** The tables that pages lo .. hi need. */
  function Tables(root: nat, lo: nat, hi: nat): set<Key>
    decreases hi
  {
    if hi <= lo then {} else Tables(root, lo, hi - 1) + Path(root, hi - 1)
  }

  /** The pages it takes to make the missing ones among the tables ks. */
  ghost function Cost(s: Vm, ks: set<Key>): nat {
    |ks - s.node.Keys|
  }

  /** From s to t the tables ks were made, and besides them n pages taken. */
  ghost predicate Paid(s: Vm, t: Vm, ks: set<Key>, n: nat) {
    t.node.Keys == s.node.Keys + ks && |t.free| + Cost(s, ks) + n == |s.free|
  }

  lemma PaidNothing(s: Vm)
    ensures Paid(s, s, {}, 0)
  {
    assert {} - s.node.Keys == {};
  }

  lemma PaidMore(s: Vm, t: Vm, u: Vm, ks: set<Key>, n: nat, js: set<Key>, m: nat)
    requires Paid(s, t, ks, n) && Paid(t, u, js, m)
    ensures Paid(s, u, ks + js, n + m)
  {
    CostSum(s, t, ks, js);
  }

  lemma CostSum(s: Vm, t: Vm, ks: set<Key>, js: set<Key>)
    requires t.node.Keys == s.node.Keys + ks
    ensures Cost(s, ks + js) == Cost(s, ks) + Cost(t, js)
  {
    assert ks + js - s.node.Keys == (ks - s.node.Keys) + (js - t.node.Keys);
  }

  lemma CostMonotone(s: Vm, ks: set<Key>, js: set<Key>)
    requires ks <= js
    ensures Cost(s, ks) <= Cost(s, js)
  {
    Subset(ks - s.node.Keys, js - s.node.Keys);
  }

  lemma Subset(a: set<Key>, b: set<Key>)
    requires a <= b
    ensures |a| <= |b|
  {
    assert b == a + (b - a);
  }

  lemma {:induction false} TablesMonotone(root: nat, lo: nat, a: nat, hi: nat)
    requires a <= hi
    ensures Tables(root, lo, a) <= Tables(root, lo, hi)
    decreases hi
  {
    if a < hi { TablesMonotone(root, lo, a, hi - 1); }
  }

  lemma PaidStart(s: Vm, root: nat, lo: nat)
    ensures Paid(s, s, Tables(root, lo, lo), 0)
  {
    PaidNothing(s);
  }

  lemma PaidNext(s: Vm, t: Vm, u: Vm, root: nat, lo: nat, a: nat, n: nat, m: nat)
    requires lo <= a && Paid(s, t, Tables(root, lo, a), n) && Paid(t, u, Path(root, a), m)
    ensures Paid(s, u, Tables(root, lo, a + 1), n + m)
  {
    PaidMore(s, t, u, Tables(root, lo, a), n, Path(root, a), m);
  }

  /** walk found the table k, or made it. */
  lemma PaidTable(s: Vm, t: Vm, k: Key)
    requires if k in s.node then t == s else t.node.Keys == s.node.Keys + {k} && |t.free| + 1 == |s.free|
    ensures Paid(s, t, {k}, 0)
  {
    OneKey(s, k);
  }

  /** Out of memory at page a: the whole range needs more pages than there were. */
  lemma PaidOut(s: Vm, t: Vm, root: nat, lo: nat, a: nat, hi: nat, n: nat, m: nat)
    requires Paid(s, t, Tables(root, lo, a), n) && lo <= a < hi && |t.free| < m + Cost(t, Path(root, a))
    ensures |s.free| < n + m + Cost(s, Tables(root, lo, hi))
  {
    CostSum(s, t, Tables(root, lo, a), Path(root, a));
    TablesMonotone(root, lo, a + 1, hi);
    CostMonotone(s, Tables(root, lo, a + 1), Tables(root, lo, hi));
  }

  lemma PaidEnough(s: Vm, t: Vm, ks: set<Key>, n: nat)
    requires Paid(s, t, ks, n)
    ensures |s.free| >= n + Cost(s, ks)
  {}

  lemma OneKey(s: Vm, k: Key)
    ensures Cost(s, {k}) == if k in s.node then 0 else 1
  {
    assert {k} - s.node.Keys == if k in s.node then {} else {k};
  }

  /** The tables on the way to v that walk has passed when it reaches `level`. */
  function Passed(root: nat, level: nat, v: nat): set<Key>
    requires level <= 2
  {
    if level == 2 then {} else if level == 1 then {WalkKey(root, 1, v)} else Path(root, v)
  }

  lemma PassedNone(s: Vm, root: nat, v: nat)
    ensures Paid(s, s, Passed(root, 2, v), 0)
  {
    PaidNothing(s);
  }

  lemma PassedNext(s: Vm, t: Vm, u: Vm, root: nat, level: nat, v: nat)
    requires 1 <= level <= 2 && Paid(s, t, Passed(root, level, v), 0) && Paid(t, u, {WalkKey(root, level - 1, v)}, 0)
    ensures Paid(s, u, Passed(root, level - 1, v), 0)
  {
    hide Paid, Passed, WalkKey;
    PaidMore(s, t, u, Passed(root, level, v), 0, {WalkKey(root, level - 1, v)}, 0);
    PassedGrows(root, level, v);
  }

  lemma PassedGrows(root: nat, level: nat, v: nat)
    requires 1 <= level <= 2
    ensures Passed(root, level, v) + {WalkKey(root, level - 1, v)} == Passed(root, level - 1, v)
  {}

  lemma PassedAll(s: Vm, t: Vm, root: nat, v: nat)
    requires Paid(s, t, Passed(root, 0, v), 0)
    ensures Paid(s, t, Path(root, v), 0) && |s.free| >= Cost(s, Path(root, v))
  {}

  lemma PassedOut(s: Vm, t: Vm, root: nat, level: nat, v: nat)
    requires 1 <= level <= 2 && Paid(s, t, Passed(root, level, v), 0)
    requires t.free == [] && WalkKey(root, level - 1, v) !in t.node
    ensures |s.free| < Cost(s, Path(root, v))
  {
    var k := WalkKey(root, level - 1, v);
    OneKey(t, k);
    CostSum(s, t, Passed(root, level, v), {k});
    CostMonotone(s, Passed(root, level, v) + {k}, Path(root, v));
  }

  /** A mapped page has its tables. */
  lemma PathThere(s: Vm, root: nat, v: nat)
    requires Inv(s) && PteValid(Lookup(s, root, v))
    ensures Cost(s, Path(root, v)) == 0
  {
    hide Typed, FreeOk, LeavesOk, LeafRoles, InnerOk;
    LookupTable(s, root, v);
    assert KeyOk(LeafKey(root, v)) && Parent(LeafKey(root, v)) == WalkKey(root, 1, v);
    assert Path(root, v) - s.node.Keys == {};
  }

  /** How a call that maps pages ends. */
  datatype Mapping = Done | NoMemory | Panic

  /** walk's allocation of one missing table. */
  lemma GrowStep(s: Vm, k: Key, i: nat, junk: seq<Byte>)
    requires Inv(s) && k in s.node && k.level > 0 && i < NPTE && HasEntry(s, k, i) && !PteValid(Entry(s, k, i))
    requires s.free != []
    ensures var t, p := Popped(s, junk), s.free[0];
            && CanAdd(t, k, i, p) && p != s.node[k]
            && Inv(AddNode(t, k, i, p)) && RoleGrows(s, AddNode(t, k, i, p), k.root)
            && SpaceFrame(s, AddNode(t, k, i, p), k.root, 0, 0) && NodesKept(s, AddNode(t, k, i, p))
            && Child(k, i) in AddNode(t, k, i, p).node && AddNode(t, k, i, p).node[Child(k, i)] == p
  {
    hide InnerOk, LeavesOk, LeafRoles, FreeOk, Typed, NodesOk, Lookup, SameAt, RoleGrows;
    var t, p := Popped(s, junk), s.free[0];
    PoppedInv(s, junk);
    SameTablesEntries(s, t);
    AddNodeInv(t, k, i, p);
    AddNodeNew(t, k, i, p);
    var u := AddNode(t, k, i, p);
    GrowRoles(s, k, i, junk);
    forall r: nat, w: nat ensures SameAt(s, u, r, w) {
      GrowSame(s, k, i, junk, r, w);
    }
  }

  lemma GrowRoles(s: Vm, k: Key, i: nat, junk: seq<Byte>)
    requires Inv(s) && s.free != [] && CanAdd(Popped(s, junk), k, i, s.free[0]) && k in s.node
    requires s.free[0] in s.role && s.role[s.free[0]].Free? && s.node[k] != s.free[0]
    ensures RoleGrows(s, AddNode(Popped(s, junk), k, i, s.free[0]), k.root)
  {
    hide InnerOk, LeavesOk, LeafRoles, FreeOk, NodesOk;
    NodeRole(s, k);
  }

  lemma GrowSame(s: Vm, k: Key, i: nat, junk: seq<Byte>, r: nat, w: nat)
    requires Inv(s) && s.free != [] && CanAdd(Popped(s, junk), k, i, s.free[0]) && k in s.node
    requires Inv(Popped(s, junk)) && SameTables(s, Popped(s, junk)) && s.free[0] in s.role && s.role[s.free[0]].Free?
    ensures SameAt(s, AddNode(Popped(s, junk), k, i, s.free[0]), r, w)
  {
    hide InnerOk, LeavesOk, LeafRoles, FreeOk, Typed, NodesOk, Lookup, PteValid, PtePage, SameTables, Entry;
    var t, p := Popped(s, junk), s.free[0];
    SameTablesEntries(s, t);
    AddNodeLookup(t, k, i, p, r, w);
    if PteValid(Lookup(s, r, w)) && w < TRAPFRAME {
      LeafPage(s, r, w);
      NodeRole(s, k);
    }
  }

  lemma NodeRole(s: Vm, k: Key)
    requires NodesOk(s) && k in s.node
    ensures s.node[k] in s.role && s.role[s.node[k]] == Node(k)
  {}

  function AllHeld(lo: nat, hi: nat): (role: map<nat, Role>)
    requires lo <= hi
    ensures forall p: nat :: p in role <==> lo <= p < hi
    ensures forall p: nat :: p in role ==> role[p] == Held
    decreases hi - lo
  {
    if lo == hi then map[] else AllHeld(lo + 1, hi)[lo := Held]
  }

  lemma AllHeldInv(lo: nat, hi: nat, contents: map<nat, Page>)
    requires 0 < lo <= hi && forall p: nat :: lo <= p < hi ==> p in contents
    ensures Inv(Vm(contents, [], AllHeld(lo, hi), map[]))
  {
    hide AllHeld;
  }

  class Memory {
    var mem: map<nat, Page>
    var freelist: nat
    ghost var free: seq<nat>
    ghost var role: map<nat, Role>
    ghost var node: map<Key, nat>

    ghost function S(): Vm
      reads this
    {
      Vm(mem, free, role, node)
    }

    ghost predicate Valid()
      reads this
    {
      Inv(S()) && freelist == NextFree(free, 0)
    }

    /** `kinit`: the allocator owns pages lo .. hi, all of them free. */
    constructor (lo: nat, hi: nat, contents: map<nat, Page>)
      requires 0 < lo <= hi && forall p: nat :: lo <= p < hi ==> p in contents
      ensures Valid() && node == map[]
      ensures forall p: nat :: p in role <==> lo <= p < hi
      ensures forall p: nat :: p in role ==> role[p].Free?
    {
      mem, freelist, free, node := contents, 0, [], map[];
      role := AllHeld(lo, hi);
      new;
      AllHeldInv(lo, hi, contents);
      FreeRange(lo, hi);
    }

    /** `freerange`: kfree page by page. */
    method FreeRange(lo: nat, hi: nat)
      requires Valid() && lo <= hi && forall p: nat :: lo <= p < hi ==> p in role && role[p].Held?
      modifies this
      ensures Valid() && node == old(node) && role.Keys == old(role.Keys)
      ensures forall p: nat :: p in role ==> role[p] == if lo <= p < hi then Free else old(role)[p]
    {
      hide Inv;
      var p := lo;
      while p + 1 <= hi
        invariant lo <= p <= hi && Valid() && node == old(node) && role.Keys == old(role.Keys)
        invariant forall q: nat :: q in role ==> role[q] == if lo <= q < p then Free else old(role)[q]
      {
        Kfree(p);
        p := p + 1;
      }
    }

    /** `kfree`: the page goes to the front of the list, its link written into it. */
    method Kfree(p: nat)
      requires Valid() && p in role && role[p].Held?
      modifies this
      ensures Valid() && S() == PushedFree(old(S()), p)
    {
      hide Inv;
      PushedFreeInv(S(), p);
      mem := mem[p := Run(freelist)];
      freelist := p;
      free := [p] + free;
      role := role[p := Free];
    }

    /** `kalloc`: the first page of the list, filled with junk; 0 when there is none. */
    method Kalloc() returns (p: nat)
      requires Valid()
      modifies this
      ensures Valid()
      ensures p == 0 ==> old(free) == [] && S() == old(S())
      ensures p != 0 ==> old(free) != [] && p == old(free[0]) && S() == Popped(old(S()), Fill(5, PGSIZE))
    {
      hide Typed, NodesOk, InnerOk, LeavesOk, LeafRoles, Fill;
      p := freelist;
      FreePositive(S());
      if p != 0 {
        PoppedInv(S(), Fill(5, PGSIZE));
        assert mem[free[0]] == Run(NextFree(free, 1));
        freelist := mem[p].next;
        mem := mem[p := Bytes(Fill(5, PGSIZE))];
        free := free[1..];
        role := role[p := Held];
      }
    }

    /** `walk` without allocation: the level-0 table of page v, if there is one; the entry
        is number v % NPTE of it. */
    method WalkOnly(root: nat, v: nat) returns (found: bool, table: nat)
      requires Valid() && Root(root) in node && v < TOPVPN
      ensures found <==> LeafKey(root, v) in node
      ensures found ==> table == node[LeafKey(root, v)] && HasEntry(S(), LeafKey(root, v), v % NPTE)
    {
      hide Typed, FreeOk, LeavesOk, LeafRoles, PteValid, PtePage, PteLeaf;
      table := root;
      var level := 2;
      while level > 0
        invariant 0 <= level <= 2
        invariant WalkKey(root, level, v) in node && table == node[WalkKey(root, level, v)]
      {
        var i := Px(level, v);
        WalkDown(root, level, v);
        NodeEntry(S(), WalkKey(root, level, v), i);
        var pte := mem[table].ptes[i];
        assert pte == Entry(S(), WalkKey(root, level, v), i);
        if !PteValid(pte) {
          MissingBelow(S(), root, level - 1, v);
          return false, 0;
        }
        table := PtePage(pte);
        level := level - 1;
      }
      NodeEntry(S(), LeafKey(root, v), v % NPTE);
      return true, table;
    }

    /** One level of `walk` with alloc: the table below, made if it is missing. */
    method Descend(ghost root: nat, table: nat, level: nat, v: nat) returns (ok: bool, next: nat)
      requires Valid() && 1 <= level <= 2 && v < TOPVPN
      requires WalkKey(root, level, v) in node && table == node[WalkKey(root, level, v)]
      modifies this
      ensures Valid() && RoleGrows(old(S()), S(), root) && SpaceFrame(old(S()), S(), root, 0, 0)
      ensures NodesKept(old(S()), S())
      ensures ok ==> WalkKey(root, level - 1, v) in node && next == node[WalkKey(root, level - 1, v)]
      ensures !ok ==> S() == old(S()) && free == [] && WalkKey(root, level - 1, v) !in node
      ensures ok ==> Paid(old(S()), S(), {WalkKey(root, level - 1, v)}, 0)
    {
      hide Typed, FreeOk, LeavesOk, LeafRoles, NodesOk, PteValid;
      hide PtePage, PteLeaf, MakePte, RoleGrows, SpaceFrame, Fill, Paid;
      ghost var s, k := S(), WalkKey(root, level, v);
      var i := Px(level, v);
      WalkDown(root, level, v);
      NodeEntry(s, k, i);
      FrameReflexive(s, root, 0, 0);
      var pte := mem[table].ptes[i];
      assert pte == Entry(s, k, i);
      if PteValid(pte) {
        PaidTable(s, s, WalkKey(root, level - 1, v));
        return true, PtePage(pte);
      }
      next := Kalloc();
      if next == 0 { return false, 0; }
      GrowStep(s, k, i, Fill(5, PGSIZE));
      mem := mem[next := Table(ZeroTable())];
      mem := mem[table := Table(mem[table].ptes[i := MakePte(next, 0)])];
      node := node[WalkKey(root, level - 1, v) := next];
      role := role[next := Node(WalkKey(root, level - 1, v))];
      assert S() == AddNode(Popped(s, Fill(5, PGSIZE)), k, i, next);
      PaidTable(s, S(), WalkKey(root, level - 1, v));
      return true, next;
    }

    /** `walk` with allocation: when it fails there is no free page left, and no
        translation has changed either way. */
    method Walk(root: nat, v: nat) returns (found: bool, table: nat)
      requires Valid() && Root(root) in node && v < TOPVPN
      modifies this
      ensures Valid() && RoleGrows(old(S()), S(), root) && SpaceFrame(old(S()), S(), root, 0, 0)
      ensures NodesKept(old(S()), S())
      ensures found ==>
                && LeafKey(root, v) in node && table == node[LeafKey(root, v)]
                && HasEntry(S(), LeafKey(root, v), v % NPTE)
      ensures !found ==> free == []
      ensures found <==> |old(free)| >= Cost(old(S()), Path(root, v))
      ensures found ==> Paid(old(S()), S(), Path(root, v), 0)
    {
      hide Inv, RoleGrows, SpaceFrame, HasEntry, Paid, Passed, Path, Cost;
      ghost var s := S();
      FrameReflexive(s, root, 0, 0);
      RootIs(s, root);
      PassedNone(s, root, v);
      table := root;
      var level := 2;
      while level > 0
        invariant 0 <= level <= 2 && Valid()
        invariant RoleGrows(s, S(), root) && SpaceFrame(s, S(), root, 0, 0) && NodesKept(s, S())
        invariant Paid(s, S(), Passed(root, level, v), 0)
        invariant WalkKey(root, level, v) in node && table == node[WalkKey(root, level, v)]
      {
        ghost var t := S();
        var ok, next := Descend(root, table, level, v);
        RoleGrowsTransitive(s, t, S(), root);
        SpaceFrameTransitive(s, t, S(), root, 0, 0);
        if !ok {
          PassedOut(s, t, root, level, v);
          return false, 0;
        }
        PassedNext(s, t, S(), root, level, v);
        table := next;
        level := level - 1;
      }
      PassedAll(s, S(), root, v);
      WalkDown(root, 1, v);
      NodeEntry(S(), LeafKey(root, v), v % NPTE);
      return true, table;
    }

    /** One turn of `mappages`: virtual page v now leads to page p. It panics on a page that
        is mapped already and fails exactly when the missing tables take more pages than are
        free. */
    method MapPage(root: nat, v: nat, p: nat, perm: nat) returns (r: Mapping)
      requires Valid() && Root(root) in node && v < TOPVPN && Mappable(S(), v, p, perm)
      modifies this
      ensures Valid() && NodesKept(old(S()), S())
      ensures r.Panic? <==> PteValid(Lookup(old(S()), root, v))
      ensures r.NoMemory? <==> |old(free)| < Cost(old(S()), Path(root, v))
      ensures r.Done? ==> Lookup(S(), root, v) == MakePte(p, perm) && Paid(old(S()), S(), Path(root, v), 0)
      ensures r.Done? ==> SpaceFrame(old(S()), S(), root, v, v + 1) && MapFrame(old(S()), S(), root, v, p, 1)
      ensures !r.Done? ==> SpaceFrame(old(S()), S(), root, 0, 0) && RoleGrows(old(S()), S(), root)
      ensures r.NoMemory? ==> free == []
    {
      hide Typed, FreeOk, InnerOk, LeavesOk, LeafRoles, NodesOk, PteValid, PtePage, PteLeaf, MakePte, Lookup;
      hide RoleGrows, SpaceFrame, MapFrame, Paid, Cost, Path;
      ghost var s := S();
      if PteValid(Lookup(s, root, v)) { PathThere(s, root, v); }
      var found, table := Walk(root, v);
      ghost var t := S();
      if !found { return NoMemory; }
      OutsideSame(s, t, root, 0, 0, v);
      var pte := EntryAt(table, v, root);
      if PteValid(pte) { return Panic; }
      WalkedMappable(s, t, root, v, p, perm);
      mem := mem[table := Table(mem[table].ptes[v % NPTE := MakePte(p, perm)])];
      role := if v < TRAPFRAME then role[p := Leaf(root, v)] else role;
      assert S() == Mapped(t, root, v, p, perm);
      MapStep(s, t, root, v, p, perm);
      PaidSame(s, t, S(), Path(root, v));
      return Done;
    }

    /** `mappages` of n pages from v on to the pages from p on, which panics on an empty range
        and on a page that is mapped already or out of range. Success changes exactly these
        translations; otherwise the first `done` have changed. It succeeds exactly when no
        page is mapped and the missing tables take no more pages than are free. */
    method MapPages(root: nat, v: nat, n: nat, p: nat, perm: nat) returns (r: Mapping, ghost done: nat)
      requires Valid() && Root(root) in node && perm < 1024
      requires forall w: nat :: v <= w < v + n && w < TOPVPN ==> MapReady(S(), v, p, perm, w)
      modifies this
      ensures Valid() && NodesKept(old(S()), S())
      ensures if r.Done? then done == n > 0 else if r.NoMemory? then done < n && free == [] else done <= n
      ensures r.Panic? ==> n == 0 || (done < n && !Mapless(old(S()), root, v + done, v + done + 1))
      ensures r.Done? <==>
                n > 0 && Mapless(old(S()), root, v, v + n) && |old(free)| >= Cost(old(S()), Tables(root, v, v + n))
      ensures forall w: nat :: v <= w < v + done ==> Lookup(S(), root, w) == MakePte(p + w - v, perm)
      ensures SpaceFrame(old(S()), S(), root, v, v + done) && MapFrame(old(S()), S(), root, v, p, done)
    {
      hide Inv, PteValid, MakePte, Lookup, SpaceFrame, MapFrame, Mappable, MapReady, Paid, Cost, Path, Tables, Mapless;
      ghost var s := S();
      done := 0;
      MapFrameStart(s, root, v, p);
      PaidStart(s, root, v);
      MaplessNone(s, root, v);
      if n == 0 { return Panic, 0; }
      var i := 0;
      while i < n
        invariant 0 <= i <= n && done == i && Valid() && NodesKept(s, S())
        invariant forall w: nat :: v <= w < v + i ==> Lookup(S(), root, w) == MakePte(p + w - v, perm)
        invariant SpaceFrame(s, S(), root, v, v + i) && MapFrame(s, S(), root, v, p, i)
        invariant Mapless(s, root, v, v + i) && Paid(s, S(), Tables(root, v, v + i), 0)
      {
        ghost var t := S();
        MaplessNext(s, root, v, v + i, v + n);
        if v + i >= TOPVPN { return Panic, i; }
        assert MapReady(s, v, p, perm, v + i);
        MapNext(s, t, root, v, p, perm, i);
        r := MapPage(root, v + i, p + i, perm);
        if !r.Done? {
          MapFailed(s, t, S(), root, v, p, i, perm);
          if r.NoMemory? { PaidOut(s, t, root, v, v + i, v + n, 0, 0); }
          return;
        }
        MapExtend(s, t, S(), root, v, p, i, perm);
        PaidNext(s, t, S(), root, v, v + i, 0, 0);
        i, done := i + 1, i + 1;
      }
      PaidEnough(s, S(), Tables(root, v, v + n), 0);
      return Done, n;
    }

    /** One turn of `uvmunmap`: page v is no longer mapped, and freed if asked; a page that is
        not mapped panics. */
    method UnmapPage(root: nat, v: nat, doFree: bool) returns (panicked: bool)
      requires Valid() && Root(root) in node && (doFree ==> v < TRAPFRAME)
      modifies this
      ensures panicked <==> v >= TOPVPN || !PteValid(Lookup(old(S()), root, v))
      ensures panicked ==> S() == old(S()) && freelist == old(freelist)
      ensures !panicked ==>
                && v < TOPVPN && Valid() && node == old(node) && Lookup(S(), root, v) == 0
                && SpaceFrame(old(S()), S(), root, v, v + 1) && UnmapFrame(old(S()), S(), root, v, v + 1, doFree)
    {
      hide Typed, FreeOk, InnerOk, LeavesOk, LeafRoles, NodesOk, PteValid, PtePage, PteLeaf;
      hide SpaceFrame, UnmapFrame, Cost;
      ghost var s := S();
      if v >= TOPVPN { return true; }
      var found, table := WalkOnly(root, v);
      if !found {
        NoLookup(s, root, v);
        return true;
      }
      var pte := EntryAt(table, v, root);
      if !PteValid(pte) { return true; }
      MappedLeaf(s, root, v);
      if !PteLeaf(pte) { return true; }
      var p := PtePage(pte);
      if v < TRAPFRAME { LeafPage(s, root, v); }
      UnmappedInv(s, root, v);
      mem := mem[table := Table(mem[table].ptes[v % NPTE := 0])];
      role := if v < TRAPFRAME then role[p := Held] else role;
      assert S() == Unmapped(s, root, v);
      if doFree { Kfree(p); }
      UnmapStep(s, root, v, doFree);
      return false;
    }

    /** `uvmunmap` of n pages from v on, which panics exactly when one of them is not mapped.
        Otherwise exactly these translations go, and with doFree exactly their pages become
        free. */
    method Uvmunmap(root: nat, v: nat, n: nat, doFree: bool) returns (panicked: bool)
      requires Valid() && Root(root) in node && (doFree ==> v + n <= TRAPFRAME)
      modifies this
      ensures Valid() && node == old(node)
      ensures panicked <==> !AllMapped(old(S()), root, v, v + n)
      ensures !panicked ==>
                && Mapless(S(), root, v, v + n)
                && SpaceFrame(old(S()), S(), root, v, v + n) && UnmapFrame(old(S()), S(), root, v, v + n, doFree)
    {
      hide Inv, PteValid, Lookup, SpaceFrame, UnmapFrame, Mapless, AllMapped;
      ghost var s := S();
      UnmapFrameStart(s, root, v, doFree);
      MaplessNone(s, root, v);
      var i := 0;
      while i < n
        invariant 0 <= i <= n && Valid() && node == old(node)
        invariant AllMapped(s, root, v, v + i) && Mapless(S(), root, v, v + i)
        invariant SpaceFrame(s, S(), root, v, v + i) && UnmapFrame(s, S(), root, v, v + i, doFree)
      {
        ghost var t := S();
        OutsideSame(s, t, root, v, v + i, v + i);
        MappedNext(s, root, v, v + i, v + n);
        panicked := UnmapPage(root, v + i, doFree);
        if panicked { return; }
        UnmapExtend(s, t, S(), root, v, i, doFree);
        i := i + 1;
      }
      return false;
    }

    /** kalloc, fill the page with `init`, mappages one page; on failure kfree. What uvmalloc
        and uvmcopy do for each page. It fails exactly when the page and the missing tables
        take more pages than are free, and panics on a page that is mapped already. */
    method AddPage(root: nat, v: nat, perm: nat, init: seq<Byte>) returns (r: Mapping)
      requires Valid() && Root(root) in node && v < TRAPFRAME
      requires perm < 1024 && perm / 2 % 8 != 0 && |init| == PGSIZE
      modifies this
      ensures Valid() && NodesKept(old(S()), S()) && (!r.Panic? ==> RoleGrows(old(S()), S(), root))
      ensures r.Panic? <==> PteValid(Lookup(old(S()), root, v)) && |old(free)| > 0
      ensures r.NoMemory? <==> |old(free)| < 1 + Cost(old(S()), Path(root, v))
      ensures r.Done? ==> SpaceFrame(old(S()), S(), root, v, v + 1) && Backed(S(), root, v, perm, init)
      ensures r.Done? ==> Paid(old(S()), S(), Path(root, v), 1)
      ensures r.NoMemory? ==> SpaceFrame(old(S()), S(), root, 0, 0)
    {
      hide Inv, PteValid, MakePte, Lookup, SpaceFrame, MapFrame, RoleGrows, Fill, Backed, Path;
      ghost var s := S();
      FrameReflexive(s, root, 0, 0);
      if PteValid(Lookup(s, root, v)) { PathThere(s, root, v); }
      var p := Kalloc();
      if p == 0 { return NoMemory; }
      mem := mem[p := Bytes(init)];
      FreshPage(s, Fill(5, PGSIZE), root, v, init, perm);
      ghost var t := S();
      r := MapPage(root, v, p, perm);
      ghost var u := S();
      if r.Done? {
        AddedPage(s, t, u, root, v, p, perm, init);
      } else if r.NoMemory? {
        HeldStays(t, u, root, p);
        Kfree(p);
        TakenBack(s, t, u, root, p);
      }
    }

    /** `uvmdealloc`: the pages between the two sizes are unmapped and freed; one that is not
        mapped panics. */
    method Uvmdealloc(root: nat, oldsz: nat, newsz: nat) returns (r: nat, panicked: bool)
      requires Valid() && Root(root) in node && Pages(oldsz) <= TRAPFRAME
      modifies this
      ensures Valid() && node == old(node) && r == if newsz < oldsz then newsz else oldsz
      ensures panicked <==> !AllMapped(old(S()), root, Pages(newsz), Pages(oldsz))
      ensures newsz < oldsz && !panicked ==>
                && Mapless(S(), root, Pages(newsz), Pages(oldsz))
                && SpaceFrame(old(S()), S(), root, Pages(newsz), Pages(oldsz))
                && UnmapFrame(old(S()), S(), root, Pages(newsz), Pages(oldsz), true)
      ensures newsz >= oldsz ==> S() == old(S())
    {
      hide Inv, PteValid, Lookup, SpaceFrame, UnmapFrame;
      panicked := false;
      if newsz >= oldsz {
        PagesMonotone(oldsz, newsz);
        return oldsz, false;
      }
      if Pages(newsz) < Pages(oldsz) {
        panicked := Uvmunmap(root, Pages(newsz), Pages(oldsz) - Pages(newsz), true);
      } else {
        PagesMonotone(newsz, oldsz);
        UnmapFrameStart(S(), root, Pages(newsz), true);
      }
      return newsz, panicked;
    }

    /** `uvmalloc`: the new pages are zeroed and the old ones stay; on failure every address
        space is as it was. It panics exactly when it gets to a page that is mapped already with
        a page to spare, and succeeds exactly when there is no such page and the new pages and
        their missing tables are no more than the free pages. */
    method Uvmalloc(root: nat, oldsz: nat, newsz: nat, xperm: nat) returns (r: nat, panicked: bool)
      requires Valid() && Root(root) in node && Pages(newsz) <= TRAPFRAME && xperm in {0, PTE_W, PTE_X, PTE_W + PTE_X}
      modifies this
      ensures Valid() && NodesKept(old(S()), S()) && (!panicked ==> RoleGrows(old(S()), S(), root))
      ensures newsz < oldsz ==> !panicked && r == oldsz && S() == old(S())
      ensures newsz >= oldsz ==>
                var lo, hi := Pages(oldsz), Pages(newsz);
                panicked <==> RemapsAt(old(S()), root, lo, hi, FirstTaken(old(S()), root, lo, hi))
      ensures newsz >= oldsz && !panicked ==>
                r == if CanGrow(old(S()), root, Pages(oldsz), Pages(newsz)) then newsz else 0
      ensures newsz >= oldsz && !panicked && !CanGrow(old(S()), root, Pages(oldsz), Pages(newsz)) ==>
                SpaceFrame(old(S()), S(), root, 0, 0)
      ensures newsz >= oldsz && CanGrow(old(S()), root, Pages(oldsz), Pages(newsz)) ==>
                && SpaceFrame(old(S()), S(), root, Pages(oldsz), Pages(newsz))
                && AllBacked(S(), root, Pages(oldsz), Pages(newsz), PTE_R + PTE_U + xperm, Fill(0, PGSIZE))
    {
      hide Inv, PteValid, Lookup, SpaceFrame, RoleGrows, UnmapFrame, Backed, Fill;
      hide Path, Tables, Cost, Paid, Affords, Mapless, AllMapped, FirstTaken, RemapsAt, CanGrow;
      ghost var s := S();
      var lo := Pages(oldsz);
      FrameReflexive(s, root, 0, 0);
      FrameReflexive(s, root, lo, lo);
      PaidStart(s, root, lo);
      if newsz < oldsz { return oldsz, false; }
      PagesMonotone(oldsz, newsz);
      ghost var hi := Pages(newsz);
      ghost var stop := FirstTaken(s, root, lo, hi);
      var a := lo;
      while a * PGSIZE < newsz
        invariant lo <= a <= stop <= hi && Valid() && NodesKept(s, S()) && RoleGrows(s, S(), root)
        invariant SpaceFrame(s, S(), root, lo, a) && Paid(s, S(), Tables(root, lo, a), a - lo)
        invariant AllBacked(S(), root, lo, a, PTE_R + PTE_U + xperm, Fill(0, PGSIZE))
        decreases hi - a
      {
        ghost var t := S();
        PagesAbove(a, newsz);
        TakenAt(s, root, lo, hi, a);
        OutsideSame(s, t, root, lo, a, a);
        var got := AddPage(root, a, PTE_R + PTE_U + xperm, Fill(0, PGSIZE));
        GrowEnds(s, t, root, lo, a, hi);
        if got.Panic? { return 0, true; }
        RoleGrowsTransitive(s, t, S(), root);
        if got.NoMemory? {
          StillBacked(s, t, S(), root, lo, a, a, a, PTE_R + PTE_U + xperm, Fill(0, PGSIZE));
          ghost var u := S();
          PagesExact(a);
          PagesExact(lo);
          BackedValid(u, root, lo, a, PTE_R + PTE_U + xperm, Fill(0, PGSIZE));
          var x;
          x, panicked := Uvmdealloc(root, a * PGSIZE, lo * PGSIZE);
          MaplessNone(S(), root, lo);
          MaplessPart(s, root, lo, a, stop);
          RolledBack(s, u, S(), root, lo, a);
          return 0, false;
        }
        StillBacked(s, t, S(), root, lo, a, a, a + 1, PTE_R + PTE_U + xperm, Fill(0, PGSIZE));
        PaidNext(s, t, S(), root, lo, a, a - lo, 1);
        a := a + 1;
      }
      PagesReached(a, newsz);
      Affordable(s, S(), root, lo, a);
      GrowDone(s, root, lo, a);
      return newsz, false;
    }

    /** `uvmcopy`: each of the parent's pages below sz gets a copy with the same permissions
        and bytes in the child; on failure the child has none of them. The parent and every
        other address space stay as they are. It panics exactly when it gets to a page that the
        parent lacks, or that the child has already, and succeeds exactly when there is none and
        the copies and the child's missing tables are no more than the free pages. */
    method Uvmcopy(parent: nat, child: nat, sz: nat) returns (ok: bool, panicked: bool)
      requires Valid() && Root(parent) in node && Root(child) in node && parent != child && Pages(sz) <= TRAPFRAME
      modifies this
      ensures Valid() && NodesKept(old(S()), S()) && (!panicked ==> RoleGrows(old(S()), S(), child))
      ensures var n := Pages(sz);
              panicked <==> CopyPanics(old(S()), parent, child, n, FirstUncopied(old(S()), parent, child, 0, n))
      ensures ok <==> CanCopy(old(S()), parent, child, Pages(sz))
      ensures ok ==>
                SpaceFrame(old(S()), S(), child, 0, Pages(sz)) && AllCopied(old(S()), S(), parent, child, Pages(sz))
      ensures !ok && !panicked ==> SpaceFrame(old(S()), S(), child, 0, 0)
    {
      hide Inv, PteValid, PtePage, PteFlags, PteLeaf, Lookup, SpaceFrame, RoleGrows, UnmapFrame, AllCopied, Backed;
      hide Path, Tables, Cost, Paid, Affords, Mapless, AllMapped, FirstUncopied, CopyPanics, CanCopy;
      ghost var s, hi := S(), Pages(sz);
      ghost var stop := FirstUncopied(s, parent, child, 0, hi);
      FrameReflexive(s, child, 0, 0);
      PaidStart(s, child, 0);
      assert AllCopied(s, s, parent, child, 0) by { NoneCopied(s, parent, child); }
      var i := 0;
      while i * PGSIZE < sz
        invariant 0 <= i <= stop <= hi && Valid() && NodesKept(s, S()) && RoleGrows(s, S(), child)
        invariant SpaceFrame(s, S(), child, 0, i) && AllCopied(s, S(), parent, child, i)
        invariant Paid(s, S(), Tables(child, 0, i), i)
        decreases hi - i
      {
        ghost var t := S();
        PagesAbove(i, sz);
        UncopiedAt(s, parent, child, hi, i);
        CopyEnds(s, t, parent, child, i, hi);
        OtherSame(s, t, parent, child, 0, i, i);
        OutsideSame(s, t, child, 0, i, i);
        var found, table := WalkOnly(parent, i);
        if !found {
          NoLookup(t, parent, i);
          return false, true;
        }
        var pte := EntryAt(table, i, parent);
        if !PteValid(pte) { return false, true; }
        CopySource(s, t, parent, child, i);
        var data := mem[PtePage(pte)].data;
        var got := AddPage(child, i, PteFlags(pte), data);
        if got.Panic? { return false, true; }
        RoleGrowsTransitive(s, t, S(), child);
        if got.NoMemory? {
          StillCopied(s, t, S(), parent, child, i, i);
          ghost var u := S();
          CopiedValid(s, u, parent, child, i);
          panicked := Uvmunmap(child, 0, i, true);
          VacantPart(s, parent, child, i, hi);
          RolledBack(s, u, S(), child, 0, i);
          return false, false;
        }
        StillCopied(s, t, S(), parent, child, i, i + 1);
        PaidNext(s, t, S(), child, 0, i, i, 1);
        i := i + 1;
      }
      PagesReached(i, sz);
      Affordable(s, S(), child, 0, i);
      CopyDone(s, parent, child, i);
      return true, false;
    }

    /** The entry that walk's result points to. */
    method EntryAt(table: nat, v: nat, ghost root: nat) returns (pte: nat)
      requires HasEntry(S(), LeafKey(root, v), v % NPTE) && table == node[LeafKey(root, v)]
      ensures pte == Lookup(S(), root, v)
    {
      pte := mem[table].ptes[v % NPTE];
    }

    /** `freewalk` on the node k of a page table without user mappings: k and the tables
        below it become free, no "leaf" panic can happen, and once the parent's entry is
        cleared the state is well formed again. */
    method FreeWalk(table: nat, ghost k: Key)
      requires Valid() && k in node && table == node[k] && NoLeaves(S(), k.root)
      modifies this
      ensures ParentKnows(S(), k) && Inv(Cut(S(), k)) && freelist == NextFree(free, 0)
      ensures Shrinks(old(S()), S(), k) && k !in node && AllSame(old(S()), Cut(S(), k))
      decreases k.level
    {
      hide Inv, PteValid, PtePage, PteLeaf, Lookup, Shrinks, AllSame, NoLeaves, Cut;
      ghost var s := S();
      ShrinksReflexive(s, k);
      var i := 0;
      while i < NPTE
        invariant 0 <= i <= NPTE && Valid() && k in node && table == node[k] && NoLeaves(S(), k.root)
        invariant Shrinks(s, S(), k) && AllSame(s, S())
        invariant forall x: nat :: x < i ==> HasEntry(S(), k, x) && !PteValid(Entry(S(), k, x))
      {
        ghost var t := S();
        NodeEntry(t, k, i);
        var pte := mem[table].ptes[i];
        FreeableEntry(t, k, i);
        if PteValid(pte) && !PteLeaf(pte) {
          FreeWalk(PtePage(pte), Child(k, i));
          ghost var u := S();
          SurvivesBelow(t, u, k, i);
          mem := mem[table := Table(mem[table].ptes[i := 0])];
          AfterChild(s, t, u, S(), k, i);
        }
        i := i + 1;
      }
      ghost var t := S();
      NodeFreed(s, t, k);
      node := node - {k};
      mem := mem[table := Run(freelist)];
      freelist := table;
      free := [table] + free;
      role := role[table := Free];
    }

    /** `uvmcreate`: an empty page table, or 0. */
    method Uvmcreate() returns (root: nat)
      requires Valid()
      modifies this
      ensures Valid()
      ensures root == 0 ==> old(free) == [] && S() == old(S())
      ensures root != 0 ==>
                && old(free) != [] && root == old(free)[0]
                && FreshRoot(old(S()), root) && role == old(role)[root := Node(Root(root))]
                && Paid(old(S()), S(), {Root(root)}, 0) && (forall k :: k in old(node) ==> k.root != root)
                && RoleGrows(old(S()), S(), root) && NodesKept(old(S()), S()) && Root(root) in node
                && NoLeaves(S(), root) && AllSame(old(S()), S())
    {
      hide Inv, Lookup, NoLeaves, AllSame, RoleGrows, Fill;
      ghost var s := S();
      root := Kalloc();
      if root != 0 {
        NewTable(s, Fill(5, PGSIZE));
        mem := mem[root := Table(ZeroTable())];
        node := node[Root(root) := root];
        role := role[root := Node(Root(root))];
        NoRootYet(s, root);
        OneKey(s, Root(root));
        assert S() == NewRoot(Popped(s, Fill(5, PGSIZE)), root);
      }
    }

    /** `uvmfree` of an address space with user pages below sz and nothing else: every page
        that belongs to it becomes free, and nothing else changes. */
    method Uvmfree(root: nat, sz: nat)
      requires Valid() && Root(root) in node && Pages(sz) <= TRAPFRAME
      requires forall w: nat :: PteValid(Lookup(S(), root, w)) <==> w < Pages(sz)
      modifies this
      ensures Valid() && Released(old(S()), S(), root)
    {
      hide Inv, Lookup, PteValid, NoLeaves, AllSame, Shrinks, UnmapFrame, SpaceFrame, Released;
      ghost var s := S();
      RootIs(s, root);
      if sz > 0 {
        var panicked := Uvmunmap(root, 0, Pages(sz), true);
      } else {
        UnmapFrameStart(s, root, 0, true);
      }
      ghost var t := S();
      NowEmpty(s, t, root, Pages(sz));
      FreeWalk(root, Root(root));
      AllReleased(s, t, S(), root, Pages(sz));
    }

    /** `proc_pagetable`: trampoline and trapframe mapped, no user memory; on failure every
        page has the role it had before. */
    method ProcPagetable(trapframe: nat, trampoline: nat) returns (root: nat)
      requires Valid()
      modifies this
      ensures Valid() && OthersSame(old(S()), S(), root)
      ensures root == 0 <==> |old(free)| < 3
      ensures root == 0 ==> role == old(role)
      ensures root != 0 ==>
                && FreshRoot(old(S()), root) && root == old(free)[0] && (forall k :: k in old(node) ==> k.root != root)
                && Paid(old(S()), S(), {Root(root)} + Path(root, TRAMPOLINE), 0) && |free| + 3 == |old(free)|
                && Process(S(), root, 0) && RoleGrows(old(S()), S(), root) && NodesKept(old(S()), S())
                && Lookup(S(), root, TRAMPOLINE) == MakePte(trampoline, PTE_R + PTE_X)
                && Lookup(S(), root, TRAPFRAME) == MakePte(trapframe, PTE_R + PTE_W)
    {
      hide Inv, Lookup, PteValid, NoLeaves, AllSame, MapFrame, RoleGrows, SpaceFrame, Released, OthersSame, UnmapFrame;
      hide MakePte, Mappable, Process, Cost, Path;
      ghost var s := S();
      root := Uvmcreate();
      if root == 0 { ShrinksReflexive(s, Root(0)); AllSameOthers(s, s, 0); return; }
      ghost var t := S();
      AllSameOthers(s, t, root);
      TopReady(t, root, TRAMPOLINE, trampoline, PTE_R + PTE_X);
      var r := MapPage(root, TRAMPOLINE, trampoline, PTE_R + PTE_X);
      ghost var u := S();
      TopCost(s, t, u, root);
      if !r.Done? {
        StillEmpty(t, u, root);
        Uvmfree(root, 0);
        RoleGrowsTransitive(s, t, u, root);
        OthersTransitive(s, t, u, root);
        Undone(s, u, S(), root);
        return 0;
      }
      FirstTop(t, u, root, trampoline, trapframe);
      // the tables are there already, so the second mapping cannot fail
      r := MapPage(root, TRAPFRAME, trapframe, PTE_R + PTE_W);
      ghost var v := S();
      if !r.Done? { assert false; }
      TopPaid(s, t, u, v, root);
      BothTops(s, t, u, v, root, trampoline, trapframe);
    }

    /** `proc_freepagetable`: every page of the address space, tables and user pages,
        becomes free; trapframe and trampoline are not freed; nothing else changes. */
    method ProcFreepagetable(root: nat, sz: nat)
      requires Valid() && Process(S(), root, Pages(sz))
      modifies this
      ensures Valid() && Released(old(S()), S(), root)
    {
      hide Inv, Lookup, PteValid, UnmapFrame, SpaceFrame, Released;
      ghost var s := S();
      var panicked := Uvmunmap(root, TRAMPOLINE, 1, false);
      ghost var t := S();
      MaplessAt(t, root, TRAMPOLINE, TRAMPOLINE + 1, TRAMPOLINE);
      OneTop(s, t, root, Pages(sz));
      panicked := Uvmunmap(root, TRAPFRAME, 1, false);
      ghost var u := S();
      MaplessAt(u, root, TRAPFRAME, TRAPFRAME + 1, TRAPFRAME);
      NoTop(t, u, root, Pages(sz));
      Uvmfree(root, sz);
      ReleasedBefore(s, t, u, S(), root);
    }

    /** `growproc` for a process of sz bytes: it has sz + n bytes afterwards, or failed and is as
        it was. New pages are zeroed and writable, pages given up are free, and no page is
        lost. A shrink by more than sz changes nothing. */
    method Growproc(root: nat, sz: nat, n: int) returns (ok: bool, sz': nat)
      requires Valid() && Process(S(), root, Pages(sz)) && (n > 0 ==> Pages(sz + n) <= TRAPFRAME)
      modifies this
      ensures Valid() && Process(S(), root, Pages(sz'))
      ensures ok <==> n <= 0 || Affords(old(S()), root, Pages(sz), Pages(sz + n))
      ensures sz' == if ok && sz + n >= 0 then sz + n else sz
      ensures if Pages(sz) <= Pages(sz') then SpaceFrame(old(S()), S(), root, Pages(sz), Pages(sz'))
              else SpaceFrame(old(S()), S(), root, Pages(sz'), Pages(sz))
      ensures n > 0 ==> RoleGrows(old(S()), S(), root)
      ensures n > 0 && ok ==>
                AllBacked(S(), root, Pages(sz), Pages(sz'), PTE_R + PTE_U + PTE_W, Fill(0, PGSIZE))
      ensures n <= 0 ==> UnmapFrame(old(S()), S(), root, Pages(sz'), Pages(sz), true)
      ensures NoneLost(old(S()), S())
    {
      hide Inv, Lookup, PteValid, UnmapFrame, SpaceFrame, RoleGrows, Affords, Process, AllBacked, Mapless, AllMapped;
      hide FirstTaken, RemapsAt, CanGrow, NoneLost;
      ghost var s := S();
      ProcessRoot(s, root, Pages(sz));
      FrameReflexive(s, root, Pages(sz), Pages(sz));
      UnmapFrameStart(s, root, Pages(sz), true);
      NoneLostSame(s);
      var panicked;
      if n > 0 {
        PagesMonotone(sz, sz + n);
        MayGrow(s, root, Pages(sz), Pages(sz + n));
        var r;
        r, panicked := Uvmalloc(root, sz, sz + n, PTE_W);
        NoneLostGrows(s, S(), root);
        if r == 0 {
          ProcessSame(s, S(), root, Pages(sz));
          WidenFrame(s, S(), root, 0, 0, Pages(sz), Pages(sz));
          return false, sz;
        }
        ProcessGrows(s, S(), root, Pages(sz), Pages(sz + n), PTE_R + PTE_U + PTE_W, Fill(0, PGSIZE));
        return true, r;
      }
      // in 64 bits a size below zero is a very large one
      if n < 0 && sz + n >= 0 {
        PagesMonotone(sz + n, sz);
        MayShrink(s, root, Pages(sz + n), Pages(sz));
        var r;
        r, panicked := Uvmdealloc(root, sz, sz + n);
        ProcessShrinks(s, S(), root, Pages(sz), Pages(sz + n));
        NoneLostFreed(s, S(), root, Pages(sz + n), Pages(sz));
        return true, r;
      }
      return true, sz;
    }

    /** The memory of `fork`: a new address space with the given trapframe and a copy of the
        parent's sz bytes, with the same permissions. If it fails, every page has the role it
        had before. */
    method ForkMemory(parent: nat, sz: nat, trapframe: nat, trampoline: nat) returns (child: nat)
      requires Valid() && Process(S(), parent, Pages(sz))
      modifies this
      ensures Valid() && OthersSame(old(S()), S(), child)
      ensures Process(S(), parent, Pages(sz))
      ensures child == 0 <==> |old(free)| < 3 || |old(free)| < 3 + Pages(sz) + |CopyTables(old(free)[0], Pages(sz))|
      ensures child == 0 ==> role == old(role)
      ensures child != 0 ==>
                && child != parent && Process(S(), child, Pages(sz))
                && RoleGrows(old(S()), S(), child)
                && Lookup(S(), child, TRAMPOLINE) == MakePte(trampoline, PTE_R + PTE_X)
                && Lookup(S(), child, TRAPFRAME) == MakePte(trapframe, PTE_R + PTE_W)
                && (forall w: nat :: w < Pages(sz) ==> SameFlags(S(), parent, child, w))
                && forall a: nat :: a < sz ==> SameCopy(S(), parent, child, a)
      ensures NoneLost(old(S()), S())
    {
      hide Inv, Lookup, PteValid, SpaceFrame, RoleGrows, Released, OthersSame, Process, AllCopied, Mapless, AllMapped;
      hide FirstUncopied, CopyPanics, CanCopy, HasByte, ByteOf, MakePte;
      hide Affords, CopyTables, Tables, Path, Cost, Paid, SameCopy, FreshRoot, SameFlags, NoneLost;
      ghost var s := S();
      child := ProcPagetable(trapframe, trampoline);
      if child == 0 {
        NoneLostRole(s, S());
        ParentStays(s, S(), parent, Pages(sz));
        return;
      }
      ghost var t := S();
      NewIsOther(s, t, parent, child, Pages(sz));
      MayCopy(t, parent, child, Pages(sz));
      CopyCost(s, t, child, Pages(sz));
      ProcessRoot(t, parent, Pages(sz));
      ProcessRoot(t, child, 0);
      var ok, panicked := Uvmcopy(parent, child, sz);
      ghost var u := S();
      if !ok {
        ProcessSame(t, u, child, 0);
        ProcFreepagetable(child, 0);
        ForkUndone(s, t, u, S(), child);
        NoneLostRole(s, S());
        ParentStays(s, S(), parent, Pages(sz));
        return 0;
      }
      ForkDone(s, t, u, parent, child, sz);
      NoneLostGrows(s, u, child);
      TopStays(t, u, child, Pages(sz));
    }

    /** `walkaddr`: the page behind virtual page v if user code may access it, else 0. */
    method WalkAddr(root: nat, v: nat) returns (p: nat)
      requires Valid() && Root(root) in node
      ensures p == 0 <==> !UserPage(S(), root, v)
      ensures p != 0 ==> p == PtePage(Lookup(S(), root, v))
    {
      hide FreeOk, InnerOk, LeavesOk, LeafRoles, NodesOk, Typed, PteValid, PteUser, PtePage;
      if v >= TOPVPN { return 0; }
      var found, table := WalkOnly(root, v);
      if !found { ZeroPte(); return 0; }
      var pte := EntryAt(table, v, root);
      if !PteValid(pte) { return 0; }
      if !PteUser(pte) { return 0; }
      UserLeaf(S(), root, v);
      return PtePage(pte);
    }

    /** `copyout`: succeeds exactly when user code may access every page of the range, and
        then the range holds src; a failure has written the first `done` bytes. No other
        byte of this or any other address space changes. */
    method Copyout(root: nat, dstva: nat, src: seq<Byte>) returns (ok: bool, ghost done: nat)
      requires Valid() && Root(root) in node
      modifies this`mem
      ensures Valid() && done <= |src| && (ok <==> done == |src|)
      ensures ok <==> Accessible(old(S()), root, dstva, |src|)
      ensures Holds(S(), root, dstva, src[..done]) && ByteFrame(old(S()), S(), root, dstva, dstva + done)
    {
      hide Inv, UserPage, Holds, ByteFrame, Accessible;
      ghost var s := S();
      done := 0;
      ByteFrameReflexive(s, root, dstva);
      AccessibleNone(s, root, dstva);
      var i := 0;
      while i < |src|
        invariant 0 <= i <= |src| && done == i && Valid() && node == old(node)
        invariant Accessible(s, root, dstva, i)
        invariant Holds(S(), root, dstva, src[..i]) && ByteFrame(s, S(), root, dstva, dstva + i)
        decreases |src| - i
      {
        ghost var t := S();
        var v, o := (dstva + i) / PGSIZE, (dstva + i) % PGSIZE;
        var p := WalkAddr(root, v);
        SameUserPage(s, t, root, dstva, dstva + i, v);
        if p == 0 {
          NotAccessible(s, root, dstva, |src|, i);
          return false, i;
        }
        var n := if PGSIZE - o > |src| - i then |src| - i else PGSIZE - o;
        UserLeaf(t, root, v);
        mem := mem[p := Bytes(PatchPage(mem[p].data, o, src[i..i + n]))];
        StoreStep(t, root, v, o, src[i..i + n]);
        CopyMore(s, t, S(), root, dstva, src, i, n);
        AccessibleMore(s, root, dstva, i, n);
        i, done := i + n, i + n;
      }
      assert src[..i] == src;
      return true, i;
    }

    /** `copyin`: succeeds exactly when user code may access every page of the range, and
        then returns its bytes. */
    method Copyin(root: nat, srcva: nat, len: nat) returns (ok: bool, out: seq<Byte>)
      requires Valid() && Root(root) in node
      ensures ok <==> Accessible(S(), root, srcva, len)
      ensures ok ==> |out| == len && Holds(S(), root, srcva, out)
    {
      hide Inv, UserPage, Holds, Accessible;
      out := [];
      HoldsNone(S(), root, srcva);
      AccessibleNone(S(), root, srcva);
      while |out| < len
        invariant |out| <= len
        invariant Accessible(S(), root, srcva, |out|) && Holds(S(), root, srcva, out)
        decreases len - |out|
      {
        var i := |out|;
        var v, o := (srcva + i) / PGSIZE, (srcva + i) % PGSIZE;
        var p := WalkAddr(root, v);
        if p == 0 {
          NotAccessible(S(), root, srcva, len, i);
          return false, out;
        }
        var n := if PGSIZE - o > len - i then len - i else PGSIZE - o;
        UserLeaf(S(), root, v);
        ReadMore(S(), root, srcva, out, v, o, n);
        AccessibleMore(S(), root, srcva, i, n);
        out := out + mem[p].data[o..o + n];
      }
      return true, out;
    }
  }

  // ----- user memory as bytes -----

  /** User code may access virtual page v. */
  ghost predicate UserPage(s: Vm, root: nat, v: nat) {
    v < TOPVPN && PteValid(Lookup(s, root, v)) && PteUser(Lookup(s, root, v))
  }

  lemma UserLeaf(s: Vm, root: nat, v: nat)
    requires Inv(s) && UserPage(s, root, v)
    ensures v < TRAPFRAME
    ensures var p := PtePage(Lookup(s, root, v));
            p > 0 && p in s.role && s.role[p] == Leaf(root, v) && p in s.mem && s.mem[p].Bytes?
            && |s.mem[p].data| == PGSIZE
  {
    hide FreeOk, InnerOk, LeafRoles, NodesOk;
    LookupTable(s, root, v);
    var k := LeafKey(root, v);
    assert NPTE * k.prefix + v % NPTE == v;
    hide LeavesOk;
  }

  /** User address va of page table root is backed by memory. */
  ghost predicate HasByte(s: Vm, root: nat, va: nat) {
    var e := Lookup(s, root, va / PGSIZE);
    && va / PGSIZE < TRAPFRAME && PteValid(e) && PtePage(e) in s.mem && s.mem[PtePage(e)].Bytes?
    && |s.mem[PtePage(e)].data| == PGSIZE
  }

  ghost function ByteOf(s: Vm, root: nat, va: nat): Byte
    requires HasByte(s, root, va)
  {
    s.mem[PtePage(Lookup(s, root, va / PGSIZE))].data[va % PGSIZE]
  }

  ghost predicate Accessible(s: Vm, root: nat, va: nat, n: nat) {
    forall a: nat :: va <= a < va + n ==> UserPage(s, root, a / PGSIZE)
  }

  /** The bytes of page table root from va on are d. */
  ghost predicate Holds(s: Vm, root: nat, va: nat, d: seq<Byte>) {
    forall a: nat :: va <= a < va + |d| ==> HasByte(s, root, a) && ByteOf(s, root, a) == d[a - va]
  }

  /** Nothing but the bytes lo .. hi of page table root differs between s and t. */
  ghost predicate ByteFrame(s: Vm, t: Vm, root: nat, lo: nat, hi: nat) {
    && t.node == s.node && t.role == s.role && t.free == s.free
    && (forall r: nat, v: nat :: Lookup(t, r, v) == Lookup(s, r, v))
    && (forall q :: q in s.role && !Belongs(s.role[q], root) ==> q in s.mem && q in t.mem && t.mem[q] == s.mem[q])
    && forall r: nat, a: nat :: HasByte(s, r, a) && !(r == root && lo <= a < hi) ==>
         HasByte(t, r, a) && ByteOf(t, r, a) == ByteOf(s, r, a)
  }

  /** After uvmcopy the child reads the parent's byte at every user address, from a page of
      its own. */
  lemma ChildReadsParent(s: Vm, t: Vm, parent: nat, child: nat, n: nat, a: nat)
    requires Inv(s) && Inv(t) && parent != child && n <= TRAPFRAME && a / PGSIZE < n
    requires SpaceFrame(s, t, child, 0, n) && AllCopied(s, t, parent, child, n)
    ensures HasByte(t, child, a) && HasByte(t, parent, a) && ByteOf(t, child, a) == ByteOf(t, parent, a)
    ensures PtePage(Lookup(t, child, a / PGSIZE)) != PtePage(Lookup(t, parent, a / PGSIZE))
    ensures HasByte(s, parent, a) && ByteOf(t, parent, a) == ByteOf(s, parent, a)
  {
    hide Inv, Lookup, PteValid, PtePage;
    var w := a / PGSIZE;
    assert Copied(s, t, parent, child, w) && SameAt(s, t, parent, w);
    LeafPage(s, parent, w);
    LeafPage(t, parent, w);
    LeafPage(t, child, w);
  }

  /** After fork, writing to one of the two address spaces leaves the other as it was. */
  lemma ForkIsolates(s: Vm, t: Vm, u: Vm, parent: nat, child: nat, n: nat, a: nat, lo: nat, hi: nat)
    requires Inv(s) && Inv(t) && parent != child && n <= TRAPFRAME && a / PGSIZE < n
    requires SpaceFrame(s, t, child, 0, n) && AllCopied(s, t, parent, child, n) && HasByte(s, parent, a)
    ensures ByteFrame(t, u, parent, lo, hi) ==> HasByte(u, child, a) && ByteOf(u, child, a) == ByteOf(s, parent, a)
    ensures ByteFrame(t, u, child, lo, hi) ==> HasByte(u, parent, a) && ByteOf(u, parent, a) == ByteOf(s, parent, a)
  {
    hide Inv, Lookup, PteValid, PtePage, HasByte, ByteOf, SpaceFrame, AllCopied;
    ChildReadsParent(s, t, parent, child, n, a);
  }

  /** copyin of a range that copyout has filled, with no store to it in between, returns
      what copyout was given. */
  lemma CopyRoundTrip(s: Vm, t: Vm, root: nat, va: nat, src: seq<Byte>, other: nat, lo: nat, hi: nat, out: seq<Byte>)
    requires Holds(s, root, va, src) && ByteFrame(s, t, other, lo, hi)
    requires other != root || hi <= va || va + |src| <= lo
    requires Holds(t, root, va, out) && |out| == |src|
    ensures out == src
  {
    hide HasByte, ByteOf;
    forall i | 0 <= i < |src| ensures out[i] == src[i] {
      assert HasByte(s, root, va + i) && ByteOf(s, root, va + i) == src[va + i - va];
      assert HasByte(t, root, va + i) && ByteOf(t, root, va + i) == out[va + i - va];
    }
  }

  /** Page p backs user page v of page table r. */
  ghost predicate Backs(s: Vm, p: nat, r: nat, v: nat) {
    v < TRAPFRAME && PteValid(Lookup(s, r, v)) && PtePage(Lookup(s, r, v)) == p
  }

  /** Page conservation: a page of the allocator is on the free list, or is one table of
      one page table, or backs one user page of one page table, or is held by the kernel;
      never two of these, and never in two places. */
  lemma PlacedOnce(s: Vm, p: nat)
    requires Inv(s) && p in s.role
    ensures p in s.free <==> s.role[p].Free?
    ensures forall k :: k in s.node && s.node[k] == p <==> s.role[p] == Node(k)
    ensures forall r: nat, v: nat :: Backs(s, p, r, v) <==> s.role[p] == Leaf(r, v)
  {
    hide Typed, InnerOk, Lookup, PteValid, PtePage;
    forall r: nat, v: nat ensures Backs(s, p, r, v) <==> s.role[p] == Leaf(r, v) {
      if Backs(s, p, r, v) { LeafPage(s, r, v); }
    }
  }

  function PatchPage(data: seq<Byte>, o: nat, c: seq<Byte>): (d: seq<Byte>)
    requires |data| == PGSIZE && o + |c| <= PGSIZE
    ensures |d| == PGSIZE
    ensures forall i :: 0 <= i < PGSIZE ==> d[i] == if o <= i < o + |c| then c[i - o] else data[i]
  {
    data[..o] + c + data[o + |c|..]
  }

  lemma ByteFrameReflexive(s: Vm, root: nat, va: nat)
    requires Inv(s)
    ensures ByteFrame(s, s, root, va, va) && Holds(s, root, va, [])
  {
    hide Lookup;
    RoleMem(s);
  }

  lemma HoldsNone(s: Vm, root: nat, va: nat)
    ensures Holds(s, root, va, [])
  {}

  lemma AccessibleNone(s: Vm, root: nat, va: nat)
    ensures Accessible(s, root, va, 0)
  {}

  lemma SameUserPage(s: Vm, t: Vm, root: nat, lo: nat, hi: nat, v: nat)
    requires ByteFrame(s, t, root, lo, hi)
    ensures UserPage(t, root, v) == UserPage(s, root, v)
  {
    hide Lookup, HasByte;
  }

  lemma NotAccessible(s: Vm, root: nat, va: nat, n: nat, i: nat)
    requires i < n && !UserPage(s, root, (va + i) / PGSIZE)
    ensures !Accessible(s, root, va, n)
  {
    hide UserPage;
  }

  lemma AccessibleMore(s: Vm, root: nat, va: nat, i: nat, n: nat)
    requires Accessible(s, root, va, i) && UserPage(s, root, (va + i) / PGSIZE) && n <= PGSIZE - (va + i) % PGSIZE
    ensures Accessible(s, root, va, i + n)
  {
    hide UserPage;
    forall a: nat | va <= a < va + i + n ensures UserPage(s, root, a / PGSIZE) {
      if a >= va + i { SamePageNumber(va + i, a); }
    }
  }

  lemma SamePageNumber(x: nat, a: nat)
    requires x <= a < x + (PGSIZE - x % PGSIZE)
    ensures a / PGSIZE == x / PGSIZE && a % PGSIZE == x % PGSIZE + (a - x)
  {}

  /** Bytes written to one page are seen there and nowhere else. */
  lemma StoreStep(s: Vm, root: nat, v: nat, o: nat, c: seq<Byte>)
    requires Inv(s) && UserPage(s, root, v) && o + |c| <= PGSIZE
    ensures var p := PtePage(Lookup(s, root, v));
            && p in s.mem && s.mem[p].Bytes? && |s.mem[p].data| == PGSIZE
            && Inv(Stored(s, p, PatchPage(s.mem[p].data, o, c)))
            && PageWrite(s, Stored(s, p, PatchPage(s.mem[p].data, o, c)), root, v, o, c)
  {
    hide Typed, FreeOk, InnerOk, LeavesOk, LeafRoles, NodesOk;
    hide Lookup, UserPage, PatchPage, SameTables, PteValid, PtePage;
    UserLeaf(s, root, v);
    var p := PtePage(Lookup(s, root, v));
    var t := Stored(s, p, PatchPage(s.mem[p].data, o, c));
    StoredInv(s, p, PatchPage(s.mem[p].data, o, c));
    SameTablesEntries(s, t);
    RoleMem(s);
    forall r: nat, a: nat | HasByte(s, r, a)
      ensures HasByte(t, r, a)
      ensures ByteOf(t, r, a) ==
                if r == root && a / PGSIZE == v && o <= a % PGSIZE < o + |c| then c[a % PGSIZE - o] else ByteOf(s, r, a)
    {
      LeafPage(s, r, a / PGSIZE);
    }
  }

  ghost predicate PageWrite(s: Vm, t: Vm, root: nat, v: nat, o: nat, c: seq<Byte>) {
    && t.node == s.node && t.role == s.role && t.free == s.free
    && (forall r: nat, w: nat :: Lookup(t, r, w) == Lookup(s, r, w))
    && (forall q :: q in s.role && !Belongs(s.role[q], root) ==> q in s.mem && q in t.mem && t.mem[q] == s.mem[q])
    && forall r: nat, a: nat :: HasByte(s, r, a) ==>
         && HasByte(t, r, a)
         && ByteOf(t, r, a) ==
                   if r == root && a / PGSIZE == v && o <= a % PGSIZE < o + |c| then c[a % PGSIZE - o]
                   else ByteOf(s, r, a)
  }

  lemma CopyMore(s: Vm, t: Vm, u: Vm, root: nat, va: nat, src: seq<Byte>, i: nat, n: nat)
    requires 0 < n <= PGSIZE - (va + i) % PGSIZE && i + n <= |src| && Inv(t) && UserPage(t, root, (va + i) / PGSIZE)
    requires ByteFrame(s, t, root, va, va + i) && Holds(t, root, va, src[..i])
    requires PageWrite(t, u, root, (va + i) / PGSIZE, (va + i) % PGSIZE, src[i..i + n])
    ensures ByteFrame(s, u, root, va, va + i + n) && Holds(u, root, va, src[..i + n])
  {
    hide Inv, Lookup, UserPage;
    var v, o, c := (va + i) / PGSIZE, (va + i) % PGSIZE, src[i..i + n];
    forall a: nat | va <= a < va + i + n ensures HasByte(u, root, a) && ByteOf(u, root, a) == src[a - va] {
      CopyByte(t, u, root, va, src, i, n, a);
    }
    forall r: nat, a: nat | HasByte(s, r, a) && !(r == root && va <= a < va + i + n)
      ensures HasByte(u, r, a) && ByteOf(u, r, a) == ByteOf(s, r, a)
    {
      InChunk(va + i, n, a);
    }
    hide HasByte, ByteOf;
  }

  lemma InChunk(x: nat, n: nat, a: nat)
    requires n <= PGSIZE - x % PGSIZE
    ensures x <= a < x + n <==> a / PGSIZE == x / PGSIZE && x % PGSIZE <= a % PGSIZE < x % PGSIZE + n
    ensures x <= a < x + n ==> a % PGSIZE - x % PGSIZE == a - x
  {}

  lemma CopyByte(t: Vm, u: Vm, root: nat, va: nat, src: seq<Byte>, i: nat, n: nat, a: nat)
    requires 0 < n <= PGSIZE - (va + i) % PGSIZE && i + n <= |src| && Inv(t) && UserPage(t, root, (va + i) / PGSIZE)
    requires Holds(t, root, va, src[..i]) && va <= a < va + i + n
    requires PageWrite(t, u, root, (va + i) / PGSIZE, (va + i) % PGSIZE, src[i..i + n])
    ensures HasByte(u, root, a) && ByteOf(u, root, a) == src[a - va]
  {
    hide Inv, Lookup;
    InChunk(va + i, n, a);
    if a >= va + i {
      UserLeaf(t, root, (va + i) / PGSIZE);
      assert HasByte(t, root, a);
    } else {
      assert HasByte(t, root, a) && ByteOf(t, root, a) == src[a - va];
    }
  }

  lemma ReadMore(s: Vm, root: nat, va: nat, out: seq<Byte>, v: nat, o: nat, n: nat)
    requires Inv(s) && UserPage(s, root, v) && v == (va + |out|) / PGSIZE && o == (va + |out|) % PGSIZE
    requires n <= PGSIZE - o
    requires Holds(s, root, va, out)
    ensures var p := PtePage(Lookup(s, root, v));
            p in s.mem && s.mem[p].Bytes? && |s.mem[p].data| == PGSIZE
            && Holds(s, root, va, out + s.mem[p].data[o..o + n])
  {
    hide Inv, Lookup;
    UserLeaf(s, root, v);
    var p := PtePage(Lookup(s, root, v));
    var d := out + s.mem[p].data[o..o + n];
    forall a: nat | va <= a < va + |d| ensures HasByte(s, root, a) && ByteOf(s, root, a) == d[a - va] {
      if a >= va + |out| {
        InChunk(va + |out|, n, a);
      } else {
        assert HasByte(s, root, a) && ByteOf(s, root, a) == out[a - va];
      }
    }
  }

  /** The address space of a process with n user pages. */
  ghost predicate Process(s: Vm, root: nat, n: nat) {
    && Root(root) in s.node && n <= TRAPFRAME
    && forall w: nat :: PteValid(Lookup(s, root, w)) <==> w < n || w == TRAPFRAME || w == TRAMPOLINE
  }

  // ----- a process's memory from creation to release -----

  lemma ProcessRoot(s: Vm, root: nat, n: nat)
    requires Process(s, root, n)
    ensures Root(root) in s.node && n <= TRAPFRAME
  {}

  lemma ProcessSame(s: Vm, t: Vm, root: nat, n: nat)
    requires Process(s, root, n) && SpaceFrame(s, t, root, 0, 0) && NodesKept(s, t)
    ensures Process(t, root, n)
  {
    hide Lookup, PteValid, SpaceFrame;
    forall w: nat ensures PteValid(Lookup(t, root, w)) <==> w < n || w == TRAPFRAME || w == TRAMPOLINE {
      OutsideSame(s, t, root, 0, 0, w);
    }
  }

  lemma MayGrow(s: Vm, root: nat, m: nat, n: nat)
    requires Process(s, root, m) && m <= n <= TRAPFRAME
    ensures FirstTaken(s, root, m, n) == n && !RemapsAt(s, root, m, n, n)
    ensures CanGrow(s, root, m, n) <==> Affords(s, root, m, n)
  {
    hide FirstTaken, Lookup, PteValid;
    var f := FirstTaken(s, root, m, n);
    assert Vacant(s, root, f) <==> !PteValid(Lookup(s, root, f));
  }

  /** uvmalloc gives a process the pages up to its new size. */
  lemma ProcessGrows(s: Vm, t: Vm, root: nat, m: nat, n: nat, perm: nat, data: seq<Byte>)
    requires Process(s, root, m) && m <= n <= TRAPFRAME && NodesKept(s, t)
    requires SpaceFrame(s, t, root, m, n) && AllBacked(t, root, m, n, perm, data)
    ensures Process(t, root, n)
  {
    hide Lookup, PteValid, PtePage, SpaceFrame;
    forall w: nat ensures PteValid(Lookup(t, root, w)) <==> w < n || w == TRAPFRAME || w == TRAMPOLINE {
      if m <= w < n { assert Backed(t, root, w, perm, data); } else { OutsideSame(s, t, root, m, n, w); }
    }
  }

  lemma MayShrink(s: Vm, root: nat, n: nat, m: nat)
    requires Process(s, root, m) && n <= m
    ensures AllMapped(s, root, n, m)
  {
    hide Lookup, PteValid;
  }

  /** uvmdealloc leaves it the pages below its new size. */
  lemma ProcessShrinks(s: Vm, t: Vm, root: nat, m: nat, n: nat)
    requires Process(s, root, m) && n <= m && t.node == s.node
    requires SpaceFrame(s, t, root, n, m) && Mapless(t, root, n, m)
    ensures Process(t, root, n)
  {
    hide Lookup, PteValid, SpaceFrame;
    forall w: nat ensures PteValid(Lookup(t, root, w)) <==> w < n || w == TRAPFRAME || w == TRAMPOLINE {
      if n <= w < m { assert Vacant(t, root, w); } else { OutsideSame(s, t, root, n, m, w); }
    }
  }

  lemma MayCopy(s: Vm, parent: nat, child: nat, n: nat)
    requires Process(s, parent, n) && Process(s, child, 0)
    ensures FirstUncopied(s, parent, child, 0, n) == n && !CopyPanics(s, parent, child, n, n)
    ensures CanCopy(s, parent, child, n) <==> Affords(s, child, 0, n)
  {
    hide FirstUncopied, Lookup, PteValid;
    var f := FirstUncopied(s, parent, child, 0, n);
    assert Vacant(s, child, f) <==> f < TOPVPN && !PteValid(Lookup(s, child, f));
    assert Present(s, parent, f) <==> f < TOPVPN && PteValid(Lookup(s, parent, f));
  }

  /** Parent and child have the same byte at user address a. */
  ghost predicate SameCopy(s: Vm, parent: nat, child: nat, a: nat) {
    HasByte(s, child, a) && HasByte(s, parent, a) && ByteOf(s, child, a) == ByteOf(s, parent, a)
  }

  /** Parent and child have the same permissions at page w. */
  ghost predicate SameFlags(s: Vm, parent: nat, child: nat, w: nat) {
    PteFlags(Lookup(s, child, w)) == PteFlags(Lookup(s, parent, w))
  }

  lemma CopiedFlags(t: Vm, u: Vm, parent: nat, child: nat, n: nat)
    requires AllCopied(t, u, parent, child, n) && SpaceFrame(t, u, child, 0, n) && parent != child
    ensures forall w: nat :: w < n ==> SameFlags(u, parent, child, w)
  {
    hide Lookup, PteValid, PtePage, PteFlags;
    forall w: nat | w < n ensures SameFlags(u, parent, child, w) {
      assert Copied(t, u, parent, child, w) && SameAt(t, u, parent, w);
      ValidFlag(Lookup(t, parent, w));
    }
  }

  lemma ValidFlag(e: nat)
    requires PteValid(e)
    ensures PteFlags(e) % 2 == 1
  {}

  /** The two pages at the top of an address space stay as they are. */
  lemma TopStays(t: Vm, u: Vm, root: nat, n: nat)
    requires Process(t, root, 0) && SpaceFrame(t, u, root, 0, n) && n <= TRAPFRAME
    ensures Lookup(u, root, TRAMPOLINE) == Lookup(t, root, TRAMPOLINE)
    ensures Lookup(u, root, TRAPFRAME) == Lookup(t, root, TRAPFRAME)
  {
    hide Lookup, PteValid, PtePage;
    assert SameAt(t, u, root, TRAMPOLINE) && SameAt(t, u, root, TRAPFRAME);
  }

  // ----- no page is lost -----

  /** No page is in the kernel's hands that was not before. */
  ghost predicate NoneLost(s: Vm, t: Vm) {
    && t.role.Keys == s.role.Keys
    && forall p :: p in t.role && t.role[p].Held? ==> p in s.role && s.role[p].Held?
  }

  lemma NoneLostSame(s: Vm)
    ensures NoneLost(s, s)
  {}

  lemma NoneLostRole(s: Vm, t: Vm)
    requires t.role == s.role
    ensures NoneLost(s, t)
  {}

  lemma NoneLostGrows(s: Vm, t: Vm, root: nat)
    requires RoleGrows(s, t, root)
    ensures NoneLost(s, t)
  {}

  lemma NoneLostFreed(s: Vm, t: Vm, root: nat, lo: nat, hi: nat)
    requires UnmapFrame(s, t, root, lo, hi, true)
    ensures NoneLost(s, t)
  {}

  /** The tables that n pages need in page table r beside those of the two top pages. */
  ghost function CopyTables(r: nat, n: nat): set<Key> {
    Tables(r, 0, n) - Path(r, TRAMPOLINE)
  }

  lemma CopyCost(s: Vm, t: Vm, child: nat, n: nat)
    requires forall k :: k in s.node ==> k.root != child
    requires Paid(s, t, {Root(child)} + Path(child, TRAMPOLINE), 0)
    ensures Affords(t, child, 0, n) <==> |t.free| >= n + |CopyTables(child, n)|
  {
    hide Path, Tables;
    TablesBelow(child, n);
    assert Tables(child, 0, n) - t.node.Keys == CopyTables(child, n);
  }

  lemma {:induction false} TablesBelow(root: nat, n: nat)
    ensures forall k :: k in Tables(root, 0, n) ==> k.root == root && k.level < 2
  {
    if n > 0 { TablesBelow(root, n - 1); }
  }

  /** uvmcopy gives the child as many pages as the parent has, and leaves the parent its own. */
  lemma ProcessCopied(s: Vm, t: Vm, parent: nat, child: nat, n: nat)
    requires Process(s, parent, n) && Process(s, child, 0) && parent != child && NodesKept(s, t)
    requires SpaceFrame(s, t, child, 0, n) && AllCopied(s, t, parent, child, n)
    ensures Process(t, parent, n) && Process(t, child, n)
  {
    hide Lookup, PteValid, PtePage, PteFlags, SpaceFrame;
    forall w: nat ensures PteValid(Lookup(t, child, w)) <==> w < n || w == TRAPFRAME || w == TRAMPOLINE {
      if w < n { assert Copied(s, t, parent, child, w); } else { OutsideSame(s, t, child, 0, n, w); }
    }
    forall w: nat ensures PteValid(Lookup(t, parent, w)) <==> w < n || w == TRAPFRAME || w == TRAMPOLINE {
      OtherSame(s, t, parent, child, 0, n, w);
    }
  }

  /** The page table that proc_pagetable makes is not the parent's, which stays. */
  lemma NewIsOther(s: Vm, t: Vm, parent: nat, child: nat, n: nat)
    requires Inv(s) && Process(s, parent, n) && OthersSame(s, t, child) && NodesKept(s, t)
    requires forall k :: k in s.node ==> k.root != child
    ensures parent != child && Process(t, parent, n)
  {
    hide Inv, Lookup, PteValid, PtePage;
    assert Root(parent).root == parent;
    forall w: nat ensures PteValid(Lookup(t, parent, w)) <==> PteValid(Lookup(s, parent, w)) {
      assert SameAt(s, t, parent, w);
    }
  }

  lemma ParentStays(s: Vm, x: Vm, parent: nat, n: nat)
    requires Inv(s) && Inv(x) && x.role == s.role && OthersSame(s, x, 0) && Process(s, parent, n)
    ensures Process(x, parent, n)
  {
    assert parent in s.role && s.role[parent] == Node(Root(parent)) && parent > 0 by {
      hide FreeOk, InnerOk, LeavesOk, LeafRoles, Lookup;
    }
    RoleNode(x, parent);
    hide Inv, Lookup, PteValid, PtePage;
    forall w: nat ensures PteValid(Lookup(x, parent, w)) <==> PteValid(Lookup(s, parent, w)) {
      assert SameAt(s, x, parent, w);
    }
  }

  /** A failed fork gives back every page it took. */
  lemma ForkUndone(s: Vm, t: Vm, u: Vm, x: Vm, child: nat)
    requires Inv(s) && FreshRoot(s, child) && RoleGrows(s, t, child) && OthersSame(s, t, child)
    requires RoleGrows(t, u, child) && SpaceFrame(t, u, child, 0, 0) && Released(u, x, child)
    ensures x.role == s.role && OthersSame(s, x, 0)
  {
    hide Inv, Lookup, PteValid, SpaceFrame, OthersSame, RoleGrows, Released;
    RoleGrowsTransitive(s, t, u, child);
    FrameOthers(t, u, child, 0, 0);
    OthersTransitive(s, t, u, child);
    Undone(s, u, x, child);
  }

  lemma ForkDone(s: Vm, t: Vm, u: Vm, parent: nat, child: nat, sz: nat)
    requires Inv(t) && Inv(u) && Process(t, parent, Pages(sz)) && Process(t, child, 0) && parent != child
    requires NodesKept(t, u) && RoleGrows(s, t, child) && OthersSame(s, t, child) && RoleGrows(t, u, child)
    requires SpaceFrame(t, u, child, 0, Pages(sz)) && AllCopied(t, u, parent, child, Pages(sz))
    ensures Process(u, parent, Pages(sz)) && Process(u, child, Pages(sz))
    ensures RoleGrows(s, u, child) && OthersSame(s, u, child)
    ensures forall a: nat :: a < sz ==> SameCopy(u, parent, child, a)
    ensures forall w: nat :: w < Pages(sz) ==> SameFlags(u, parent, child, w)
  {
    hide Inv, Lookup, PteValid, SpaceFrame, OthersSame, RoleGrows, AllCopied, Process, HasByte, ByteOf, SameFlags;
    CopiedFlags(t, u, parent, child, Pages(sz));
    ProcessRoot(t, parent, Pages(sz));
    ProcessCopied(t, u, parent, child, Pages(sz));
    RoleGrowsTransitive(s, t, u, child);
    FrameOthers(t, u, child, 0, Pages(sz));
    OthersTransitive(s, t, u, child);
    forall a: nat | a < sz ensures SameCopy(u, parent, child, a) {
      assert a / PGSIZE < Pages(sz);
      ChildReadsParent(t, u, parent, child, Pages(sz), a);
    }
  }

  ghost predicate OthersSame(s: Vm, t: Vm, root: nat) {
    forall r: nat, w: nat :: r != root ==> SameAt(s, t, r, w)
  }

  ghost predicate FreshRoot(s: Vm, root: nat) {
    root in s.role && s.role[root].Free?
  }

  /** Exactly the pages of page table root have become free; other address spaces and held
      pages are untouched. */
  ghost predicate Released(s: Vm, t: Vm, root: nat) {
    && t.role.Keys == s.role.Keys
    && (forall p :: p in s.role ==> t.role[p] == if Belongs(s.role[p], root) then Free else s.role[p])
    && (forall p :: p in s.role && s.role[p].Held? ==> p in s.mem && p in t.mem && t.mem[p] == s.mem[p])
    && (forall k :: k in t.node ==> k.root != root)
    && OthersSame(s, t, root)
  }

  lemma NewTable(s: Vm, junk: seq<Byte>)
    requires Inv(s) && s.free != []
    ensures var p := s.free[0]; var t := NewRoot(Popped(s, junk), p);
            && p in s.role && s.role[p].Free? && Inv(t) && NoLeaves(t, p) && AllSame(s, t)
            && t.role == s.role[p := Node(Root(p))] && RoleGrows(s, t, p)
  {
    hide Typed, FreeOk, InnerOk, LeavesOk, LeafRoles, NodesOk, Lookup, PteValid, PtePage, SameTables;
    var p, t0 := s.free[0], Popped(s, junk);
    var t := NewRoot(t0, p);
    PoppedInv(s, junk);
    SameTablesEntries(s, t0);
    NewRootInv(t0, p);
    RoleMem(s);
    forall r: nat, w: nat ensures SameAt(s, t, r, w) {
      NewRootLookup(t0, p, r, w);
      if PteValid(Lookup(s, r, w)) && w < TRAPFRAME { LeafPage(s, r, w); }
    }
    forall w: nat ensures !PteValid(Lookup(t, p, w)) {
      NewRootNew(t0, p);
      NewRootLookup(t0, p, p, w);
      NoTableNoLookup(t0, p, w);
    }
  }

  /** No table belongs to a page that is free. */
  lemma NoRootYet(s: Vm, root: nat)
    requires Inv(s) && FreshRoot(s, root)
    ensures forall k :: k in s.node ==> k.root != root
  {
    assert Root(root) !in s.node by { hide Typed, FreeOk, InnerOk, LeavesOk, LeafRoles; }
    hide Inv;
    forall k | k in s.node ensures k.root != root {
      OrphanFree(s, root, k);
    }
  }

  /** The two top pages share their tables. */
  lemma TopTables(root: nat)
    ensures Path(root, TRAMPOLINE) == Path(root, TRAPFRAME) == {Key(root, 1, 255), Key(root, 0, 131071)}
  {}

  lemma TwoKeys(s: Vm, root: nat, a: nat, b: nat)
    requires Key(root, 1, a) !in s.node && Key(root, 0, b) !in s.node
    ensures Cost(s, {Key(root, 1, a), Key(root, 0, b)}) == 2
  {
    assert {Key(root, 1, a), Key(root, 0, b)} - s.node.Keys == {Key(root, 1, a), Key(root, 0, b)};
  }

  /** A new page table has neither of the tables for the two top pages. */
  lemma TopCost(s: Vm, t: Vm, u: Vm, root: nat)
    requires (forall k :: k in s.node ==> k.root != root) && Paid(s, t, {Root(root)}, 0)
    ensures Cost(s, {Root(root)}) == 1 && Cost(t, Path(root, TRAMPOLINE)) == 2
    ensures Paid(t, u, Path(root, TRAMPOLINE), 0) ==> Cost(u, Path(root, TRAPFRAME)) == 0
  {
    hide Path, Cost;
    TopTables(root);
    OneKey(s, Root(root));
    TwoKeys(t, root, 255, 131071);
    if Paid(t, u, Path(root, TRAMPOLINE), 0) { NoCost(u, Path(root, TRAPFRAME)); }
  }

  lemma TopPaid(s: Vm, t: Vm, u: Vm, v: Vm, root: nat)
    requires Paid(s, t, {Root(root)}, 0) && Paid(t, u, Path(root, TRAMPOLINE), 0)
    requires Paid(u, v, Path(root, TRAPFRAME), 0)
    requires Cost(s, {Root(root)}) == 1 && Cost(t, Path(root, TRAMPOLINE)) == 2 && Cost(u, Path(root, TRAPFRAME)) == 0
    ensures Paid(s, v, {Root(root)} + Path(root, TRAMPOLINE), 0) && |v.free| + 3 == |s.free|
  {
    hide Path, Cost;
    TopTables(root);
    PaidMore(s, t, u, {Root(root)}, 0, Path(root, TRAMPOLINE), 0);
    PaidMore(s, u, v, {Root(root)} + Path(root, TRAMPOLINE), 0, Path(root, TRAPFRAME), 0);
    var ks := {Root(root)} + Path(root, TRAMPOLINE);
    assert ks + Path(root, TRAPFRAME) == ks;
  }

  lemma NoCost(s: Vm, ks: set<Key>)
    requires ks <= s.node.Keys
    ensures Cost(s, ks) == 0
  {
    assert ks - s.node.Keys == {};
  }

  lemma AllSameOthers(s: Vm, t: Vm, root: nat)
    requires AllSame(s, t)
    ensures OthersSame(s, t, root)
  {
    hide SameAt;
  }

  lemma NowEmpty(s: Vm, t: Vm, root: nat, n: nat)
    requires SpaceFrame(s, t, root, 0, n) && (forall w: nat :: PteValid(Lookup(s, root, w)) <==> w < n)
    requires Mapless(t, root, 0, n)
    ensures NoLeaves(t, root)
  {
    hide Lookup, PteValid, SpaceFrame;
    forall w: nat ensures !PteValid(Lookup(t, root, w)) {
      if w >= n { OutsideSame(s, t, root, 0, n, w); } else { MaplessAt(t, root, 0, n, w); }
    }
  }

  lemma AllReleased(s: Vm, t: Vm, u: Vm, root: nat, n: nat)
    requires Inv(s) && Inv(u) && (forall w: nat :: PteValid(Lookup(s, root, w)) <==> w < n)
    requires UnmapFrame(s, t, root, 0, n, true) && SpaceFrame(s, t, root, 0, n)
    requires Shrinks(t, u, Root(root)) && Root(root) !in u.node && AllSame(t, u)
    ensures Released(s, u, root)
  {
    hide Typed, FreeOk, InnerOk, LeavesOk, NodesOk, Lookup, PteValid, PtePage, SameAt;
    forall k | k in u.node ensures k.root != root {
      OrphanFree(u, root, k);
    }
    assert OthersSame(s, u, root) by { FramedOthers(s, t, u, root, 0, n); }
    hide SpaceFrame, AllSame, OthersSame;
  }

  lemma FramedOthers(s: Vm, t: Vm, u: Vm, root: nat, lo: nat, hi: nat)
    requires SpaceFrame(s, t, root, lo, hi) && AllSame(t, u)
    ensures OthersSame(s, u, root)
  {
    hide Lookup, PteValid, PtePage;
    forall r: nat, w: nat | r != root ensures SameAt(s, u, r, w) {
      assert SameAt(s, t, r, w) && SameAt(t, u, r, w);
    }
  }

  lemma FrameOthers(s: Vm, t: Vm, root: nat, lo: nat, hi: nat)
    requires SpaceFrame(s, t, root, lo, hi)
    ensures OthersSame(s, t, root)
  {
    hide SameAt;
  }

  lemma OthersTransitive(s: Vm, t: Vm, u: Vm, root: nat)
    requires OthersSame(s, t, root) && OthersSame(t, u, root)
    ensures OthersSame(s, u, root)
  {
    hide Lookup, PteValid, PtePage;
    forall r: nat, w: nat | r != root ensures SameAt(s, u, r, w) {
      assert SameAt(s, t, r, w) && SameAt(t, u, r, w);
    }
  }

  lemma TopReady(t: Vm, root: nat, v: nat, p: nat, perm: nat)
    requires NoLeaves(t, root) && TRAPFRAME <= v && perm in {PTE_R + PTE_X, PTE_R + PTE_W}
    ensures !PteValid(Lookup(t, root, v)) && Mappable(t, v, p, perm)
  {
    hide Lookup, PteValid;
  }

  lemma StillEmpty(t: Vm, u: Vm, root: nat)
    requires NoLeaves(t, root) && SpaceFrame(t, u, root, 0, 0)
    ensures OthersSame(t, u, root) && forall w: nat :: PteValid(Lookup(u, root, w)) <==> w < Pages(0)
  {
    hide Lookup, PteValid, SpaceFrame, OthersSame;
    FrameOthers(t, u, root, 0, 0);
    forall w: nat ensures !PteValid(Lookup(u, root, w)) {
      OutsideSame(t, u, root, 0, 0, w);
    }
  }

  /** A failed proc_pagetable gives back every page it took. */
  lemma Undone(s: Vm, w: Vm, x: Vm, root: nat)
    requires Inv(s) && FreshRoot(s, root)
    requires RoleGrows(s, w, root) && OthersSame(s, w, root) && Released(w, x, root)
    ensures x.role == s.role && OthersSame(s, x, 0)
  {
    hide FreeOk, InnerOk, LeavesOk, Lookup, PteValid, PtePage, SameAt, OthersSame;
    assert Root(root) !in s.node by { hide LeafRoles; }
    forall p | p in s.role ensures !Belongs(s.role[p], root) {
      if s.role[p].Node? { RoleNode(s, p); OrphanFree(s, root, s.role[p].key) by { hide NodesOk, Typed, LeafRoles; } }
      if s.role[p].Leaf? { NoTableNoLookup(s, root, s.role[p].vpn); }
    }
    hide NodesOk, LeafRoles, Typed;
    assert x.role == s.role;
    OthersTransitive(s, w, x, root);
    forall v: nat ensures !PteValid(Lookup(s, root, v)) && !PteValid(Lookup(x, root, v)) {
      NoTableNoLookup(s, root, v);
      NoKeysNoLookup(x, root, v);
    }
    OthersAndRoot(s, x, root);
  }

  lemma NoKeysNoLookup(x: Vm, root: nat, v: nat)
    requires forall k :: k in x.node ==> k.root != root
    ensures !PteValid(Lookup(x, root, v))
  {}

  lemma OthersAndRoot(s: Vm, x: Vm, root: nat)
    requires OthersSame(s, x, root)
    requires forall w: nat :: !PteValid(Lookup(s, root, w)) && !PteValid(Lookup(x, root, w))
    ensures OthersSame(s, x, 0)
  {
    hide Lookup, PteValid, PtePage;
    forall r: nat, w: nat ensures SameAt(s, x, r, w) {
      if r == root { assert !PteValid(Lookup(s, root, w)); }
    }
  }

  lemma RoleMem(s: Vm)
    requires Inv(s)
    ensures forall p :: p in s.role ==> p in s.mem
  {
    hide FreeOk, InnerOk, LeavesOk, LeafRoles, NodesOk;
  }

  lemma TopMapGrows(t: Vm, u: Vm, root: nat, v: nat, p: nat)
    requires MapFrame(t, u, root, v, p, 1) && TRAPFRAME <= v
    ensures RoleGrows(t, u, root)
  {}

  lemma TopUnmapGrows(v: Vm, w: Vm, root: nat, lo: nat, hi: nat)
    requires Inv(v) && UnmapFrame(v, w, root, lo, hi, false) && TRAPFRAME <= lo
    ensures w.role == v.role && RoleGrows(v, w, root)
  {
    hide Typed, FreeOk, InnerOk, LeavesOk, NodesOk, Lookup, PteValid, PtePage;
  }

  ghost predicate OnlyAt(s: Vm, root: nat, v: nat) {
    forall w: nat :: w != v ==> !PteValid(Lookup(s, root, w))
  }

  lemma FirstTop(t: Vm, u: Vm, root: nat, trampoline: nat, trapframe: nat)
    requires NoLeaves(t, root) && SpaceFrame(t, u, root, TRAMPOLINE, TRAMPOLINE + 1)
    requires MapFrame(t, u, root, TRAMPOLINE, trampoline, 1)
    ensures OnlyAt(u, root, TRAMPOLINE) && RoleGrows(t, u, root) && OthersSame(t, u, root)
    ensures !PteValid(Lookup(u, root, TRAPFRAME)) && Mappable(u, TRAPFRAME, trapframe, PTE_R + PTE_W)
  {
    hide Lookup, PteValid, SpaceFrame, MapFrame, RoleGrows, OthersSame;
    TopMapGrows(t, u, root, TRAMPOLINE, trampoline);
    FrameOthers(t, u, root, TRAMPOLINE, TRAMPOLINE + 1);
    forall w: nat | w != TRAMPOLINE ensures !PteValid(Lookup(u, root, w)) {
      OutsideSame(t, u, root, TRAMPOLINE, TRAMPOLINE + 1, w);
    }
  }

  lemma BothTops(s: Vm, t: Vm, u: Vm, v: Vm, root: nat, trampoline: nat, trapframe: nat)
    requires RoleGrows(s, t, root) && OthersSame(s, t, root) && RoleGrows(t, u, root) && OthersSame(t, u, root)
    requires OnlyAt(u, root, TRAMPOLINE) && Lookup(u, root, TRAMPOLINE) == MakePte(trampoline, PTE_R + PTE_X)
    requires SpaceFrame(u, v, root, TRAPFRAME, TRAPFRAME + 1) && MapFrame(u, v, root, TRAPFRAME, trapframe, 1)
    requires Lookup(v, root, TRAPFRAME) == MakePte(trapframe, PTE_R + PTE_W) && Root(root) in v.node
    ensures Process(v, root, 0) && RoleGrows(s, v, root) && OthersSame(s, v, root)
    ensures Lookup(v, root, TRAMPOLINE) == MakePte(trampoline, PTE_R + PTE_X)
  {
    hide Lookup, PteValid, SpaceFrame, MapFrame, RoleGrows, OthersSame, MakePte;
    PteFields(trampoline, PTE_R + PTE_X);
    PteFields(trapframe, PTE_R + PTE_W);
    forall w: nat | w != TRAPFRAME
      ensures if PteValid(Lookup(u, root, w)) then Lookup(v, root, w) == Lookup(u, root, w)
              else !PteValid(Lookup(v, root, w))
    {
      OutsideSame(u, v, root, TRAPFRAME, TRAPFRAME + 1, w);
    }
    TopMapGrows(u, v, root, TRAPFRAME, trapframe);
    RoleGrowsTransitive(s, t, u, root);
    RoleGrowsTransitive(s, u, v, root);
    FrameOthers(u, v, root, TRAPFRAME, TRAPFRAME + 1);
    OthersTransitive(s, t, u, root);
    OthersTransitive(s, u, v, root);
  }

  lemma OneTop(s: Vm, t: Vm, root: nat, n: nat)
    requires Process(s, root, n) && SpaceFrame(s, t, root, TRAMPOLINE, TRAMPOLINE + 1)
    requires !PteValid(Lookup(t, root, TRAMPOLINE))
    ensures forall w: nat :: PteValid(Lookup(t, root, w)) <==> w < n || w == TRAPFRAME
  {
    hide Lookup, PteValid, SpaceFrame;
    forall w: nat ensures PteValid(Lookup(t, root, w)) <==> w < n || w == TRAPFRAME {
      if w != TRAMPOLINE { OutsideSame(s, t, root, TRAMPOLINE, TRAMPOLINE + 1, w); }
    }
  }

  lemma NoTop(t: Vm, u: Vm, root: nat, n: nat)
    requires SpaceFrame(t, u, root, TRAPFRAME, TRAPFRAME + 1) && !PteValid(Lookup(u, root, TRAPFRAME)) && n <= TRAPFRAME
    requires forall w: nat :: PteValid(Lookup(t, root, w)) <==> w < n || w == TRAPFRAME
    ensures forall w: nat :: PteValid(Lookup(u, root, w)) <==> w < n
  {
    hide Lookup, PteValid, SpaceFrame;
    forall w: nat ensures PteValid(Lookup(u, root, w)) <==> w < n {
      if w != TRAPFRAME { OutsideSame(t, u, root, TRAPFRAME, TRAPFRAME + 1, w); }
    }
  }

  lemma ReleasedBefore(s: Vm, t: Vm, u: Vm, x: Vm, root: nat)
    requires Inv(s) && Inv(t) && UnmapFrame(s, t, root, TRAMPOLINE, TRAMPOLINE + 1, false)
    requires UnmapFrame(t, u, root, TRAPFRAME, TRAPFRAME + 1, false) && Released(u, x, root)
    requires SpaceFrame(s, t, root, TRAMPOLINE, TRAMPOLINE + 1) && SpaceFrame(t, u, root, TRAPFRAME, TRAPFRAME + 1)
    ensures Released(s, x, root)
  {
    hide Inv, SpaceFrame, OthersSame, UnmapFrame;
    TopUnmapGrows(s, t, root, TRAMPOLINE, TRAMPOLINE + 1);
    TopUnmapGrows(t, u, root, TRAPFRAME, TRAPFRAME + 1);
    FrameOthers(s, t, root, TRAMPOLINE, TRAMPOLINE + 1);
    FrameOthers(t, u, root, TRAPFRAME, TRAPFRAME + 1);
    OthersTransitive(s, t, u, root);
    OthersTransitive(s, u, x, root);
  }

  /** A page table without a root has no tables at all. */
  lemma OrphanFree(s: Vm, root: nat, k: Key)
    requires Inv(s) && Root(root) !in s.node && k in s.node
    ensures k.root != root
    decreases 2 - k.level
  {
    hide Typed, FreeOk, InnerOk, LeavesOk, LeafRoles;
    assert KeyOk(k);
    if k.root == root && k.level < 2 { OrphanFree(s, root, Parent(k)); }
  }

  lemma NoTableNoLookup(s: Vm, root: nat, w: nat)
    requires Inv(s) && Root(root) !in s.node
    ensures !PteValid(Lookup(s, root, w))
  {
    hide Typed, FreeOk, InnerOk, LeavesOk, LeafRoles, NodesOk;
    if LeafKey(root, w) in s.node { OrphanFree(s, root, LeafKey(root, w)); }
  }

  ghost predicate NoLeaves(s: Vm, root: nat) {
    forall v: nat :: !PteValid(Lookup(s, root, v))
  }

  ghost predicate AllSame(s: Vm, t: Vm) {
    forall r: nat, w: nat :: SameAt(s, t, r, w)
  }

  /** The entry for k in its parent, unless k is a root. */
  ghost predicate ParentKnows(s: Vm, k: Key) {
    k.level < 2 ==> HasEntry(s, Parent(k), k.prefix % NPTE)
  }

  /** s with the entry for k in its parent cleared. */
  ghost function Cut(s: Vm, k: Key): Vm
    requires ParentKnows(s, k)
  {
    if k.level < 2 then SetEntry(s, Parent(k), k.prefix % NPTE, 0) else s
  }

  /** From s to t, only nodes of k's page table at or below k's level have gone, and all
      that have gone are free; everything else keeps its role, its place and its bytes. */
  ghost predicate Shrinks(s: Vm, t: Vm, k: Key) {
    && t.role.Keys == s.role.Keys
    && (forall j :: j in t.node ==> j in s.node && t.node[j] == s.node[j])
    && (forall j :: j in s.node && !(j.root == k.root && (j == k || j.level < k.level)) ==>
          j in t.node && s.node[j] in s.mem && s.node[j] in t.mem && t.mem[s.node[j]] == s.mem[s.node[j]])
    && forall p :: p in s.role ==>
         if s.role[p].Node? && s.role[p].key !in t.node then t.role[p].Free? && s.role[p].key.root == k.root
         else
           && t.role[p] == s.role[p]
           && (s.role[p].Held? || s.role[p].Leaf? ==> p in s.mem && p in t.mem && t.mem[p] == s.mem[p])
  }

  lemma ShrinksReflexive(s: Vm, k: Key)
    requires Inv(s)
    ensures Shrinks(s, s, k) && AllSame(s, s)
  {
    hide InnerOk, LeavesOk, LeafRoles, FreeOk, Lookup;
    FrameReflexive(s, 0, 0, 0);
    assert forall j :: j in s.node ==> s.node[j] in s.mem;
    hide NodesOk;
  }

  /** Without user mappings an entry is clear or points to a lower table. */
  lemma FreeableEntry(s: Vm, k: Key, i: nat)
    requires Inv(s) && k in s.node && i < NPTE && HasEntry(s, k, i) && NoLeaves(s, k.root)
    ensures PteValid(Entry(s, k, i)) ==>
              && 0 < k.level <= 2 && !PteLeaf(Entry(s, k, i)) && Child(k, i) in s.node
              && s.node[Child(k, i)] == PtePage(Entry(s, k, i)) && Parent(Child(k, i)) == k
              && Child(k, i).prefix % NPTE == i
  {
    hide FreeOk, LeafRoles, Typed, PteValid, PteLeaf, PtePage;
    assert KeyOk(k);
    if k.level > 0 {
      ChildParent(k, i);
    } else {
      var v := NPTE * k.prefix + i;
      assert LeafKey(k.root, v) == k && v % NPTE == i;
      assert Lookup(s, k.root, v) == Entry(s, k, i);
    }
  }

  lemma SurvivesBelow(t: Vm, u: Vm, k: Key, i: nat)
    requires k.level > 0 && k in t.node && Shrinks(t, u, Child(k, i)) && HasEntry(t, k, i)
    ensures k in u.node && u.node[k] == t.node[k] && t.node[k] in u.mem && u.mem[t.node[k]] == t.mem[t.node[k]]
  {}

  lemma AfterChild(s: Vm, t: Vm, u: Vm, w: Vm, k: Key, i: nat)
    requires 0 < k.level <= 2 && k in s.node && k in t.node && k in u.node && u.node[k] == t.node[k]
    requires HasEntry(t, k, i) && HasEntry(u, k, i) && i < NPTE
    requires Shrinks(s, t, k) && AllSame(s, t) && Shrinks(t, u, Child(k, i))
    requires t.node[k] in u.mem && u.mem[t.node[k]] == t.mem[t.node[k]]
    requires Parent(Child(k, i)) == k && Child(k, i).prefix % NPTE == i
    requires ParentKnows(u, Child(k, i)) && Inv(Cut(u, Child(k, i))) && AllSame(t, Cut(u, Child(k, i)))
    requires w == SetEntry(u, k, i, 0) && NoLeaves(t, k.root) && Inv(s)
    requires forall x: nat :: x < i ==> HasEntry(t, k, x) && !PteValid(Entry(t, k, x))
    ensures Inv(w) && Shrinks(s, w, k) && AllSame(s, w) && NoLeaves(w, k.root)
    ensures k in w.node && w.node[k] == t.node[k]
    ensures forall x: nat :: x < i + 1 ==> HasEntry(w, k, x) && !PteValid(Entry(w, k, x))
  {
    hide Inv, Shrinks, AllSame, NoLeaves, Lookup, Parent, PteValid;
    assert w == Cut(u, Child(k, i));
    ShrinksMore(s, t, u, w, k, i);
    AllSameTransitive(s, t, w);
    SameNoLeaves(t, w, k.root);
    assert !PteValid(0) by { ZeroPte(); }
    forall x: nat | x < i + 1 ensures HasEntry(w, k, x) && !PteValid(Entry(w, k, x)) {
      if x < i { assert HasEntry(t, k, x) && !PteValid(Entry(t, k, x)); }
    }
  }

  lemma AllSameTransitive(s: Vm, t: Vm, u: Vm)
    requires AllSame(s, t) && AllSame(t, u)
    ensures AllSame(s, u)
  {
    hide Lookup, PteValid, PtePage;
    forall r: nat, w: nat ensures SameAt(s, u, r, w) {
      assert SameAt(s, t, r, w) && SameAt(t, u, r, w);
    }
  }

  lemma SameNoLeaves(s: Vm, t: Vm, root: nat)
    requires AllSame(s, t) && NoLeaves(s, root)
    ensures NoLeaves(t, root)
  {
    hide Lookup, PteValid, PtePage;
    forall v: nat ensures !PteValid(Lookup(t, root, v)) {
      assert SameAt(s, t, root, v);
    }
  }

  lemma ShrinksMore(s: Vm, t: Vm, u: Vm, w: Vm, k: Key, i: nat)
    requires k.level > 0 && Shrinks(s, t, k) && Shrinks(t, u, Child(k, i)) && k in s.node && k in t.node && k in u.node
    requires HasEntry(u, k, i) && w == SetEntry(u, k, i, 0) && Inv(s)
    ensures Shrinks(s, w, k)
  {
    hide Typed, FreeOk, InnerOk, LeavesOk, LeafRoles, NodesOk;
    NodeRole(s, k);
    forall j | j in s.node && j != k ensures s.node[j] != s.node[k] {
      if s.node[j] == s.node[k] { DistinctNodes(s, j, k); }
    }
  }

  /** The state after kfree of the emptied table k, whose parent still points to it. */
  ghost function Retired(t: Vm, k: Key): Vm
    requires k in t.node
  {
    var p := t.node[k];
    Vm(t.mem[p := Run(NextFree(t.free, 0))], [p] + t.free, t.role[p := Free], t.node - {k})
  }

  lemma NodeFreed(s: Vm, t: Vm, k: Key)
    requires Inv(s) && Inv(t) && k in s.node && k in t.node && Shrinks(s, t, k) && AllSame(s, t)
    requires forall x: nat :: x < NPTE ==> HasEntry(t, k, x) && !PteValid(Entry(t, k, x))
    ensures var w := Retired(t, k);
            && ParentKnows(w, k) && Inv(Cut(w, k)) && Shrinks(s, w, k) && k !in w.node && AllSame(s, Cut(w, k))
  {
    hide Typed, FreeOk, InnerOk, LeavesOk, LeafRoles, NodesOk, Shrinks, AllSame, Lookup;
    var w, p := Retired(t, k), t.node[k];
    DroppedInv(t, k);
    var d := Dropped(t, k);
    if k.level < 2 {
      HasParent(t, k);
      NodeRole(t, Parent(k));
    }
    NodeRole(t, k);
    assert Cut(w, k) == PushedFree(d, p);
    PushedFreeInv(d, p);
    RetiredSame(t, k);
    AllSameTransitive(s, t, PushedFree(d, p));
    RetiredShrinks(s, t, k);
  }

  lemma RetiredSame(t: Vm, k: Key)
    requires Inv(t) && Emptied(t, k) && ParentKnows(t, k) && Inv(Dropped(t, k))
    requires t.node[k] in t.role && t.role[t.node[k]] == Node(k)
    requires Inv(PushedFree(Dropped(t, k), t.node[k]))
    requires SameTables(Dropped(t, k), PushedFree(Dropped(t, k), t.node[k]))
    ensures AllSame(t, PushedFree(Dropped(t, k), t.node[k]))
  {
    hide Typed, FreeOk, InnerOk, LeavesOk, LeafRoles, NodesOk, Lookup, PteValid, PtePage, SameTables, Entry;
    var d, e := Dropped(t, k), PushedFree(Dropped(t, k), t.node[k]);
    SameTablesEntries(d, e);
    forall r: nat, w: nat ensures SameAt(t, e, r, w) {
      DroppedLookup(t, k, r, w);
      if PteValid(Lookup(t, r, w)) && w < TRAPFRAME {
        LeafPage(t, r, w);
        if k.level < 2 { NodeRole(t, Parent(k)); }
      }
    }
  }

  lemma RetiredShrinks(s: Vm, t: Vm, k: Key)
    requires Inv(s) && k in s.node && k in t.node && Shrinks(s, t, k)
    ensures Shrinks(s, Retired(t, k), k)
  {
    hide Typed, FreeOk, InnerOk, LeavesOk, LeafRoles, NodesOk;
    NodeRole(s, k);
    forall j | j in s.node && j != k ensures s.node[j] != s.node[k] {
      if s.node[j] == s.node[k] { DistinctNodes(s, j, k); }
    }
    forall p | p in s.role && s.role[p] == Node(k) ensures p == s.node[k] {
      RoleNode(s, p);
    }
  }

  lemma RoleNode(s: Vm, p: nat)
    requires NodesOk(s) && p in s.role && s.role[p].Node?
    ensures s.role[p].key in s.node && s.node[s.role[p].key] == p
  {}

  /** Page w of the child is, in t, a copy of the parent's page w in s. */
  ghost predicate Copied(s: Vm, t: Vm, parent: nat, child: nat, w: nat) {
    var e := Lookup(s, parent, w);
    && PteValid(e) && PtePage(e) in s.mem && s.mem[PtePage(e)].Bytes?
    && Backed(t, child, w, PteFlags(e), s.mem[PtePage(e)].data)
  }

  ghost predicate AllCopied(s: Vm, t: Vm, parent: nat, child: nat, n: nat) {
    forall w: nat :: w < n ==> Copied(s, t, parent, child, w)
  }

  lemma NoneCopied(s: Vm, parent: nat, child: nat)
    ensures AllCopied(s, s, parent, child, 0)
  {}

  lemma FlagsLeaf(e: nat)
    requires PteValid(e) && PteLeaf(e)
    ensures PteFlags(e) < 1024 && PteFlags(e) / 2 % 8 != 0 && PteFlags(e) % 2 == 1
  {
    ShiftOne(PtePage(e), PteFlags(e));
    PteBits(PtePage(e), PteFlags(e));
  }

  lemma CopySource(s: Vm, t: Vm, parent: nat, child: nat, i: nat)
    requires Inv(s) && Inv(t) && SpaceFrame(s, t, child, 0, i) && parent != child && i < TRAPFRAME
    requires PteValid(Lookup(s, parent, i))
    ensures Lookup(t, parent, i) == Lookup(s, parent, i)
    ensures var e := Lookup(s, parent, i);
            && PtePage(e) in s.mem && PtePage(e) in t.mem && s.mem[PtePage(e)].Bytes?
            && t.mem[PtePage(e)] == s.mem[PtePage(e)]
            && |s.mem[PtePage(e)].data| == PGSIZE
            && PteFlags(e) < 1024 && PteFlags(e) / 2 % 8 != 0 && PteFlags(e) % 2 == 1
            && LeafKey(parent, i) in t.node
  {
    hide Typed, FreeOk, InnerOk, LeavesOk, LeafRoles, NodesOk, PteFlags, PteLeaf, PtePage, PteValid;
    assert SameAt(s, t, parent, i);
    LeafPage(s, parent, i);
    LookupTable(t, parent, i);
    FlagsLeaf(Lookup(s, parent, i));
  }

  lemma CopiedValid(s: Vm, t: Vm, parent: nat, child: nat, n: nat)
    requires AllCopied(s, t, parent, child, n) && n <= TOPVPN
    ensures AllMapped(t, child, 0, n)
  {
    hide Lookup, PteValid, PtePage;
    forall w: nat | w < n ensures Present(t, child, w) {
      assert Copied(s, t, parent, child, w);
    }
  }

  lemma StillCopied(s: Vm, t: Vm, u: Vm, parent: nat, child: nat, i: nat, to: nat)
    requires SpaceFrame(s, t, child, 0, i) && i <= to <= i + 1 && i < TRAPFRAME && AllCopied(s, t, parent, child, i)
    requires if to == i then SpaceFrame(t, u, child, 0, 0) else SpaceFrame(t, u, child, i, i + 1)
    requires to == i + 1 ==> Copied(s, u, parent, child, i)
    ensures SpaceFrame(s, u, child, 0, to) && AllCopied(s, u, parent, child, to)
  {
    hide Lookup, PteValid, PtePage, PteFlags, SameAt, Backed;
    if to == i { WidenFrame(t, u, child, 0, 0, i, to); }
    WidenFrame(s, t, child, 0, i, 0, to);
    WidenFrame(t, u, child, i, to, 0, to);
    SpaceFrameTransitive(s, t, u, child, 0, to);
    forall w: nat | w < to ensures Copied(s, u, parent, child, w) {
      if w < i {
        assert Copied(s, t, parent, child, w);
        var e := Lookup(s, parent, w);
        BackedSame(t, u, child, i, to, w, PteFlags(e), s.mem[PtePage(e)].data);
      }
    }
  }

  lemma PagesMonotone(x: nat, y: nat)
    requires x <= y
    ensures Pages(x) <= Pages(y)
  {}

  lemma PagesAbove(a: nat, sz: nat)
    requires a * PGSIZE < sz
    ensures a < Pages(sz)
  {}

  lemma PagesReached(a: nat, sz: nat)
    requires a * PGSIZE >= sz && a <= Pages(sz)
    ensures a == Pages(sz)
  {}

  lemma PagesExact(a: nat)
    ensures Pages(a * PGSIZE) == a
  {}

  /** Pages added so far stay as they are when page a is added, or not. */
  lemma StillBacked(s: Vm, t: Vm, u: Vm, root: nat, lo: nat, a: nat, from: nat, to: nat, perm: nat, data: seq<Byte>)
    requires SpaceFrame(s, t, root, lo, a) && lo <= a <= TRAPFRAME && a == from <= to <= a + 1
    requires SpaceFrame(t, u, root, from, to) || (to == from && SpaceFrame(t, u, root, 0, 0))
    requires AllBacked(t, root, lo, a, perm, data)
    requires to == a + 1 ==> Backed(u, root, a, perm, data)
    ensures SpaceFrame(s, u, root, lo, to)
    ensures AllBacked(u, root, lo, to, perm, data)
  {
    hide Lookup, PteValid, PtePage, PteFlags, SameAt;
    if to == from && SpaceFrame(t, u, root, 0, 0) { WidenFrame(t, u, root, 0, 0, from, to); }
    WidenFrame(s, t, root, lo, a, lo, to);
    WidenFrame(t, u, root, from, to, lo, to);
    SpaceFrameTransitive(s, t, u, root, lo, to);
    forall w: nat | lo <= w < to ensures Backed(u, root, w, perm, data) {
      if w < a {
        assert Backed(t, root, w, perm, data);
        BackedSame(t, u, root, from, to, w, perm, data);
      }
    }
  }

  lemma BackedSame(t: Vm, u: Vm, root: nat, from: nat, to: nat, w: nat, perm: nat, data: seq<Byte>)
    requires SpaceFrame(t, u, root, from, to) && !(from <= w < to) && w < TRAPFRAME && Backed(t, root, w, perm, data)
    ensures Backed(u, root, w, perm, data)
  {
    assert SameAt(t, u, root, w);
  }

  /** Adding pages lo .. hi and then removing them leaves every address space as it was. */
  lemma RolledBack(s: Vm, t: Vm, u: Vm, root: nat, lo: nat, hi: nat)
    requires Inv(s) && Mapless(s, root, lo, hi)
    requires SpaceFrame(s, t, root, lo, hi) && RoleGrows(s, t, root)
    requires u == t || (SpaceFrame(t, u, root, lo, hi) && UnmapFrame(t, u, root, lo, hi, true))
    requires Mapless(u, root, lo, hi)
    ensures SpaceFrame(s, u, root, 0, 0) && RoleGrows(s, u, root)
  {
    hide Typed, FreeOk, InnerOk, LeavesOk, NodesOk, Lookup, PteValid, PtePage, Mapless;
    forall w: nat | lo <= w < hi ensures !PteValid(Lookup(s, root, w)) && !PteValid(Lookup(u, root, w)) {
      MaplessAt(s, root, lo, hi, w);
      MaplessAt(u, root, lo, hi, w);
    }
    forall r: nat, w: nat ensures SameAt(s, u, r, w) {
      if !(r == root && lo <= w < hi) {
        assert SameAt(s, t, r, w);
        if u != t { assert SameAt(t, u, r, w); }
      }
    }
  }

  /** PGROUNDUP(sz) / PGSIZE. */
  function Pages(sz: nat): nat {
    (sz + PGSIZE - 1) / PGSIZE
  }

  /** Page v of page table root is mapped, with these permissions and these bytes. */
  ghost predicate Backed(s: Vm, root: nat, v: nat, perm: nat, data: seq<Byte>) {
    var e := Lookup(s, root, v);
    && PteValid(e) && PteFlags(e) == (if perm % 2 == 1 then perm else perm + 1)
    && PtePage(e) in s.mem && s.mem[PtePage(e)] == Bytes(data)
  }

  ghost predicate Present(s: Vm, root: nat, w: nat) {
    w < TOPVPN && PteValid(Lookup(s, root, w))
  }

  ghost predicate Vacant(s: Vm, root: nat, w: nat) {
    w < TOPVPN && !PteValid(Lookup(s, root, w))
  }

  ghost predicate AllMapped(s: Vm, root: nat, lo: nat, hi: nat) {
    forall w: nat :: lo <= w < hi ==> Present(s, root, w)
  }

  /** No page of the range is mapped, and all can be. */
  ghost predicate Mapless(s: Vm, root: nat, lo: nat, hi: nat) {
    forall w: nat :: lo <= w < hi ==> Vacant(s, root, w)
  }

  /** There are pages enough for lo .. hi and for their missing tables. */
  ghost predicate Affords(s: Vm, root: nat, lo: nat, hi: nat) {
    |s.free| >= hi - lo + Cost(s, Tables(root, lo, hi))
  }

  /** The first page of lo .. hi that is mapped already, or hi. */
  ghost function FirstTaken(s: Vm, root: nat, lo: nat, hi: nat): (f: nat)
    requires lo <= hi
    ensures lo <= f <= hi && Mapless(s, root, lo, f) && (f < hi ==> !Vacant(s, root, f))
    decreases hi - lo
  {
    if lo == hi || !Vacant(s, root, lo) then lo else FirstTaken(s, root, lo + 1, hi)
  }

  /** Page `stop` is mapped, and memory lasts until kalloc has a page for it. */
  ghost predicate RemapsAt(s: Vm, root: nat, lo: nat, hi: nat, stop: nat) {
    lo <= stop < hi && |s.free| >= stop - lo + 1 + Cost(s, Tables(root, lo, stop))
  }

  ghost predicate CanGrow(s: Vm, root: nat, lo: nat, hi: nat) {
    Mapless(s, root, lo, hi) && Affords(s, root, lo, hi)
  }

  lemma TakenAt(s: Vm, root: nat, lo: nat, hi: nat, a: nat)
    requires lo <= a < hi <= TOPVPN && a <= FirstTaken(s, root, lo, hi)
    ensures a == FirstTaken(s, root, lo, hi) <==> PteValid(Lookup(s, root, a))
  {
    hide FirstTaken, Lookup, PteValid;
    if a < FirstTaken(s, root, lo, hi) { assert Vacant(s, root, a); }
  }

  /** What the first page that AddPage does not add says about the whole range. */
  lemma GrowEnds(s: Vm, t: Vm, root: nat, lo: nat, a: nat, hi: nat)
    requires lo <= a < hi <= TOPVPN && a <= FirstTaken(s, root, lo, hi) && Paid(s, t, Tables(root, lo, a), a - lo)
    ensures var stop := FirstTaken(s, root, lo, hi);
            && (a == stop && |t.free| > 0 ==> RemapsAt(s, root, lo, hi, stop) && !CanGrow(s, root, lo, hi))
            && (a == stop && |t.free| == 0 ==> !RemapsAt(s, root, lo, hi, stop) && !CanGrow(s, root, lo, hi))
            && (a < stop && |t.free| < 1 + Cost(t, Path(root, a)) ==>
                 !RemapsAt(s, root, lo, hi, stop) && !CanGrow(s, root, lo, hi))
  {
    hide FirstTaken, Tables, Path, Vacant;
    var stop := FirstTaken(s, root, lo, hi);
    if a < stop && |t.free| < 1 + Cost(t, Path(root, a)) {
      PaidOut(s, t, root, lo, a, hi, a - lo, 1);
      PaidOut(s, t, root, lo, a, stop, a - lo, 1);
    }
  }

  lemma GrowDone(s: Vm, root: nat, lo: nat, hi: nat)
    requires lo <= hi && FirstTaken(s, root, lo, hi) == hi && Affords(s, root, lo, hi)
    ensures CanGrow(s, root, lo, hi) && !RemapsAt(s, root, lo, hi, hi)
  {
    hide FirstTaken;
  }

  /** The first page of i .. n that uvmcopy cannot copy, or n. */
  ghost function FirstUncopied(s: Vm, parent: nat, child: nat, i: nat, n: nat): (f: nat)
    requires i <= n
    ensures i <= f <= n && AllMapped(s, parent, i, f) && Mapless(s, child, i, f)
    ensures f < n ==> !(Present(s, parent, f) && Vacant(s, child, f))
    decreases n - i
  {
    if i == n || !(Present(s, parent, i) && Vacant(s, child, i)) then i else FirstUncopied(s, parent, child, i + 1, n)
  }

  /** Memory lasts until page `stop`, and if the parent has it, for one page more. */
  ghost predicate CopyPanics(s: Vm, parent: nat, child: nat, n: nat, stop: nat) {
    stop < n && |s.free| >= stop + (if Present(s, parent, stop) then 1 else 0) + Cost(s, Tables(child, 0, stop))
  }

  ghost predicate CanCopy(s: Vm, parent: nat, child: nat, n: nat) {
    AllMapped(s, parent, 0, n) && Mapless(s, child, 0, n) && Affords(s, child, 0, n)
  }

  lemma UncopiedAt(s: Vm, parent: nat, child: nat, n: nat, i: nat)
    requires i <= FirstUncopied(s, parent, child, 0, n) && i < n <= TOPVPN
    ensures i == FirstUncopied(s, parent, child, 0, n) <==>
              !PteValid(Lookup(s, parent, i)) || PteValid(Lookup(s, child, i))
    ensures Present(s, parent, i) <==> PteValid(Lookup(s, parent, i))
  {
    hide FirstUncopied, Lookup, PteValid;
    if i < FirstUncopied(s, parent, child, 0, n) { assert Present(s, parent, i) && Vacant(s, child, i); }
  }

  lemma CopyEnds(s: Vm, t: Vm, parent: nat, child: nat, i: nat, n: nat)
    requires i < n <= TOPVPN && i <= FirstUncopied(s, parent, child, 0, n) && Paid(s, t, Tables(child, 0, i), i)
    ensures var stop := FirstUncopied(s, parent, child, 0, n);
            && (i == stop ==>
                  && !CanCopy(s, parent, child, n)
                  && (CopyPanics(s, parent, child, n, stop) <==> Present(s, parent, i) ==> |t.free| > 0))
            && (i < stop && |t.free| < 1 + Cost(t, Path(child, i)) ==>
                  !CopyPanics(s, parent, child, n, stop) && !CanCopy(s, parent, child, n))
  {
    hide FirstUncopied, Tables, Path, Vacant, Present;
    var stop := FirstUncopied(s, parent, child, 0, n);
    if i < stop && |t.free| < 1 + Cost(t, Path(child, i)) {
      PaidOut(s, t, child, 0, i, n, i, 1);
      PaidOut(s, t, child, 0, i, stop, i, 1);
    }
  }

  lemma CopyDone(s: Vm, parent: nat, child: nat, n: nat)
    requires FirstUncopied(s, parent, child, 0, n) == n && Affords(s, child, 0, n)
    ensures CanCopy(s, parent, child, n) && !CopyPanics(s, parent, child, n, n)
  {
    hide FirstUncopied;
  }

  lemma VacantPart(s: Vm, parent: nat, child: nat, i: nat, n: nat)
    requires i <= FirstUncopied(s, parent, child, 0, n)
    ensures Mapless(s, child, 0, i)
  {
    MaplessPart(s, child, 0, i, FirstUncopied(s, parent, child, 0, n));
  }

  /** Another address space is untouched by changes to page table root. */
  lemma OtherSame(s: Vm, t: Vm, r: nat, root: nat, lo: nat, hi: nat, w: nat)
    requires SpaceFrame(s, t, root, lo, hi) && r != root
    ensures PteValid(Lookup(t, r, w)) <==> PteValid(Lookup(s, r, w))
  {
    assert SameAt(s, t, r, w);
  }

  lemma Affordable(s: Vm, t: Vm, root: nat, lo: nat, hi: nat)
    requires lo <= hi && Paid(s, t, Tables(root, lo, hi), hi - lo)
    ensures Affords(s, root, lo, hi)
  {}

  lemma MaplessNone(s: Vm, root: nat, lo: nat)
    ensures Mapless(s, root, lo, lo) && AllMapped(s, root, lo, lo)
  {}

  lemma MaplessAt(s: Vm, root: nat, lo: nat, hi: nat, w: nat)
    requires Mapless(s, root, lo, hi) && lo <= w < hi
    ensures !PteValid(Lookup(s, root, w))
  {
    assert Vacant(s, root, w);
  }

  lemma MaplessPart(s: Vm, root: nat, lo: nat, a: nat, hi: nat)
    requires Mapless(s, root, lo, hi) && a <= hi
    ensures Mapless(s, root, lo, a)
  {}

  /** One more page decides about the longer range. */
  lemma MaplessNext(s: Vm, root: nat, lo: nat, a: nat, hi: nat)
    requires Mapless(s, root, lo, a) && lo <= a < hi
    ensures if a >= TOPVPN || PteValid(Lookup(s, root, a)) then !Mapless(s, root, a, a + 1) && !Mapless(s, root, lo, hi)
            else Mapless(s, root, lo, a + 1)
  {
    hide Lookup, PteValid;
    assert Vacant(s, root, a) <==> a < TOPVPN && !PteValid(Lookup(s, root, a));
  }

  lemma MappedNext(s: Vm, root: nat, lo: nat, a: nat, hi: nat)
    requires AllMapped(s, root, lo, a) && lo <= a < hi
    ensures if a < TOPVPN && PteValid(Lookup(s, root, a)) then AllMapped(s, root, lo, a + 1)
            else !AllMapped(s, root, lo, hi)
  {
    hide Lookup, PteValid;
    assert Present(s, root, a) <==> a < TOPVPN && PteValid(Lookup(s, root, a));
  }

  ghost predicate AllBacked(s: Vm, root: nat, lo: nat, hi: nat, perm: nat, data: seq<Byte>) {
    forall w: nat :: lo <= w < hi ==> Backed(s, root, w, perm, data)
  }

  lemma BackedValid(s: Vm, root: nat, lo: nat, hi: nat, perm: nat, data: seq<Byte>)
    requires AllBacked(s, root, lo, hi, perm, data) && hi <= TOPVPN
    ensures AllMapped(s, root, lo, hi)
  {
    hide Lookup, PteValid, PtePage;
    forall w: nat | lo <= w < hi ensures Present(s, root, w) {
      assert Backed(s, root, w, perm, data);
    }
  }

  lemma FreshPage(s: Vm, junk: seq<Byte>, root: nat, v: nat, init: seq<Byte>, perm: nat)
    requires Inv(s) && s.free != [] && |init| == PGSIZE && v < TRAPFRAME
    requires perm < 1024 && perm / 2 % 8 != 0
    ensures var p := s.free[0]; var t := Stored(Popped(s, junk), p, init);
            && Inv(t) && SpaceFrame(s, t, root, 0, 0) && p in s.role && s.role[p].Free?
            && Lookup(t, root, v) == Lookup(s, root, v) && Mappable(t, v, p, perm)
  {
    hide Typed, FreeOk, InnerOk, LeavesOk, LeafRoles, NodesOk, Lookup, PteValid, PtePage, SameTables;
    var p, t0 := s.free[0], Popped(s, junk);
    var t := Stored(t0, p, init);
    PoppedInv(s, junk);
    StoredInv(t0, p, init);
    SameTablesEntries(s, t0);
    SameTablesEntries(t0, t);
    forall r: nat, w: nat ensures SameAt(s, t, r, w) {
      if PteValid(Lookup(s, r, w)) && w < TRAPFRAME { LeafPage(s, r, w); }
    }
  }

  lemma HeldStays(s: Vm, t: Vm, root: nat, p: nat)
    requires RoleGrows(s, t, root) && p in s.role && s.role[p].Held?
    ensures p in t.role && t.role[p].Held?
  {}

  lemma AddedPage(s: Vm, t: Vm, u: Vm, root: nat, v: nat, p: nat, perm: nat, init: seq<Byte>)
    requires p in s.role && s.role[p].Free? && t.role == s.role[p := Held] && t.mem == s.mem[p := Bytes(init)] && Inv(s)
    requires SpaceFrame(s, t, root, 0, 0) && SpaceFrame(t, u, root, v, v + 1) && MapFrame(t, u, root, v, p, 1)
    requires v < TRAPFRAME && perm < 1024 && Lookup(u, root, v) == MakePte(p, perm)
    ensures SpaceFrame(s, u, root, v, v + 1) && RoleGrows(s, u, root) && Backed(u, root, v, perm, init)
  {
    hide FreeOk, InnerOk, LeavesOk, LeafRoles, NodesOk, Lookup, SameAt, MakePte;
    WidenFrame(s, t, root, 0, 0, v, v + 1);
    SpaceFrameTransitive(s, t, u, root, v, v + 1);
    PteFields(p, perm);
  }

  lemma TakenBack(s: Vm, t: Vm, u: Vm, root: nat, p: nat)
    requires Inv(s) && Inv(u) && p in s.role && s.role[p].Free?
    requires t.role == s.role[p := Held] && p in t.mem && t.mem == s.mem[p := t.mem[p]]
    requires SpaceFrame(s, t, root, 0, 0) && SpaceFrame(t, u, root, 0, 0) && RoleGrows(t, u, root)
    requires p in u.role && u.role[p].Held?
    ensures RoleGrows(s, PushedFree(u, p), root) && SpaceFrame(s, PushedFree(u, p), root, 0, 0)
  {
    hide FreeOk, InnerOk, LeavesOk, LeafRoles, NodesOk, Lookup, SameAt;
    SpaceFrameTransitive(s, t, u, root, 0, 0);
    PushSame(u, p, root);
    SpaceFrameTransitive(s, u, PushedFree(u, p), root, 0, 0);
    hide SpaceFrame;
  }

  lemma PushSame(s: Vm, p: nat, root: nat)
    requires Inv(s) && p in s.role && s.role[p].Held?
    ensures SpaceFrame(s, PushedFree(s, p), root, 0, 0)
  {
    hide Typed, FreeOk, InnerOk, LeavesOk, LeafRoles, NodesOk, Lookup, PteValid, PtePage, SameTables;
    PushedFreeInv(s, p);
    SameTablesEntries(s, PushedFree(s, p));
    forall r: nat, w: nat ensures SameAt(s, PushedFree(s, p), r, w) {
      if PteValid(Lookup(s, r, w)) && w < TRAPFRAME { LeafPage(s, r, w); }
    }
  }

  /** Page w, to be mapped with v at p, has its page ready. */
  ghost predicate MapReady(s: Vm, v: nat, p: nat, perm: nat, w: nat) {
    v <= w && Mappable(s, w, p + w - v, perm)
  }

  lemma PaidSame(s: Vm, t: Vm, u: Vm, ks: set<Key>)
    requires Paid(s, t, ks, 0) && u.node == t.node && u.free == t.free
    ensures Paid(s, u, ks, 0)
  {}

  lemma NoLookup(s: Vm, root: nat, v: nat)
    requires LeafKey(root, v) !in s.node
    ensures !PteValid(Lookup(s, root, v))
  {}

  lemma MappedLeaf(s: Vm, root: nat, v: nat)
    requires Inv(s) && PteValid(Lookup(s, root, v))
    ensures PteLeaf(Lookup(s, root, v))
  {
    hide Typed, FreeOk, InnerOk, LeafRoles, NodesOk;
    LookupTable(s, root, v);
  }

  lemma MapFrameStart(s: Vm, root: nat, v: nat, p: nat)
    requires Inv(s)
    ensures MapFrame(s, s, root, v, p, 0) && SpaceFrame(s, s, root, v, v) && NodesKept(s, s)
  {
    hide NodesOk, InnerOk, LeavesOk, LeafRoles, FreeOk;
    FrameReflexive(s, root, v, v);
  }

  lemma OutsideSame(s: Vm, t: Vm, root: nat, lo: nat, hi: nat, w: nat)
    requires SpaceFrame(s, t, root, lo, hi) && !(lo <= w < hi)
    ensures if PteValid(Lookup(s, root, w)) then Lookup(t, root, w) == Lookup(s, root, w)
            else !PteValid(Lookup(t, root, w))
  {
    assert SameAt(s, t, root, w);
  }

  lemma MapNext(s: Vm, t: Vm, root: nat, v: nat, p: nat, perm: nat, i: nat)
    requires SpaceFrame(s, t, root, v, v + i) && MapFrame(s, t, root, v, p, i)
    requires MapReady(s, v, p, perm, v + i)
    ensures Mappable(s, v + i, p + i, perm) && Mappable(t, v + i, p + i, perm)
    ensures PteValid(Lookup(t, root, v + i)) <==> PteValid(Lookup(s, root, v + i))
  {
    hide Lookup;
    OutsideSame(s, t, root, v, v + i, v + i);
  }

  lemma WidenFrame(s: Vm, t: Vm, root: nat, lo: nat, hi: nat, lo': nat, hi': nat)
    requires SpaceFrame(s, t, root, lo, hi) && (lo < hi ==> lo' <= lo && hi <= hi')
    ensures SpaceFrame(s, t, root, lo', hi')
  {
    hide SameAt;
  }

  lemma MapExtend(s: Vm, t: Vm, u: Vm, root: nat, v: nat, p: nat, i: nat, perm: nat)
    requires SpaceFrame(s, t, root, v, v + i) && MapFrame(s, t, root, v, p, i)
    requires SpaceFrame(t, u, root, v + i, v + i + 1) && MapFrame(t, u, root, v + i, p + i, 1)
    requires Mappable(s, v + i, p + i, perm)
    requires perm < 1024 && forall w: nat :: v <= w < v + i ==> Lookup(t, root, w) == MakePte(p + w - v, perm)
    ensures SpaceFrame(s, u, root, v, v + i + 1) && MapFrame(s, u, root, v, p, i + 1)
    ensures forall w: nat :: v <= w < v + i ==> Lookup(u, root, w) == MakePte(p + w - v, perm)
  {
    hide Lookup, SameAt, MakePte;
    WidenFrame(s, t, root, v, v + i, v, v + i + 1);
    WidenFrame(t, u, root, v + i, v + i + 1, v, v + i + 1);
    SpaceFrameTransitive(s, t, u, root, v, v + i + 1);
    forall w: nat | v <= w < v + i ensures Lookup(u, root, w) == MakePte(p + w - v, perm) {
      OutsideSame(t, u, root, v + i, v + i + 1, w);
      PteFields(p + w - v, perm);
    }
    hide SpaceFrame;
  }

  lemma MapFailed(s: Vm, t: Vm, u: Vm, root: nat, v: nat, p: nat, i: nat, perm: nat)
    requires SpaceFrame(s, t, root, v, v + i) && MapFrame(s, t, root, v, p, i)
    requires SpaceFrame(t, u, root, 0, 0) && RoleGrows(t, u, root)
    requires perm < 1024 && forall w: nat :: v <= w < v + i ==> Lookup(t, root, w) == MakePte(p + w - v, perm)
    ensures SpaceFrame(s, u, root, v, v + i) && MapFrame(s, u, root, v, p, i)
    ensures forall w: nat :: v <= w < v + i ==> Lookup(u, root, w) == MakePte(p + w - v, perm)
  {
    hide Lookup, SameAt, MakePte;
    WidenFrame(t, u, root, 0, 0, v, v + i);
    SpaceFrameTransitive(s, t, u, root, v, v + i);
    forall w: nat | v <= w < v + i ensures Lookup(u, root, w) == MakePte(p + w - v, perm) {
      OutsideSame(t, u, root, 0, 0, w);
      PteFields(p + w - v, perm);
    }
    hide SpaceFrame;
  }

  /** Exactly the user pages at lo .. hi of page table root change their role. */
  ghost predicate UnmapFrame(s: Vm, t: Vm, root: nat, lo: nat, hi: nat, doFree: bool) {
    && t.role.Keys == s.role.Keys
    && forall q :: q in s.role ==>
         if s.role[q].Leaf? && s.role[q].root == root && lo <= s.role[q].vpn < hi then
           t.role[q] == if doFree then Free else Held
         else
           && t.role[q] == s.role[q]
           && (s.role[q].Held? || s.role[q].Leaf? ==> q in s.mem && q in t.mem && t.mem[q] == s.mem[q])
  }

  lemma UnmapFrameStart(s: Vm, root: nat, v: nat, doFree: bool)
    requires Inv(s)
    ensures UnmapFrame(s, s, root, v, v, doFree) && SpaceFrame(s, s, root, v, v)
  {
    hide NodesOk, InnerOk, LeavesOk, LeafRoles, FreeOk;
    FrameReflexive(s, root, v, v);
  }

  lemma LookupTable(s: Vm, root: nat, v: nat)
    requires PteValid(Lookup(s, root, v))
    ensures LeafKey(root, v) in s.node && HasEntry(s, LeafKey(root, v), v % NPTE)
  {}

  /** The state after one page was unmapped. */
  ghost function AfterUnmap(s: Vm, root: nat, v: nat, doFree: bool): Vm
    requires HasEntry(s, LeafKey(root, v), v % NPTE)
  {
    var t := Unmapped(s, root, v);
    if doFree then PushedFree(t, PtePage(Entry(s, LeafKey(root, v), v % NPTE))) else t
  }

  lemma UnmapStep(s: Vm, root: nat, v: nat, doFree: bool)
    requires Inv(s) && PteValid(Lookup(s, root, v)) && (doFree ==> v < TRAPFRAME)
             && HasEntry(s, LeafKey(root, v), v % NPTE)
    requires Inv(Unmapped(s, root, v))
    ensures var u := AfterUnmap(s, root, v, doFree);
            && Lookup(u, root, v) == 0 && SpaceFrame(s, u, root, v, v + 1) && UnmapFrame(s, u, root, v, v + 1, doFree)
  {
    hide Typed, FreeOk, InnerOk, LeavesOk, LeafRoles, NodesOk;
    var t, u := Unmapped(s, root, v), AfterUnmap(s, root, v, doFree);
    UnmapRoles(s, root, v, doFree);
    UnmapLookup(s, root, v, doFree, root, v);
    forall r: nat, w: nat | !(r == root && v <= w < v + 1) ensures SameAt(s, u, r, w) {
      UnmapSame(s, root, v, doFree, r, w);
    }
  }

  lemma UnmapRoles(s: Vm, root: nat, v: nat, doFree: bool)
    requires Inv(s) && PteValid(Lookup(s, root, v)) && (doFree ==> v < TRAPFRAME)
             && HasEntry(s, LeafKey(root, v), v % NPTE)
    ensures UnmapFrame(s, AfterUnmap(s, root, v, doFree), root, v, v + 1, doFree)
  {
    hide FreeOk, InnerOk, LeavesOk, NodesOk, PteValid, PtePage;
    NodeRole(s, LeafKey(root, v));
    if v < TRAPFRAME { LeafPage(s, root, v); }
  }

  lemma UnmapLookup(s: Vm, root: nat, v: nat, doFree: bool, r: nat, w: nat)
    requires HasEntry(s, LeafKey(root, v), v % NPTE)
    requires Inv(s) && Inv(Unmapped(s, root, v)) && PteValid(Lookup(s, root, v)) && (doFree ==> v < TRAPFRAME)
    ensures Lookup(AfterUnmap(s, root, v, doFree), r, w) == if r == root && w == v then 0 else Lookup(s, r, w)
  {
    hide Typed, FreeOk, InnerOk, LeavesOk, NodesOk, LeafRoles, PteValid, PtePage, PushedFree;
    var t := Unmapped(s, root, v);
    SetLeafLookup(s, root, v, 0, t.role, r, w);
    if doFree {
      LeafPage(s, root, v);
      var p := PtePage(Lookup(s, root, v));
      PushedFreeInv(t, p);
      SameTablesEntries(t, PushedFree(t, p));
    }
  }

  lemma UnmapSame(s: Vm, root: nat, v: nat, doFree: bool, r: nat, w: nat)
    requires HasEntry(s, LeafKey(root, v), v % NPTE) && !(r == root && w == v)
    requires Inv(s) && Inv(Unmapped(s, root, v)) && PteValid(Lookup(s, root, v)) && (doFree ==> v < TRAPFRAME)
    ensures SameAt(s, AfterUnmap(s, root, v, doFree), r, w)
  {
    hide Typed, FreeOk, InnerOk, LeavesOk, NodesOk, LeafRoles, PteValid, PtePage;
    UnmapLookup(s, root, v, doFree, r, w);
    if PteValid(Lookup(s, r, w)) && w < TRAPFRAME {
      LeafPage(s, r, w);
      NodeRole(s, LeafKey(root, v));
      if doFree { LeafPage(s, root, v); }
    }
  }

  lemma UnmapExtend(s: Vm, t: Vm, u: Vm, root: nat, v: nat, i: nat, doFree: bool)
    requires SpaceFrame(s, t, root, v, v + i) && UnmapFrame(s, t, root, v, v + i, doFree)
    requires SpaceFrame(t, u, root, v + i, v + i + 1) && UnmapFrame(t, u, root, v + i, v + i + 1, doFree)
    requires Lookup(u, root, v + i) == 0 && v + i < TOPVPN && Mapless(t, root, v, v + i)
    ensures SpaceFrame(s, u, root, v, v + i + 1) && UnmapFrame(s, u, root, v, v + i + 1, doFree)
    ensures Mapless(u, root, v, v + i + 1)
  {
    hide Lookup, SameAt;
    WidenFrame(s, t, root, v, v + i, v, v + i + 1);
    WidenFrame(t, u, root, v + i, v + i + 1, v, v + i + 1);
    SpaceFrameTransitive(s, t, u, root, v, v + i + 1);
    forall w: nat | v <= w < v + i ensures Vacant(u, root, w) {
      assert Vacant(t, root, w);
      OutsideSame(t, u, root, v + i, v + i + 1, w);
    }
    hide SpaceFrame;
  }

  /** Page p may be mapped at v: below TRAPFRAME a held data page, above it anything
      without user access. */
  ghost predicate Mappable(s: Vm, v: nat, p: nat, perm: nat) {
    && perm < 1024 && perm / 2 % 8 != 0
    && if v < TRAPFRAME then
         p in s.role && s.role[p].Held? && p in s.mem && s.mem[p].Bytes? && |s.mem[p].data| == PGSIZE
       else perm / 16 % 2 == 0
  }

  /** As RoleGrows, with the n pages from p on now mapped from v on. */
  ghost predicate MapFrame(s: Vm, t: Vm, root: nat, v: nat, p: nat, n: nat) {
    && t.role.Keys == s.role.Keys
    && forall q :: q in s.role ==>
         if p <= q < p + n && v + q - p < TRAPFRAME then
           t.role[q] == Leaf(root, v + q - p) && q in s.mem && q in t.mem && t.mem[q] == s.mem[q]
         else if s.role[q].Held? || s.role[q].Leaf? then
           t.role[q] == s.role[q] && q in s.mem && q in t.mem && t.mem[q] == s.mem[q]
         else if s.role[q].Free? then t.role[q].Free? || Belongs(t.role[q], root)
         else t.role[q] == s.role[q]
  }

  lemma WalkedMappable(s: Vm, t: Vm, root: nat, v: nat, p: nat, perm: nat)
    requires Mappable(s, v, p, perm) && RoleGrows(s, t, root) && SpaceFrame(s, t, root, 0, 0)
    requires !PteValid(Lookup(s, root, v)) && HasEntry(t, LeafKey(root, v), v % NPTE)
    ensures CanMap(t, root, v, p, perm)
  {
    hide Lookup;
    assert SameAt(s, t, root, v);
  }

  lemma MapStep(s: Vm, t: Vm, root: nat, v: nat, p: nat, perm: nat)
    requires Inv(s) && Inv(t) && RoleGrows(s, t, root) && SpaceFrame(s, t, root, 0, 0) && NodesKept(s, t)
    requires Mappable(s, v, p, perm) && CanMap(t, root, v, p, perm)
    ensures var u := Mapped(t, root, v, p, perm);
            && Inv(u) && Lookup(u, root, v) == MakePte(p, perm) && NodesKept(s, u)
            && SpaceFrame(s, u, root, v, v + 1) && MapFrame(s, u, root, v, p, 1)
  {
    hide Typed, FreeOk, InnerOk, LeavesOk, LeafRoles, NodesOk, PteValid, PtePage, PteLeaf, MakePte, Lookup;
    var u := Mapped(t, root, v, p, perm);
    MappedInv(t, root, v, p, perm);
    SetLeafLookup(t, root, v, MakePte(p, perm), u.role, root, v);
    MapStepRoles(s, t, root, v, p, perm);
    forall r: nat, w: nat | !(r == root && v <= w < v + 1) ensures SameAt(s, u, r, w) {
      MapStepSame(s, t, root, v, p, perm, r, w);
    }
  }

  lemma MapStepRoles(s: Vm, t: Vm, root: nat, v: nat, p: nat, perm: nat)
    requires Inv(t) && RoleGrows(s, t, root) && Mappable(s, v, p, perm) && CanMap(t, root, v, p, perm)
    ensures MapFrame(s, Mapped(t, root, v, p, perm), root, v, p, 1)
  {
    hide Typed, FreeOk, InnerOk, LeavesOk, LeafRoles, NodesOk, PteValid, PtePage, PteLeaf, MakePte, Lookup;
    NodeRole(t, LeafKey(root, v));
  }

  lemma MapStepSame(s: Vm, t: Vm, root: nat, v: nat, p: nat, perm: nat, r: nat, w: nat)
    requires Inv(s) && Inv(t) && SpaceFrame(s, t, root, 0, 0) && CanMap(t, root, v, p, perm)
    requires !(r == root && w == v)
    ensures SameAt(s, Mapped(t, root, v, p, perm), r, w)
  {
    hide Typed, FreeOk, InnerOk, LeavesOk, LeafRoles, NodesOk, PteValid, PtePage, PteLeaf, MakePte, Lookup;
    var u := Mapped(t, root, v, p, perm);
    assert SameAt(s, t, r, w);
    SetLeafLookup(t, root, v, MakePte(p, perm), u.role, r, w);
    if PteValid(Lookup(s, r, w)) && w < TRAPFRAME {
      LeafPage(t, r, w);
      NodeRole(t, LeafKey(root, v));
    }
  }

  lemma RootIs(s: Vm, root: nat)
    requires Inv(s) && Root(root) in s.node
    ensures s.node[Root(root)] == root
  {
    hide Typed, FreeOk, LeavesOk, LeafRoles, InnerOk;
  }

  lemma FreePositive(s: Vm)
    requires Inv(s)
    ensures s.free != [] ==> s.free[0] != 0 && s.free[0] in s.mem
  {
    hide NodesOk, InnerOk, LeavesOk, LeafRoles;
  }

  /** Without the table at one level there is none further down. */
  lemma MissingBelow(s: Vm, root: nat, level: nat, v: nat)
    requires Inv(s) && level <= 1 && WalkKey(root, level, v) !in s.node && v < TOPVPN
    ensures LeafKey(root, v) !in s.node
  {
    hide Typed, FreeOk, LeavesOk, LeafRoles, InnerOk;
    if level == 1 { assert Parent(LeafKey(root, v)) == WalkKey(root, 1, v); }
  }
}
