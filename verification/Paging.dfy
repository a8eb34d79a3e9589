/** Sv39 page tables and the page allocator as one state, with a role for every
    physical page: free, a page-table node, a user page, or held by the kernel.
    Pages are named by their number, physical address / PGSIZE. */
module Paging {
  import opened Blocks
  import opened Common

  const PGSIZE := 4096
  const NPTE := 512
  const TOPVPN := 0x400_0000       // MAXVA / PGSIZE
  const TRAMPOLINE := TOPVPN - 1
  const TRAPFRAME := TOPVPN - 2

  // ----- page-table entries -----

  const PTE_V := 1
  const PTE_R := 2
  const PTE_W := 4
  const PTE_X := 8
  const PTE_U := 16

  predicate PteValid(pte: nat) {
    pte % 2 == 1
  }

  /** Any of R, W, X set: the entry maps a page rather than a lower-level table. */
  predicate PteLeaf(pte: nat) {
    pte / 2 % 8 != 0
  }

  predicate PteUser(pte: nat) {
    pte / 16 % 2 == 1
  }

  function PteFlags(pte: nat): nat {
    pte % 1024
  }

  function PtePage(pte: nat): nat {
    pte / 1024
  }

  /** PA2PTE(pa) | perm | PTE_V. */
  function MakePte(page: nat, perm: nat): nat
    requires perm < 1024
  {
    1024 * page + (if perm % 2 == 1 then perm else perm + 1)
  }

  lemma PteBits(page: nat, f: nat)
    requires f < 1024
    ensures (1024 * page + f) / 1024 == page && (1024 * page + f) % 1024 == f
    ensures (1024 * page + f) % 2 == f % 2
  {}

  lemma ShiftOne(page: nat, f: nat)
    requires f < 1024
    ensures (1024 * page + f) / 2 % 8 == f / 2 % 8
  {
    assert (1024 * page + f) / 2 == 512 * page + f / 2;
    EightFold(64 * page, f / 2);
  }

  lemma EightFold(a: nat, g: nat)
    ensures (8 * a + g) % 8 == g % 8
  {}

  lemma ShiftFour(page: nat, f: nat)
    requires f < 1024
    ensures (1024 * page + f) / 16 % 2 == f / 16 % 2
  {
    assert (1024 * page + f) / 16 == 64 * page + f / 16;
    TwoFold(32 * page, f / 16);
  }

  lemma TwoFold(a: nat, g: nat)
    ensures (2 * a + g) % 2 == g % 2
  {}

  /** An entry made for a page gives back the page and its permissions. */
  lemma PteFields(page: nat, perm: nat)
    requires perm < 1024
    ensures PteValid(MakePte(page, perm)) && PtePage(MakePte(page, perm)) == page
    ensures PteLeaf(MakePte(page, perm)) <==> perm / 2 % 8 != 0
    ensures PteUser(MakePte(page, perm)) <==> perm / 16 % 2 == 1
    ensures PteFlags(MakePte(page, perm)) == if perm % 2 == 1 then perm else perm + 1
  {
    var f := if perm % 2 == 1 then perm else perm + 1;
    PteBits(page, f);
    ShiftOne(page, f);
    ShiftFour(page, f);
    assert f / 2 == perm / 2 && f / 16 == perm / 16;
  }

  // ----- the state -----

  datatype Page = Table(ptes: seq<nat>) | Bytes(data: seq<Byte>) | Run(next: nat)

  /** The place of a node in the tree of page table `root`: the table for the virtual
      pages whose number divided by 512^(level+1) is prefix. */
  datatype Key = Key(root: nat, level: nat, prefix: nat)

  datatype Role = Free | Node(key: Key) | Leaf(root: nat, vpn: nat) | Held

  datatype Vm = Vm(mem: map<nat, Page>, free: seq<nat>, role: map<nat, Role>, node: map<Key, nat>)

  function Root(root: nat): Key {
    Key(root, 2, 0)
  }

  function Child(k: Key, i: nat): Key
    requires k.level > 0
  {
    Key(k.root, k.level - 1, NPTE * k.prefix + i)
  }

  function Parent(k: Key): Key {
    Key(k.root, k.level + 1, k.prefix / NPTE)
  }

  predicate KeyOk(k: Key) {
    && k.level <= 2
    && (k.level == 2 ==> k.prefix == 0)
    && (k.level == 1 ==> k.prefix < NPTE)
    && (k.level == 0 ==> k.prefix < NPTE * NPTE)
  }

  lemma ChildParent(k: Key, i: nat)
    requires KeyOk(k) && k.level > 0 && i < NPTE
    ensures KeyOk(Child(k, i)) && Parent(Child(k, i)) == k && Child(k, i).prefix % NPTE == i
  {}

  lemma ParentChild(k: Key)
    requires KeyOk(k) && k.level < 2
    ensures KeyOk(Parent(k)) && Child(Parent(k), k.prefix % NPTE) == k
  {}

  // ----- well-formedness -----

  /** Every page is in memory and holds what its role says. */
  ghost predicate Typed(s: Vm) {
    forall p :: p in s.role ==>
      && p in s.mem && p > 0
      && (s.role[p].Free? ==> s.mem[p].Run?)
      && (s.role[p].Node? ==> s.mem[p].Table? && |s.mem[p].ptes| == NPTE)
      && (s.role[p].Leaf? ==> s.mem[p].Bytes? && |s.mem[p].data| == PGSIZE)
  }

  function NextFree(free: seq<nat>, i: nat): nat {
    if i < |free| then free[i] else 0
  }

  /** The free list threads exactly the free pages, through their own memory. */
  ghost predicate FreeOk(s: Vm) {
    && NoDup(s.free)
    && (forall p :: p in s.free <==> p in s.role && s.role[p].Free?)
    && forall i :: 0 <= i < |s.free| ==> s.free[i] in s.mem && s.mem[s.free[i]] == Run(NextFree(s.free, i + 1))
  }

  /** node and role name the same nodes, and every node but a root has a parent. */
  ghost predicate NodesOk(s: Vm) {
    && (forall k :: k in s.node ==>
          && KeyOk(k) && s.node[k] in s.role && s.role[s.node[k]] == Node(k)
          && (k.level == 2 ==> s.node[k] == k.root)
          && (k.level < 2 ==> Parent(k) in s.node))
    && forall p :: p in s.role && s.role[p].Node? ==> s.role[p].key in s.node && s.node[s.role[p].key] == p
  }

  ghost predicate HasEntry(s: Vm, k: Key, i: nat) {
    k in s.node && s.node[k] in s.mem && s.mem[s.node[k]].Table? && i < |s.mem[s.node[k]].ptes|
  }

  function Entry(s: Vm, k: Key, i: nat): nat
    requires HasEntry(s, k, i)
  {
    s.mem[s.node[k]].ptes[i]
  }

  /** Entries above level 0 point to exactly the nodes that exist. */
  ghost predicate InnerOk(s: Vm) {
    forall k, i :: 0 <= i < NPTE && HasEntry(s, k, i) && k.level > 0 ==>
      if PteValid(Entry(s, k, i)) then
        !PteLeaf(Entry(s, k, i)) && Child(k, i) in s.node && s.node[Child(k, i)] == PtePage(Entry(s, k, i))
      else Child(k, i) !in s.node
  }

  /** Entries at level 0 map pages, and below TRAPFRAME pages that belong to this slot alone. */
  ghost predicate LeavesOk(s: Vm) {
    forall k, i :: 0 <= i < NPTE && HasEntry(s, k, i) && k.level == 0 && PteValid(Entry(s, k, i)) ==>
      && PteLeaf(Entry(s, k, i))
      && if NPTE * k.prefix + i < TRAPFRAME then
           PtePage(Entry(s, k, i)) in s.role && s.role[PtePage(Entry(s, k, i))] == Leaf(k.root, NPTE * k.prefix + i)
         else !PteUser(Entry(s, k, i))
  }

  /** The entry for virtual page v of page table root; 0 if there is no table for it. */
  ghost function Lookup(s: Vm, root: nat, v: nat): nat {
    var k := Key(root, 0, v / NPTE);
    if HasEntry(s, k, v % NPTE) then Entry(s, k, v % NPTE) else 0
  }

  /** Every user page is mapped where its role says. */
  ghost predicate LeafRoles(s: Vm) {
    forall p :: p in s.role && s.role[p].Leaf? ==>
      && s.role[p].vpn < TRAPFRAME
      && PteValid(Lookup(s, s.role[p].root, s.role[p].vpn))
      && PtePage(Lookup(s, s.role[p].root, s.role[p].vpn)) == p
  }

  ghost predicate Inv(s: Vm) {
    Typed(s) && FreeOk(s) && NodesOk(s) && InnerOk(s) && LeavesOk(s) && LeafRoles(s)
  }

  lemma NodeEntry(s: Vm, k: Key, i: nat)
    requires Inv(s) && k in s.node && i < NPTE
    ensures HasEntry(s, k, i)
  {}

  // ----- kalloc and kfree -----

  /** The state after kalloc popped the first free page and filled it with junk. */
  function Popped(s: Vm, junk: seq<Byte>): Vm
    requires s.free != []
  {
    s.(mem := s.mem[s.free[0] := Bytes(junk)], free := s.free[1..], role := s.role[s.free[0] := Held])
  }

  /** The state after kfree pushed page p. */
  function PushedFree(s: Vm, p: nat): Vm {
    s.(mem := s.mem[p := Run(NextFree(s.free, 0))], free := [p] + s.free, role := s.role[p := Free])
  }

  /** The tables of t are those of s. */
  ghost predicate SameTables(s: Vm, t: Vm) {
    && t.node == s.node
    && forall k :: k in s.node ==> s.node[k] in s.mem && s.node[k] in t.mem && t.mem[s.node[k]] == s.mem[s.node[k]]
  }

  lemma SameTablesEntries(s: Vm, t: Vm)
    requires SameTables(s, t)
    ensures forall k, i :: HasEntry(t, k, i) == HasEntry(s, k, i)
    ensures forall k, i :: HasEntry(s, k, i) ==> Entry(t, k, i) == Entry(s, k, i)
    ensures forall r, v :: Lookup(t, r, v) == Lookup(s, r, v)
  {}

  /** The same pages are user pages, in the same places. */
  ghost predicate SameLeaves(s: Vm, t: Vm) {
    && (forall q :: q in s.role && s.role[q].Leaf? ==> q in t.role && t.role[q] == s.role[q])
    && forall q :: q in t.role && t.role[q].Leaf? ==> q in s.role && t.role[q] == s.role[q]
  }

  lemma SameInner(s: Vm, t: Vm)
    requires InnerOk(s) && SameTables(s, t)
    ensures InnerOk(t)
  {
    SameTablesEntries(s, t);
    hide Entry, HasEntry, Lookup;
  }

  lemma SameLeavesOk(s: Vm, t: Vm)
    requires LeavesOk(s) && LeafRoles(s) && SameTables(s, t) && SameLeaves(s, t)
    ensures LeavesOk(t) && LeafRoles(t)
  {
    SameTablesEntries(s, t);
    hide Entry, HasEntry, Lookup;
  }

  /** A change of a page that is neither a table nor a user page. */
  lemma OtherPage(s: Vm, t: Vm, p: nat)
    requires Inv(s) && p in s.role && (s.role[p].Held? || s.role[p].Free?)
    requires t.node == s.node && p in t.role && (t.role[p].Held? || t.role[p].Free?)
    requires t.role == s.role[p := t.role[p]] && p in t.mem && t.mem == s.mem[p := t.mem[p]]
    requires t.role[p].Free? ==> t.mem[p].Run?
    ensures SameTables(s, t)
    ensures Typed(t) && NodesOk(t) && InnerOk(t) && LeavesOk(t) && LeafRoles(t)
  {
    hide InnerOk, LeavesOk, LeafRoles, FreeOk, NodesOk;
    assert Typed(t);
    OtherPageNodes(s, t, p);
    SameInner(s, t);
    SameLeavesOk(s, t);
  }

  lemma OtherPageNodes(s: Vm, t: Vm, p: nat)
    requires NodesOk(s) && Typed(s) && p in s.role && !s.role[p].Node?
    requires t.node == s.node && p in t.role && !t.role[p].Node?
    requires t.role == s.role[p := t.role[p]] && p in t.mem && t.mem == s.mem[p := t.mem[p]]
    ensures NodesOk(t) && SameTables(s, t)
  {
    assert forall k :: k in s.node ==> s.node[k] != p;
  }

  lemma PoppedFree(s: Vm, junk: seq<Byte>)
    requires FreeOk(s) && s.free != []
    ensures FreeOk(Popped(s, junk))
  {
    var t := Popped(s, junk);
    assert forall i :: 0 <= i < |t.free| ==> t.free[i] == s.free[i + 1];
    assert s.free == [s.free[0]] + t.free;
  }

  /** kalloc hands out a page that nothing else refers to. */
  lemma PoppedInv(s: Vm, junk: seq<Byte>)
    requires Inv(s) && s.free != []
    ensures Inv(Popped(s, junk)) && SameTables(s, Popped(s, junk)) && s.free[0] in s.role && s.role[s.free[0]].Free?
  {
    assert s.free[0] in s.role && s.role[s.free[0]].Free? by { hide Typed, NodesOk, InnerOk, LeavesOk, LeafRoles; }
    hide Typed, NodesOk, InnerOk, LeavesOk, LeafRoles, FreeOk;
    OtherPage(s, Popped(s, junk), s.free[0]);
    PoppedFree(s, junk);
  }

  lemma PushedFreeOk(s: Vm, p: nat)
    requires FreeOk(s) && p in s.role && s.role[p].Held?
    ensures FreeOk(PushedFree(s, p))
  {}

  lemma PushedFreeInv(s: Vm, p: nat)
    requires Inv(s) && p in s.role && s.role[p].Held?
    ensures Inv(PushedFree(s, p)) && SameTables(s, PushedFree(s, p))
  {
    hide Typed, NodesOk, InnerOk, LeavesOk, LeafRoles, FreeOk;
    OtherPage(s, PushedFree(s, p), p);
    PushedFreeOk(s, p);
  }

  // ----- changing one entry -----

  function SetEntry(s: Vm, k: Key, i: nat, pte: nat): Vm
    requires HasEntry(s, k, i)
  {
    s.(mem := s.mem[s.node[k] := Table(s.mem[s.node[k]].ptes[i := pte])])
  }

  lemma DistinctNodes(s: Vm, k: Key, j: Key)
    requires NodesOk(s) && k in s.node && j in s.node && s.node[k] == s.node[j]
    ensures k == j
  {}

  /** Distinct places are distinct entries: setting one leaves all others alone. */
  lemma SetEntryEffect(s: Vm, k: Key, i: nat, pte: nat, j: Key, x: nat)
    requires NodesOk(s) && Typed(s) && k in s.node && i < NPTE && HasEntry(s, k, i)
    ensures HasEntry(SetEntry(s, k, i, pte), j, x) == HasEntry(s, j, x)
    ensures HasEntry(s, j, x) ==>
              Entry(SetEntry(s, k, i, pte), j, x) == if j == k && x == i then pte else Entry(s, j, x)
  {
    if j in s.node && s.node[j] == s.node[k] { DistinctNodes(s, k, j); }
  }

  /** What walk does for a missing table: page p, zeroed, becomes child i of node k. */
  function AddNode(s: Vm, k: Key, i: nat, p: nat): Vm
    requires HasEntry(s, k, i) && k.level > 0
  {
    var t := SetEntry(s, k, i, MakePte(p, 0));
    t.(mem := t.mem[p := Table(ZeroTable())], role := s.role[p := Node(Child(k, i))], node := s.node[Child(k, i) := p])
  }

  function ZeroTable(): (z: seq<nat>)
    ensures |z| == NPTE && forall i :: 0 <= i < NPTE ==> z[i] == 0
  {
    seq<nat>(NPTE, _ => 0)
  }

  ghost predicate CanAdd(s: Vm, k: Key, i: nat, p: nat) {
    && k in s.node && k.level > 0 && i < NPTE && HasEntry(s, k, i) && !PteValid(Entry(s, k, i))
    && p in s.role && s.role[p].Held?
  }

  lemma AddNodeNew(s: Vm, k: Key, i: nat, p: nat)
    requires Inv(s) && CanAdd(s, k, i, p)
    ensures Child(k, i) !in s.node && s.node[k] != p
    ensures forall j :: j in s.node ==> s.node[j] != p
    ensures forall x: nat :: Child(k, i).level > 0 ==> x < NPTE ==> Child(Child(k, i), x) !in s.node
  {
    hide LeavesOk, LeafRoles, FreeOk, Typed, Entry, HasEntry;
    var c := Child(k, i);
    ChildParent(k, i);
    forall x: nat | c.level > 0 && x < NPTE ensures Child(c, x) !in s.node {
      ChildParent(c, x);
    }
  }

  lemma AddNodeEntries(s: Vm, k: Key, i: nat, p: nat, j: Key, x: nat)
    requires Inv(s) && CanAdd(s, k, i, p)
    ensures var t, c := AddNode(s, k, i, p), Child(k, i);
            && (HasEntry(t, j, x) <==> if j == c then x < NPTE else HasEntry(s, j, x))
            && (HasEntry(t, j, x) ==>
                  Entry(t, j, x) == if j == c then 0 else if j == k && x == i then MakePte(p, 0) else Entry(s, j, x))
  {
    AddNodeNew(s, k, i, p);
    hide LeavesOk, LeafRoles, FreeOk, InnerOk;
    SetEntryEffect(s, k, i, MakePte(p, 0), j, x);
  }

  lemma AddNodeInner(s: Vm, k: Key, i: nat, p: nat)
    requires Inv(s) && CanAdd(s, k, i, p)
    ensures InnerOk(AddNode(s, k, i, p))
  {
    var t, c := AddNode(s, k, i, p), Child(k, i);
    AddNodeNew(s, k, i, p);
    forall j: Key, x: nat | x < NPTE && HasEntry(t, j, x) && j.level > 0
      ensures if PteValid(Entry(t, j, x)) then
                !PteLeaf(Entry(t, j, x)) && Child(j, x) in t.node && t.node[Child(j, x)] == PtePage(Entry(t, j, x))
              else Child(j, x) !in t.node
    {
      AddNodeInnerAt(s, k, i, p, j, x);
    }
  }

  lemma AddNodeInnerAt(s: Vm, k: Key, i: nat, p: nat, j: Key, x: nat)
    requires Inv(s) && CanAdd(s, k, i, p) && x < NPTE && j.level > 0 && HasEntry(AddNode(s, k, i, p), j, x)
    ensures var t := AddNode(s, k, i, p);
            if PteValid(Entry(t, j, x)) then
              !PteLeaf(Entry(t, j, x)) && Child(j, x) in t.node && t.node[Child(j, x)] == PtePage(Entry(t, j, x))
            else Child(j, x) !in t.node
  {
    var t, c := AddNode(s, k, i, p), Child(k, i);
    AddNodeNew(s, k, i, p);
    AddNodeEntries(s, k, i, p, j, x);
    ChildParent(k, i);
    assert KeyOk(j);
    ChildParent(j, x);
    PteFields(p, 0);
    hide Entry, HasEntry, PteLeaf, PtePage, PteValid, MakePte, LeafRoles, LeavesOk, FreeOk, Typed;
  }

  /** A new table is empty, so no translation changes. */
  lemma AddNodeLookup(s: Vm, k: Key, i: nat, p: nat, r: nat, v: nat)
    requires Inv(s) && CanAdd(s, k, i, p)
    ensures Lookup(AddNode(s, k, i, p), r, v) == Lookup(s, r, v)
  {
    AddNodeNew(s, k, i, p);
    AddNodeEntries(s, k, i, p, Key(r, 0, v / NPTE), v % NPTE);
  }

  lemma NodeJoins(s: Vm, t: Vm, c: Key, p: nat)
    requires NodesOk(s) && p in s.role && s.role[p].Held? && c !in s.node && KeyOk(c)
    requires t.role == s.role[p := Node(c)] && t.node == s.node[c := p]
    requires c.level == 2 ==> p == c.root
    requires c.level < 2 ==> Parent(c) in s.node
    ensures NodesOk(t)
  {
    hide KeyOk, Parent;
  }

  lemma AddNodeNodes(s: Vm, k: Key, i: nat, p: nat)
    requires Inv(s) && CanAdd(s, k, i, p)
    ensures NodesOk(AddNode(s, k, i, p))
  {
    AddNodeNew(s, k, i, p);
    ChildParent(k, i);
    hide LeavesOk, LeafRoles, FreeOk, InnerOk, Typed, Entry, HasEntry;
    assert KeyOk(k);
    NodeJoins(s, AddNode(s, k, i, p), Child(k, i), p);
  }

  lemma AddNodeTyped(s: Vm, k: Key, i: nat, p: nat)
    requires Inv(s) && CanAdd(s, k, i, p)
    ensures Typed(AddNode(s, k, i, p))
  {
    hide LeavesOk, LeafRoles, FreeOk, InnerOk;
    assert s.role[s.node[k]] == Node(k);
    hide NodesOk;
  }

  lemma AddNodeFree(s: Vm, k: Key, i: nat, p: nat)
    requires Inv(s) && CanAdd(s, k, i, p)
    ensures FreeOk(AddNode(s, k, i, p))
  {
    hide LeavesOk, LeafRoles, InnerOk;
    assert s.node[k] !in s.free;
  }

  lemma AddNodeLeaves(s: Vm, k: Key, i: nat, p: nat)
    requires Inv(s) && CanAdd(s, k, i, p)
    ensures LeavesOk(AddNode(s, k, i, p)) && LeafRoles(AddNode(s, k, i, p))
  {
    hide Entry, HasEntry, Lookup, FreeOk, Typed, InnerOk, NodesOk, PteValid, PteLeaf, PteUser, PtePage;
    var t := AddNode(s, k, i, p);
    forall j: Key, x: nat | HasEntry(t, j, x) && j.level == 0
      ensures if j == Child(k, i) then Entry(t, j, x) == 0 else HasEntry(s, j, x) && Entry(t, j, x) == Entry(s, j, x)
    {
      AddNodeEntries(s, k, i, p, j, x);
    }
    assert !PteValid(0) by { ZeroPte(); }
    forall r: nat, v: nat ensures Lookup(t, r, v) == Lookup(s, r, v) {
      AddNodeLookup(s, k, i, p, r, v);
    }
  }

  lemma ZeroPte()
    ensures !PteValid(0)
  {}

  lemma AddNodeInv(s: Vm, k: Key, i: nat, p: nat)
    requires Inv(s) && CanAdd(s, k, i, p)
    ensures Inv(AddNode(s, k, i, p))
  {
    AddNodeInner(s, k, i, p);
    AddNodeNodes(s, k, i, p);
    AddNodeTyped(s, k, i, p);
    AddNodeFree(s, k, i, p);
    AddNodeLeaves(s, k, i, p);
  }

  // ----- a new page table -----

  /** uvmcreate: page p becomes an empty root. */
  function NewRoot(s: Vm, p: nat): Vm {
    s.(mem := s.mem[p := Table(ZeroTable())], role := s.role[p := Node(Root(p))], node := s.node[Root(p) := p])
  }

  lemma NewRootNew(s: Vm, p: nat)
    requires Inv(s) && p in s.role && s.role[p].Held?
    ensures Root(p) !in s.node && (forall j :: j in s.node ==> s.node[j] != p)
    ensures forall x: nat :: x < NPTE ==> Child(Root(p), x) !in s.node
  {
    hide LeavesOk, LeafRoles, FreeOk, Typed, InnerOk;
    forall x: nat | x < NPTE ensures Child(Root(p), x) !in s.node {
      ChildParent(Root(p), x);
    }
  }

  lemma NewRootEntries(s: Vm, p: nat, j: Key, x: nat)
    requires Inv(s) && p in s.role && s.role[p].Held?
    ensures var t := NewRoot(s, p);
            && (HasEntry(t, j, x) <==> if j == Root(p) then x < NPTE else HasEntry(s, j, x))
            && (HasEntry(t, j, x) ==> Entry(t, j, x) == if j == Root(p) then 0 else Entry(s, j, x))
  {
    NewRootNew(s, p);
  }

  lemma NewRootInner(s: Vm, p: nat)
    requires Inv(s) && p in s.role && s.role[p].Held?
    ensures InnerOk(NewRoot(s, p))
  {
    hide Entry, Lookup, FreeOk, Typed, LeafRoles, LeavesOk, PteValid, PteLeaf, PteUser, PtePage;
    NewRootNew(s, p);
    assert forall j: Key, x: nat :: HasEntry(s, j, x) ==> j.level <= 2;
    hide NodesOk, HasEntry;
    var t := NewRoot(s, p);
    ZeroPte();
    forall j: Key, x: nat
      ensures HasEntry(t, j, x) <==> if j == Root(p) then x < NPTE else HasEntry(s, j, x)
      ensures HasEntry(t, j, x) ==> Entry(t, j, x) == if j == Root(p) then 0 else Entry(s, j, x)
    {
      NewRootEntries(s, p, j, x);
    }
  }

  lemma NewRootLeaves(s: Vm, p: nat)
    requires Inv(s) && p in s.role && s.role[p].Held?
    ensures LeavesOk(NewRoot(s, p))
  {
    hide Entry, HasEntry, Lookup, FreeOk, Typed, LeafRoles, NodesOk, InnerOk, PteValid, PteLeaf, PteUser, PtePage;
    var t := NewRoot(s, p);
    forall j: Key, x: nat
      ensures HasEntry(t, j, x) <==> if j == Root(p) then x < NPTE else HasEntry(s, j, x)
      ensures HasEntry(t, j, x) ==> Entry(t, j, x) == if j == Root(p) then 0 else Entry(s, j, x)
    {
      NewRootEntries(s, p, j, x);
    }
  }

  lemma NewRootLookup(s: Vm, p: nat, r: nat, v: nat)
    requires Inv(s) && p in s.role && s.role[p].Held?
    ensures Lookup(NewRoot(s, p), r, v) == Lookup(s, r, v)
  {
    NewRootEntries(s, p, Key(r, 0, v / NPTE), v % NPTE);
  }

  lemma NewRootNodes(s: Vm, p: nat)
    requires Inv(s) && p in s.role && s.role[p].Held?
    ensures NodesOk(NewRoot(s, p)) && Typed(NewRoot(s, p)) && FreeOk(NewRoot(s, p))
  {
    hide LeavesOk, LeafRoles, InnerOk, NodesOk;
    NewRootNew(s, p);
    NodeJoins(s, NewRoot(s, p), Root(p), p);
  }

  lemma NewRootInv(s: Vm, p: nat)
    requires Inv(s) && p in s.role && s.role[p].Held?
    ensures Inv(NewRoot(s, p))
  {
    hide InnerOk, LeavesOk, NodesOk, Typed, FreeOk, Lookup;
    NewRootInner(s, p);
    NewRootLeaves(s, p);
    NewRootNodes(s, p);
    forall r: nat, v: nat ensures Lookup(NewRoot(s, p), r, v) == Lookup(s, r, v) {
      NewRootLookup(s, p, r, v);
    }
  }

  // ----- mapping and unmapping a page -----

  function LeafKey(root: nat, v: nat): Key {
    Key(root, 0, v / NPTE)
  }

  /** The state after the level-0 entry for page v became pte and the roles became `role`. */
  function SetLeaf(s: Vm, root: nat, v: nat, pte: nat, role: map<nat, Role>): Vm
    requires HasEntry(s, LeafKey(root, v), v % NPTE)
  {
    SetEntry(s, LeafKey(root, v), v % NPTE, pte).(role := role)
  }

  /** The three-level table is a map from page numbers to entries: one changes, no other. */
  lemma SetLeafLookup(s: Vm, root: nat, v: nat, pte: nat, role: map<nat, Role>, r: nat, w: nat)
    requires Inv(s) && HasEntry(s, LeafKey(root, v), v % NPTE)
    ensures Lookup(SetLeaf(s, root, v, pte, role), r, w) == if r == root && w == v then pte else Lookup(s, r, w)
  {
    hide FreeOk, InnerOk, LeavesOk, LeafRoles;
    SetEntryEffect(s, LeafKey(root, v), v % NPTE, pte, LeafKey(r, w), w % NPTE);
    assert w / NPTE == v / NPTE && w % NPTE == v % NPTE ==> w == v;
  }

  /** Only page p changes its role, between user page and held page. */
  ghost predicate LeafSwap(s: Vm, role: map<nat, Role>, p: nat) {
    && p in s.role && (s.role[p].Held? || s.role[p].Leaf?) && p in s.mem && s.mem[p].Bytes? && |s.mem[p].data| == PGSIZE
    && p in role && (role[p].Held? || role[p].Leaf?) && role == s.role[p := role[p]]
  }

  lemma SetLeafTyped(s: Vm, root: nat, v: nat, pte: nat, role: map<nat, Role>, p: nat)
    requires Inv(s) && HasEntry(s, LeafKey(root, v), v % NPTE) && (role == s.role || LeafSwap(s, role, p))
    ensures Typed(SetLeaf(s, root, v, pte, role))
  {
    hide InnerOk, LeavesOk, LeafRoles, FreeOk;
    assert s.role[s.node[LeafKey(root, v)]] == Node(LeafKey(root, v));
    hide NodesOk;
  }

  lemma SetLeafNodes(s: Vm, root: nat, v: nat, pte: nat, role: map<nat, Role>, p: nat)
    requires NodesOk(s) && HasEntry(s, LeafKey(root, v), v % NPTE) && (role == s.role || LeafSwap(s, role, p))
    ensures NodesOk(SetLeaf(s, root, v, pte, role))
  {
    hide KeyOk, Parent;
  }

  lemma SetLeafFree(s: Vm, root: nat, v: nat, pte: nat, role: map<nat, Role>, p: nat)
    requires Inv(s) && HasEntry(s, LeafKey(root, v), v % NPTE) && (role == s.role || LeafSwap(s, role, p))
    ensures FreeOk(SetLeaf(s, root, v, pte, role))
  {
    hide InnerOk, LeavesOk, LeafRoles, Typed;
    assert s.node[LeafKey(root, v)] !in s.free;
    hide NodesOk;
  }

  lemma SetLeafInner(s: Vm, root: nat, v: nat, pte: nat, role: map<nat, Role>)
    requires Inv(s) && HasEntry(s, LeafKey(root, v), v % NPTE)
    ensures InnerOk(SetLeaf(s, root, v, pte, role))
  {
    hide Entry, HasEntry, LeavesOk, LeafRoles, FreeOk, NodesOk, Typed, PteValid, PteLeaf, PtePage;
    var t, k := SetLeaf(s, root, v, pte, role), LeafKey(root, v);
    forall j: Key, x: nat | j.level > 0
      ensures HasEntry(t, j, x) == HasEntry(s, j, x)
      ensures HasEntry(s, j, x) ==> Entry(t, j, x) == Entry(s, j, x)
    {
      SetLeafEntry(s, root, v, pte, role, j, x);
    }
  }

  lemma SetLeafEntry(s: Vm, root: nat, v: nat, pte: nat, role: map<nat, Role>, j: Key, x: nat)
    requires Inv(s) && HasEntry(s, LeafKey(root, v), v % NPTE)
    ensures var t := SetLeaf(s, root, v, pte, role);
            && HasEntry(t, j, x) == HasEntry(s, j, x)
            && (HasEntry(s, j, x) ==>
                  Entry(t, j, x) == if j == LeafKey(root, v) && x == v % NPTE then pte else Entry(s, j, x))
  {
    hide FreeOk, InnerOk, LeavesOk, LeafRoles;
    SetEntryEffect(s, LeafKey(root, v), v % NPTE, pte, j, x);
  }

  /** mappages on one page below TRAPFRAME: page p, held so far, becomes that user page. */
  function Mapped(s: Vm, root: nat, v: nat, p: nat, perm: nat): Vm
    requires HasEntry(s, LeafKey(root, v), v % NPTE) && perm < 1024
  {
    SetLeaf(s, root, v, MakePte(p, perm), if v < TRAPFRAME then s.role[p := Leaf(root, v)] else s.role)
  }

  ghost predicate CanMap(s: Vm, root: nat, v: nat, p: nat, perm: nat) {
    && HasEntry(s, LeafKey(root, v), v % NPTE) && !PteValid(Lookup(s, root, v)) && perm < 1024 && perm / 2 % 8 != 0
    && if v < TRAPFRAME then
         p in s.role && s.role[p].Held? && p in s.mem && s.mem[p].Bytes? && |s.mem[p].data| == PGSIZE
       else perm / 16 % 2 == 0
  }

  lemma MappedLeaves(s: Vm, root: nat, v: nat, p: nat, perm: nat)
    requires Inv(s) && CanMap(s, root, v, p, perm)
    ensures LeavesOk(Mapped(s, root, v, p, perm))
  {
    hide Entry, HasEntry, FreeOk, NodesOk, Typed, InnerOk, LeafRoles, PteValid, PteLeaf, PtePage, PteUser, MakePte;
    var t, k, i := Mapped(s, root, v, p, perm), LeafKey(root, v), v % NPTE;
    PteFields(p, perm);
    forall j: Key, x: nat | j.level == 0
      ensures HasEntry(t, j, x) == HasEntry(s, j, x)
      ensures HasEntry(s, j, x) ==> Entry(t, j, x) == if j == k && x == i then MakePte(p, perm) else Entry(s, j, x)
    {
      SetLeafEntry(s, root, v, MakePte(p, perm), t.role, j, x);
    }
    assert NPTE * k.prefix + i == v;
  }

  lemma MappedRoles(s: Vm, root: nat, v: nat, p: nat, perm: nat)
    requires Inv(s) && CanMap(s, root, v, p, perm)
    ensures LeafRoles(Mapped(s, root, v, p, perm))
  {
    hide Entry, HasEntry, Lookup, FreeOk, NodesOk, Typed;
    hide InnerOk, LeavesOk, PteValid, PteLeaf, PtePage, PteUser, MakePte;
    var t := Mapped(s, root, v, p, perm);
    PteFields(p, perm);
    forall r: nat, w: nat ensures Lookup(t, r, w) == if r == root && w == v then MakePte(p, perm) else Lookup(s, r, w) {
      SetLeafLookup(s, root, v, MakePte(p, perm), t.role, r, w);
    }
  }

  lemma MappedInv(s: Vm, root: nat, v: nat, p: nat, perm: nat)
    requires Inv(s) && CanMap(s, root, v, p, perm)
    ensures Inv(Mapped(s, root, v, p, perm))
  {
    hide Entry, HasEntry, Lookup, FreeOk, NodesOk, Typed, InnerOk, LeavesOk, LeafRoles;
    var t := Mapped(s, root, v, p, perm);
    MappedLeaves(s, root, v, p, perm);
    MappedRoles(s, root, v, p, perm);
    SetLeafInner(s, root, v, MakePte(p, perm), t.role);
    SetLeafTyped(s, root, v, MakePte(p, perm), t.role, p);
    SetLeafNodes(s, root, v, MakePte(p, perm), t.role, p);
    SetLeafFree(s, root, v, MakePte(p, perm), t.role, p);
  }

  /** uvmunmap on one page: the entry is cleared, a user page is held again. */
  function Unmapped(s: Vm, root: nat, v: nat): Vm
    requires HasEntry(s, LeafKey(root, v), v % NPTE)
  {
    var p := PtePage(s.mem[s.node[LeafKey(root, v)]].ptes[v % NPTE]);
    SetLeaf(s, root, v, 0, if v < TRAPFRAME then s.role[p := Held] else s.role)
  }

  /** The page behind a mapped user address belongs to it. */
  lemma LeafPage(s: Vm, root: nat, v: nat)
    requires Inv(s) && PteValid(Lookup(s, root, v)) && v < TRAPFRAME
    ensures var p := PtePage(Lookup(s, root, v));
            && HasEntry(s, LeafKey(root, v), v % NPTE) && p in s.role && s.role[p] == Leaf(root, v) && p in s.mem
            && s.mem[p].Bytes? && |s.mem[p].data| == PGSIZE
            && PteLeaf(Lookup(s, root, v))
  {
    hide NodesOk, InnerOk, FreeOk, LeafRoles;
    var k := LeafKey(root, v);
    assert NPTE * k.prefix + v % NPTE == v;
  }

  lemma UnmappedLeaves(s: Vm, root: nat, v: nat)
    requires Inv(s) && PteValid(Lookup(s, root, v)) && HasEntry(s, LeafKey(root, v), v % NPTE)
    ensures LeavesOk(Unmapped(s, root, v))
  {
    var t, k, i := Unmapped(s, root, v), LeafKey(root, v), v % NPTE;
    assert v < TRAPFRAME ==> t.role == s.role[PtePage(Lookup(s, root, v)) := Held];
    if v < TRAPFRAME { LeafPage(s, root, v); }
    hide Entry, HasEntry, FreeOk, NodesOk, Typed, InnerOk, LeafRoles, PteValid, PteLeaf, PtePage, PteUser, Lookup;
    assert !PteValid(0) by { ZeroPte(); }
    forall j: Key, x: nat | j.level == 0
      ensures HasEntry(t, j, x) == HasEntry(s, j, x)
      ensures HasEntry(s, j, x) ==> Entry(t, j, x) == if j == k && x == i then 0 else Entry(s, j, x)
    {
      SetLeafEntry(s, root, v, 0, t.role, j, x);
    }
    assert NPTE * k.prefix + i == v;
  }

  lemma UnmappedRoles(s: Vm, root: nat, v: nat)
    requires Inv(s) && PteValid(Lookup(s, root, v)) && HasEntry(s, LeafKey(root, v), v % NPTE)
    ensures LeafRoles(Unmapped(s, root, v))
  {
    var t := Unmapped(s, root, v);
    assert v < TRAPFRAME ==> t.role == s.role[PtePage(Lookup(s, root, v)) := Held];
    if v < TRAPFRAME { LeafPage(s, root, v); }
    hide Entry, HasEntry, Lookup, FreeOk, NodesOk, Typed, InnerOk, LeavesOk, PteValid, PteLeaf, PtePage, PteUser;
    forall r: nat, w: nat ensures Lookup(t, r, w) == if r == root && w == v then 0 else Lookup(s, r, w) {
      SetLeafLookup(s, root, v, 0, t.role, r, w);
    }
  }

  lemma UnmappedInv(s: Vm, root: nat, v: nat)
    requires Inv(s) && PteValid(Lookup(s, root, v)) && HasEntry(s, LeafKey(root, v), v % NPTE)
    ensures Inv(Unmapped(s, root, v))
  {
    var t := Unmapped(s, root, v);
    assert v < TRAPFRAME ==> t.role == s.role[PtePage(Lookup(s, root, v)) := Held];
    if v < TRAPFRAME { LeafPage(s, root, v); }
    hide Entry, HasEntry, Lookup, FreeOk, NodesOk, Typed, InnerOk, LeavesOk, LeafRoles;
    UnmappedLeaves(s, root, v);
    UnmappedRoles(s, root, v);
    SetLeafInner(s, root, v, 0, t.role);
    SetLeafTyped(s, root, v, 0, t.role, PtePage(Lookup(s, root, v)));
    SetLeafNodes(s, root, v, 0, t.role, PtePage(Lookup(s, root, v)));
    SetLeafFree(s, root, v, 0, t.role, PtePage(Lookup(s, root, v)));
  }

  // ----- freeing a table -----

  /** freewalk's effect for node k, whose entries are all clear: its parent forgets it. */
  ghost function Dropped(s: Vm, k: Key): Vm
    requires k in s.node && (k.level < 2 ==> HasEntry(s, Parent(k), k.prefix % NPTE))
  {
    var t := if k.level < 2 then SetEntry(s, Parent(k), k.prefix % NPTE, 0) else s;
    t.(role := s.role[s.node[k] := Held], node := s.node - {k})
  }

  ghost predicate Emptied(s: Vm, k: Key) {
    k in s.node && forall i :: 0 <= i < NPTE && HasEntry(s, k, i) ==> !PteValid(Entry(s, k, i))
  }

  lemma HasParent(s: Vm, k: Key)
    requires Inv(s) && k in s.node && k.level < 2
    ensures Parent(k) in s.node && HasEntry(s, Parent(k), k.prefix % NPTE)
    ensures KeyOk(Parent(k)) && Child(Parent(k), k.prefix % NPTE) == k && Parent(k) != k
    ensures PteValid(Entry(s, Parent(k), k.prefix % NPTE)) && PtePage(Entry(s, Parent(k), k.prefix % NPTE)) == s.node[k]
  {
    hide LeavesOk, LeafRoles, FreeOk;
    ParentChild(k);
    NodeEntry(s, Parent(k), k.prefix % NPTE);
  }

  lemma DroppedEntries(s: Vm, k: Key, j: Key, x: nat)
    requires Inv(s) && k in s.node && (k.level < 2 ==> HasEntry(s, Parent(k), k.prefix % NPTE))
    ensures var t := Dropped(s, k);
            && (HasEntry(t, j, x) <==> j != k && HasEntry(s, j, x))
            && (HasEntry(t, j, x) ==>
                  Entry(t, j, x) == if k.level < 2 && j == Parent(k) && x == k.prefix % NPTE then 0 else Entry(s, j, x))
  {
    hide LeavesOk, LeafRoles, FreeOk, InnerOk;
    if k.level < 2 { SetEntryEffect(s, Parent(k), k.prefix % NPTE, 0, j, x); }
  }

  lemma EmptiedChildless(s: Vm, k: Key, j: Key)
    requires Inv(s) && Emptied(s, k) && j in s.node && j.level < 2
    ensures Parent(j) != k
  {
    hide LeavesOk, LeafRoles, FreeOk;
    if Parent(j) == k {
      ParentChild(j);
      NodeEntry(s, k, j.prefix % NPTE);
    }
  }

  lemma DroppedIs(s: Vm, k: Key)
    requires k in s.node && (k.level < 2 ==> HasEntry(s, Parent(k), k.prefix % NPTE))
    ensures Dropped(s, k).role == s.role[s.node[k] := Held] && Dropped(s, k).node == s.node - {k}
  {}

  lemma DroppedNodes(s: Vm, k: Key)
    requires Inv(s) && Emptied(s, k) && (k.level < 2 ==> HasEntry(s, Parent(k), k.prefix % NPTE))
    ensures NodesOk(Dropped(s, k))
  {
    hide LeavesOk, LeafRoles, FreeOk, InnerOk, Typed, HasEntry, Entry, KeyOk, Parent, Dropped;
    DroppedIs(s, k);
    forall j | j in s.node && j.level < 2 ensures Parent(j) != k {
      EmptiedChildless(s, k, j);
    }
  }

  lemma DroppedInner(s: Vm, k: Key)
    requires Inv(s) && Emptied(s, k) && (k.level < 2 ==> HasEntry(s, Parent(k), k.prefix % NPTE))
    ensures InnerOk(Dropped(s, k))
  {
    hide LeavesOk, LeafRoles, FreeOk, Entry, PteValid, PteLeaf, PtePage, Typed;
    var t := Dropped(s, k);
    assert KeyOk(k);
    ZeroPte();
    forall j: Key, x: nat | x < NPTE && j.level > 0 && HasEntry(t, j, x)
      ensures if PteValid(Entry(t, j, x)) then
                !PteLeaf(Entry(t, j, x)) && Child(j, x) in t.node && t.node[Child(j, x)] == PtePage(Entry(t, j, x))
              else Child(j, x) !in t.node
    {
      DroppedEntries(s, k, j, x);
      assert KeyOk(j);
      ChildParent(j, x);
      if k.level < 2 { ParentChild(k); }
    }
  }

  lemma DroppedLookup(s: Vm, k: Key, r: nat, v: nat)
    requires Inv(s) && Emptied(s, k) && (k.level < 2 ==> HasEntry(s, Parent(k), k.prefix % NPTE))
    ensures if PteValid(Lookup(s, r, v)) then Lookup(Dropped(s, k), r, v) == Lookup(s, r, v)
            else !PteValid(Lookup(Dropped(s, k), r, v))
  {
    hide LeavesOk, LeafRoles, FreeOk, InnerOk;
    DroppedEntries(s, k, LeafKey(r, v), v % NPTE);
  }

  lemma DroppedRole(s: Vm, k: Key)
    requires NodesOk(s) && k in s.node && (k.level < 2 ==> HasEntry(s, Parent(k), k.prefix % NPTE))
    ensures s.node[k] in s.role && s.role[s.node[k]] == Node(k) && Dropped(s, k).role == s.role[s.node[k] := Held]
  {}

  lemma DroppedLeaves(s: Vm, k: Key)
    requires Inv(s) && Emptied(s, k) && (k.level < 2 ==> HasEntry(s, Parent(k), k.prefix % NPTE))
    ensures LeavesOk(Dropped(s, k)) && LeafRoles(Dropped(s, k))
  {
    hide FreeOk, InnerOk, NodesOk, Typed, PteValid, PteLeaf, PtePage, PteUser, Entry, Lookup, HasEntry;
    var t, p := Dropped(s, k), s.node[k];
    DroppedRole(s, k);
    forall j: Key, x: nat | HasEntry(t, j, x) && j.level == 0
      ensures HasEntry(s, j, x) && Entry(t, j, x) == Entry(s, j, x)
    {
      DroppedEntries(s, k, j, x);
    }
    forall r: nat, v: nat | PteValid(Lookup(s, r, v)) ensures Lookup(t, r, v) == Lookup(s, r, v) {
      DroppedLookup(s, k, r, v);
    }
  }

  lemma DroppedRest(s: Vm, k: Key)
    requires Inv(s) && k in s.node && (k.level < 2 ==> HasEntry(s, Parent(k), k.prefix % NPTE))
    ensures Typed(Dropped(s, k)) && FreeOk(Dropped(s, k))
  {
    hide InnerOk, LeavesOk, LeafRoles;
    assert s.node[k] !in s.free;
    if k.level < 2 { assert s.node[Parent(k)] !in s.free; }
    hide NodesOk;
  }

  lemma DroppedInv(s: Vm, k: Key)
    requires Inv(s) && Emptied(s, k)
    ensures k.level < 2 ==> HasEntry(s, Parent(k), k.prefix % NPTE)
    ensures Inv(Dropped(s, k)) && s.node[k] in s.role && Dropped(s, k).role == s.role[s.node[k] := Held]
  {
    if k.level < 2 { HasParent(s, k); }
    DroppedNodes(s, k);
    DroppedInner(s, k);
    DroppedLeaves(s, k);
    DroppedRest(s, k);
  }

  // ----- page contents -----

  /** A user page or a held page gets new bytes. */
  function Stored(s: Vm, p: nat, data: seq<Byte>): Vm {
    s.(mem := s.mem[p := Bytes(data)])
  }

  lemma StoredInv(s: Vm, p: nat, data: seq<Byte>)
    requires Inv(s) && p in s.role && (s.role[p].Leaf? || s.role[p].Held?) && |data| == PGSIZE
    ensures Inv(Stored(s, p, data)) && SameTables(s, Stored(s, p, data))
  {
    hide InnerOk, LeavesOk, LeafRoles, NodesOk;
    var t := Stored(s, p, data);
    OtherPageNodes(s, t, p);
    SameInner(s, t);
    SameLeavesOk(s, t);
  }
}
