/** The buffer cache: a fixed pool of buffers on a doubly linked ring in order of
    last release, each under a sleep lock, kept coherent with an uncached disk.

    Processes are named by their pid, which is positive; `me` is the caller. */
module BufferCache {
  import opened Blocks
  import opened Journal
  import opened Common

  const NBUF := 30
  const HEAD := NBUF   // the list head, bcache.head, sits behind the pool
  const ROOTDEV := 1

  /** holder is the process that holds the buffer's sleep lock, or 0. */
  datatype Buf = Buf(valid: bool, dev: nat, blockno: nat, refcnt: nat, holder: nat, prev: nat, next: nat, data: Block)

  /** How bget ends: with the buffer locked, or asleep on its lock, or in a panic. */
  datatype Outcome = NoBuffers | Locked(b: nat) | Waits(b: nat)

  // ----- the ring -----

  function Path(r: seq<nat>): (p: seq<nat>)
    ensures |p| == |r| + 2 && p[0] == HEAD && p[|r| + 1] == HEAD
    ensures forall k :: 0 <= k < |r| ==> p[k + 1] == r[k]
    ensures (forall k :: 0 <= k < |r| ==> r[k] < NBUF) ==> forall k :: 0 <= k < |p| ==> p[k] <= NBUF
  {
    [HEAD] + r + [HEAD]
  }

  /** Following next from the head visits exactly r, and prev is its reverse. */
  ghost predicate Linked(s: seq<Buf>, r: seq<nat>) {
    && |s| == NBUF + 1
    && NoDup(r)
    && (forall k :: 0 <= k < |r| ==> r[k] < NBUF)
    && forall k :: 0 <= k <= |r| ==> s[Path(r)[k]].next == Path(r)[k + 1] && s[Path(r)[k + 1]].prev == Path(r)[k]
  }

  function Without(r: seq<nat>, k: nat): seq<nat>
    requires k < |r|
  {
    r[..k] + r[k + 1..]
  }

  /** s with the two neighbours of b pointing at each other. */
  function Unlinked(s: seq<Buf>, b: nat): (t: seq<Buf>)
    requires b < |s| && s[b].next < |s| && s[b].prev < |s|
    ensures |t| == |s|
  {
    var s1 := s[s[b].next := s[s[b].next].(prev := s[b].prev)];
    s1[s1[b].prev := s1[s1[b].prev].(next := s1[b].next)]
  }

  /** s with b inserted right behind the head. */
  function Pushed(s: seq<Buf>, b: nat): (t: seq<Buf>)
    requires b < |s| && HEAD < |s| && s[HEAD].next < |s|
    ensures |t| == |s|
  {
    var first := s[HEAD].next;
    var s1 := s[b := s[b].(next := first, prev := HEAD)];
    var s2 := s1[first := s1[first].(prev := b)];
    s2[HEAD := s2[HEAD].(next := b)]
  }

  lemma PathWithout(r: seq<nat>, k: nat, j: nat)
    requires k < |r| && j < |r| + 1
    ensures Path(Without(r, k))[j] == if j <= k then Path(r)[j] else Path(r)[j + 1]
  {}

  lemma PathDistinct(r: seq<nat>, i: nat, j: nat)
    requires NoDup(r) && forall k :: 0 <= k < |r| ==> r[k] < NBUF
    requires i < j <= |r| + 1 && (i > 0 || j <= |r|)
    ensures Path(r)[i] != Path(r)[j]
  {}

  lemma UnlinkedFields(s: seq<Buf>, b: nat, i: nat)
    requires b < |s| && s[b].next < |s| && s[b].prev < |s| && i < |s|
    requires s[b].next != b && s[b].prev != b
    ensures Unlinked(s, b)[i].next == if i == s[b].prev then s[b].next else s[i].next
    ensures Unlinked(s, b)[i].prev == if i == s[b].next then s[b].prev else s[i].prev
  {}

  /** The link of path position j, in the list without position k + 1. */
  lemma UnlinkAt(s: seq<Buf>, r: seq<nat>, k: nat, j: nat)
    requires Linked(s, r) && k < |r| && j < |r|
    requires s[r[k]].next < |s| && s[r[k]].prev < |s|
    ensures var t, q := Unlinked(s, r[k]), Path(Without(r, k));
            q[j] < |t| && q[j + 1] < |t| && t[q[j]].next == q[j + 1] && t[q[j + 1]].prev == q[j]
  {
    hide Unlinked, Without, Path, NoDup;
    var p, b := Path(r), r[k];
    assert p[k + 1] == b && s[p[k + 1]].next == p[k + 2] && s[p[k + 1]].prev == p[k];
    PathDistinct(r, k, k + 1);
    PathDistinct(r, k + 1, k + 2);
    PathWithout(r, k, j);
    PathWithout(r, k, j + 1);
    if j < k {
      PathDistinct(r, j, k);
      PathDistinct(r, j + 1, k + 2);
      UnlinkLink(s, p, b, j);
    } else if j > k {
      PathDistinct(r, k, j + 1);
      PathDistinct(r, k + 2, j + 2);
      UnlinkLink(s, p, b, j + 1);
    } else {
      UnlinkedFields(s, b, p[k]);
      UnlinkedFields(s, b, p[k + 2]);
    }
  }

  /** A link that does not end at b survives. */
  lemma UnlinkLink(s: seq<Buf>, p: seq<nat>, b: nat, x: nat)
    requires b < |s| && s[b].next < |s| && s[b].prev < |s|
    requires s[b].next != b && s[b].prev != b
    requires x + 1 < |p| && p[x] < |s| && p[x + 1] < |s|
    requires s[p[x]].next == p[x + 1] && s[p[x + 1]].prev == p[x]
    requires p[x] != s[b].prev && p[x + 1] != s[b].next
    ensures Unlinked(s, b)[p[x]].next == p[x + 1] && Unlinked(s, b)[p[x + 1]].prev == p[x]
  {
    UnlinkedFields(s, b, p[x]);
    UnlinkedFields(s, b, p[x + 1]);
  }

  lemma UnlinkKeeps(s: seq<Buf>, r: seq<nat>, k: nat)
    requires Linked(s, r) && k < |r|
    ensures s[r[k]].next < |s| && s[r[k]].prev < |s|
    ensures Linked(Unlinked(s, r[k]), Without(r, k))
  {
    var b, p := r[k], Path(r);
    assert p[k + 1] == b && s[b].next == p[k + 2] && s[b].prev == p[k];
    var t, q := Unlinked(s, b), Path(Without(r, k));
    hide Unlinked;
    forall j | 0 <= j <= |Without(r, k)| ensures t[q[j]].next == q[j + 1] && t[q[j + 1]].prev == q[j] {
      UnlinkAt(s, r, k, j);
    }
  }

  lemma PathPushed(r: seq<nat>, b: nat, j: nat)
    requires j < |r| + 3
    ensures Path([b] + r)[j] == if j == 0 then HEAD else if j == 1 then b else Path(r)[j - 1]
  {}

  lemma PushedFields(s: seq<Buf>, b: nat, i: nat)
    requires b < |s| && HEAD < |s| && s[HEAD].next < |s| && i < |s|
    requires b != HEAD && b != s[HEAD].next
    ensures Pushed(s, b)[i].next == if i == HEAD then b else if i == b then s[HEAD].next else s[i].next
    ensures Pushed(s, b)[i].prev == if i == b then HEAD else if i == s[HEAD].next then b else s[i].prev
  {}

  lemma PushAt(s: seq<Buf>, r: seq<nat>, b: nat, j: nat)
    requires Linked(s, r) && b < NBUF && b !in r && s[HEAD].next < |s| && j <= |r| + 1
    ensures var t, q := Pushed(s, b), Path([b] + r);
            q[j] < |t| && q[j + 1] < |t| && t[q[j]].next == q[j + 1] && t[q[j + 1]].prev == q[j]
  {
    hide Pushed, Path, NoDup;
    var p := Path(r);
    assert s[p[0]].next == p[1];
    assert p[1] == if |r| == 0 then HEAD else r[0];
    PathPushed(r, b, j);
    PathPushed(r, b, j + 1);
    if j > 0 {
      assert s[p[j - 1]].next == p[j] && s[p[j]].prev == p[j - 1];
    }
    if j > 1 {
      PathDistinct(r, 0, j - 1);
      PathDistinct(r, 1, j);
      assert p[j - 1] == r[j - 2] && p[j] == if j - 1 < |r| then r[j - 1] else HEAD;
      PushedFields(s, b, p[j - 1]);
      PushedFields(s, b, p[j]);
    } else {
      PushedFields(s, b, b);
      PushedFields(s, b, HEAD);
      PushedFields(s, b, p[1]);
    }
  }

  lemma PushKeeps(s: seq<Buf>, r: seq<nat>, b: nat)
    requires Linked(s, r) && b < NBUF && b !in r
    ensures s[HEAD].next < |s|
    ensures Linked(Pushed(s, b), [b] + r)
  {
    hide Pushed;
    assert s[Path(r)[0]].next == Path(r)[1];
    var t, q := Pushed(s, b), Path([b] + r);
    forall j | 0 <= j <= |r| + 1 ensures t[q[j]].next == q[j + 1] && t[q[j + 1]].prev == q[j] {
      PushAt(s, r, b, j);
    }
  }

  // ----- coherence -----

  /** Two pools that differ in their links only. */
  ghost predicate SameBufs(s: seq<Buf>, t: seq<Buf>) {
    && |s| == |t|
    && forall i :: 0 <= i < |s| ==> s[i] == t[i].(prev := s[i].prev, next := s[i].next)
  }

  /** The pool holds each block of the device at most once, its valid buffers hold
      what the block's last change left (content), and a block whose disk copy is
      behind is in a buffer that is in use. */
  ghost predicate Coherent(s: seq<Buf>, disk: Disk, content: Disk, dirty: map<nat, nat>) {
    && |s| == NBUF + 1
    && (forall i :: 0 <= i < NBUF ==> s[i].dev == 0 || s[i].dev == ROOTDEV)
    && (forall i :: 0 <= i < NBUF && (s[i].valid || s[i].refcnt > 0) ==> s[i].dev == ROOTDEV)
    && (forall i :: 0 <= i < NBUF && s[i].holder > 0 ==> s[i].refcnt > 0)
    && (forall i, j :: 0 <= i < j < NBUF && s[i].dev == s[j].dev == ROOTDEV ==> s[i].blockno != s[j].blockno)
    && (forall i :: 0 <= i < NBUF && s[i].valid ==> s[i].data == At(content, s[i].blockno))
    && (forall b :: b in dirty ==>
         dirty[b] < NBUF && s[dirty[b]].valid && s[dirty[b]].blockno == b && s[dirty[b]].refcnt > 0)
    && forall b: nat :: b !in dirty ==> At(disk, b) == At(content, b)
  }

  lemma LinkedSame(s: seq<Buf>, t: seq<Buf>, r: seq<nat>)
    requires Linked(s, r) && |t| == |s|
    requires forall i :: 0 <= i < |s| ==> t[i].next == s[i].next && t[i].prev == s[i].prev
    ensures Linked(t, r)
  {
    hide NoDup;
    forall k | 0 <= k <= |r|
      ensures t[Path(r)[k]].next == Path(r)[k + 1] && t[Path(r)[k + 1]].prev == Path(r)[k]
    {
      assert s[Path(r)[k]].next == Path(r)[k + 1] && s[Path(r)[k + 1]].prev == Path(r)[k];
    }
  }

  lemma CoherentSame(s: seq<Buf>, t: seq<Buf>, disk: Disk, content: Disk, dirty: map<nat, nat>)
    requires Coherent(s, disk, content, dirty) && SameBufs(t, s)
    ensures Coherent(t, disk, content, dirty)
  {}

  lemma CoherentRef(s: seq<Buf>, disk: Disk, content: Disk, dirty: map<nat, nat>, i: nat, n: nat, me: nat)
    requires Coherent(s, disk, content, dirty) && i < NBUF && s[i].dev == ROOTDEV
    requires n == 0 ==> s[i].blockno !in dirty && me == 0
    ensures Coherent(s[i := s[i].(refcnt := n, holder := me)], disk, content, dirty)
  {}

  /** Recycling an unused buffer for a block that no buffer holds. */
  lemma CoherentRecycle(s: seq<Buf>, disk: Disk, content: Disk, dirty: map<nat, nat>, i: nat, b: nat, me: nat)
    requires Coherent(s, disk, content, dirty) && i < NBUF && s[i].refcnt == 0
    requires forall j :: 0 <= j < NBUF ==> !Holds(s[j], b)
    ensures s[i].holder == 0
    ensures Coherent(s[i := Recycled(s[i], me, b)], disk, content, dirty)
  {}

  /** A block in an invalid buffer is not dirty, so reading the disk is right. */
  lemma CoherentFill(s: seq<Buf>, disk: Disk, content: Disk, dirty: map<nat, nat>, i: nat)
    requires Coherent(s, disk, content, dirty) && i < NBUF && s[i].dev == ROOTDEV && !s[i].valid
    ensures At(disk, s[i].blockno) == At(content, s[i].blockno)
    ensures Coherent(s[i := s[i].(valid := true, data := At(disk, s[i].blockno))], disk, content, dirty)
  {
    assert s[i].blockno !in dirty;
  }

  lemma CoherentUpdate(s: seq<Buf>, disk: Disk, content: Disk, dirty: map<nat, nat>, i: nat, data: Block)
    requires Coherent(s, disk, content, dirty) && i < NBUF && s[i].valid && s[i].refcnt > 0
    ensures var b := s[i].blockno; Coherent(s[i := s[i].(data := data)], disk, content[b := data], dirty[b := i])
  {}

  lemma CoherentWrite(s: seq<Buf>, disk: Disk, content: Disk, dirty: map<nat, nat>, i: nat)
    requires Coherent(s, disk, content, dirty) && i < NBUF && s[i].valid
    ensures var b := s[i].blockno; Coherent(s, disk[b := s[i].data], content, dirty - {b})
  {}

  class BufferCache {
    const bufs: array<Buf>
    var disk: Disk
    ghost var ring: seq<nat>          // most recently released first
    ghost var content: Disk           // the uncached disk that the cache stands for
    ghost var dirty: map<nat, nat>    // blocks whose disk copy is behind, and their buffer
    ghost var trace: seq<Write>       // every bwrite so far, in order

    ghost predicate Valid()
      reads this, bufs
    {
      && bufs.Length == NBUF + 1 && Linked(bufs[..], ring)
      && (forall i :: 0 <= i < NBUF ==> i in ring)
      && Coherent(bufs[..], disk, content, dirty)
    }

    /** `binit`: every buffer unused and on the ring. */
    constructor (d: Disk)
      ensures Valid() && fresh(bufs)
      ensures disk == d && content == d && dirty == map[] && trace == []
      ensures forall i :: 0 <= i < NBUF ==> bufs[i].refcnt == 0 && !bufs[i].valid && bufs[i].holder == 0
    {
      bufs := new Buf[NBUF + 1](_ => Buf(false, 0, 0, 0, 0, HEAD, HEAD, Zero));
      disk, content, dirty, ring, trace := d, d, map[], [], [];
      new;
      var b := 0;
      while b < NBUF
        invariant 0 <= b <= NBUF
        invariant bufs.Length == NBUF + 1 && fresh(bufs)
        invariant disk == d && content == d && dirty == map[] && trace == []
        invariant Linked(bufs[..], ring)
        invariant forall i :: 0 <= i < b <==> i in ring
        invariant forall i :: 0 <= i <= NBUF ==>
                    !bufs[i].valid && bufs[i].dev == 0 && bufs[i].refcnt == 0 && bufs[i].holder == 0
      {
        PushFront(b);
        b := b + 1;
      }
    }

    /** Insert b right behind the list head. */
    method PushFront(b: nat)
      requires Linked(bufs[..], ring) && b < NBUF && b !in ring
      modifies bufs, this`ring
      ensures Linked(bufs[..], ring) && ring == [b] + old(ring)
      ensures SameBufs(bufs[..], old(bufs[..]))
    {
      ghost var s := bufs[..];
      PushKeeps(s, ring, b);
      var first := bufs[HEAD].next;
      bufs[b] := bufs[b].(next := first, prev := HEAD);
      bufs[first] := bufs[first].(prev := b);
      bufs[HEAD] := bufs[HEAD].(next := b);
      ring := [b] + ring;
      assert bufs[..] == Pushed(s, b);
    }

    /** bget's first scan: the buffer that holds the block, or HEAD. */
    method Find(blockno: nat) returns (b: nat)
      requires Valid()
      ensures b <= NBUF
      ensures b < NBUF ==> Holds(bufs[b], blockno)
      ensures b == HEAD ==> forall i :: 0 <= i < NBUF ==> !Holds(bufs[i], blockno)
    {
      hide Coherent;
      b := bufs[HEAD].next;
      ghost var k := 0;
      assert bufs[..][Path(ring)[0]].next == Path(ring)[1];
      while b != HEAD
        invariant 0 <= k <= |ring| && b == Path(ring)[k + 1]
        invariant forall j :: 0 <= j < k ==> !Holds(bufs[ring[j]], blockno)
        decreases |ring| - k
      {
        if Holds(bufs[b], blockno) { return; }
        assert bufs[..][Path(ring)[k + 1]].next == Path(ring)[k + 2];
        b := bufs[b].next;
        k := k + 1;
      }
      forall i | 0 <= i < NBUF ensures !Holds(bufs[i], blockno) {
        assert i in ring;
      }
    }

    /** bget's second scan: the unused buffer released longest ago, or HEAD. */
    method FindUnused() returns (b: nat, ghost k: nat)
      requires Valid()
      ensures b <= NBUF
      ensures b < NBUF ==> k < |ring| && ring[k] == b && bufs[b].refcnt == 0
      ensures b < NBUF ==> forall j :: k < j < |ring| ==> bufs[ring[j]].refcnt > 0
      ensures b == HEAD ==> forall i :: 0 <= i < NBUF ==> bufs[i].refcnt > 0
    {
      hide Coherent;
      b := bufs[HEAD].prev;
      k := |ring|;
      assert bufs[..][Path(ring)[k + 1]].prev == Path(ring)[k];
      while b != HEAD
        invariant 0 <= k <= |ring| && b == Path(ring)[k]
        invariant forall j :: k <= j < |ring| ==> bufs[ring[j]].refcnt > 0
        decreases k
      {
        assert Path(ring)[k] == ring[k - 1];
        if bufs[b].refcnt == 0 { k := k - 1; return; }
        assert bufs[..][Path(ring)[k]].prev == Path(ring)[k - 1];
        b := bufs[b].prev;
        k := k - 1;
      }
      forall i | 0 <= i < NBUF ensures bufs[i].refcnt > 0 {
        assert i in ring;
      }
    }

    /** `bget`: the buffer holding the block, or else the least recently released unused one,
        recycled; locked by the caller unless another process holds its lock. */
    method Bget(me: nat, blockno: nat) returns (r: Outcome)
      requires Valid() && me > 0
      modifies bufs
      ensures Valid()
      ensures r.NoBuffers? <==> Exhausted(old(bufs[..]), blockno)
      ensures r.NoBuffers? ==> bufs[..] == old(bufs[..])
      ensures !r.NoBuffers? ==>
                && Got(old(bufs[..]), ring, me, blockno, r.b, bufs[..])
                && (r.Locked? <==> bufs[r.b].holder == me != old(bufs[r.b].holder))
    {
      hide Coherent, Path, NoDup;
      var b := Find(blockno);
      if b != HEAD {
        var free := bufs[b].holder == 0;
        SetRef(b, bufs[b].refcnt + 1, if free then me else bufs[b].holder);
        return if free then Locked(b) else Waits(b);
      }
      ghost var k;
      b, k := FindUnused();
      if b != HEAD {
        assert Oldest(bufs[..], ring, b, k);
        Recycle(me, b, blockno);
        return Locked(b);
      }
      return NoBuffers;
    }

    method Recycle(me: nat, b: nat, blockno: nat)
      requires Valid() && b < NBUF && bufs[b].refcnt == 0 && forall i :: 0 <= i < NBUF ==> !Holds(bufs[i], blockno)
      modifies bufs
      ensures Valid() && old(bufs[b].holder) == 0
      ensures bufs[..] == old(bufs[..])[b := Recycled(old(bufs[b]), me, blockno)]
    {
      ghost var s := bufs[..];
      CoherentRecycle(s, disk, content, dirty, b, blockno, me);
      hide Coherent;
      bufs[b] := Recycled(bufs[b], me, blockno);
      assert bufs[..] == s[b := Recycled(s[b], me, blockno)];
      LinkedSame(s, bufs[..], ring);
    }

    /** The end of acquiresleep for a process that waited for buffer b. */
    method Resume(me: nat, b: nat) returns (ok: bool)
      requires Valid() && me > 0 && b < NBUF && bufs[b].refcnt > 0
      modifies bufs
      ensures Valid() && (ok <==> old(bufs[b].holder) == 0)
      ensures bufs[..] == if ok then old(bufs[..])[b := old(bufs[b]).(holder := me)] else old(bufs[..])
    {
      if bufs[b].holder != 0 { return false; }
      SetRef(b, bufs[b].refcnt, me);
      return true;
    }

    /** The rest of `bread` once the buffer is locked: read the block unless it is there. */
    method Fetch(b: nat)
      requires Valid() && b < NBUF && bufs[b].dev == ROOTDEV
      modifies bufs
      ensures Valid() && bufs[b].data == At(content, bufs[b].blockno)
      ensures bufs[..] == old(bufs[..])[b := old(bufs[b]).(valid := true, data := bufs[b].data)]
    {
      if !bufs[b].valid {
        ghost var s := bufs[..];
        CoherentFill(s, disk, content, dirty, b);
        bufs[b] := bufs[b].(valid := true, data := At(disk, bufs[b].blockno));
        assert bufs[..] == s[b := s[b].(valid := true, data := At(disk, s[b].blockno))];
        LinkedSame(s, bufs[..], ring);
      }
    }

    /** `bread` up to its return, or to its sleep on the lock: the caller holds a buffer with
        the block's current content; no other buffer and no block's content changes. */
    method Bread(me: nat, blockno: nat) returns (r: Outcome)
      requires Valid() && me > 0
      modifies bufs
      ensures Valid()
      ensures r.NoBuffers? <==> Exhausted(old(bufs[..]), blockno)
      ensures r.NoBuffers? ==> bufs[..] == old(bufs[..])
      ensures !r.NoBuffers? ==> Used(old(bufs[..]), blockno, r.b, bufs[..])
      ensures r.Locked? ==> bufs[r.b].holder == me && bufs[r.b].valid && bufs[r.b].data == At(content, blockno)
      ensures r.Waits? ==> bufs[r.b].holder == old(bufs[r.b].holder) != 0
    {
      ghost var s := bufs[..];
      r := Bget(me, blockno);
      if r.Locked? { Fetch(r.b); }
    }

    /** The holder of a buffer changes its data. */
    method Update(me: nat, b: nat, data: Block)
      requires Valid() && b < NBUF && bufs[b].valid && bufs[b].holder == me > 0
      modifies bufs, this`content, this`dirty
      ensures Valid()
      ensures bufs[..] == old(bufs[..])[b := old(bufs[b]).(data := data)]
      ensures content == old(content)[old(bufs[b].blockno) := data]
      ensures dirty == old(dirty)[old(bufs[b].blockno) := b]
    {
      hide Coherent;
      ghost var s := bufs[..];
      InUse(s, disk, content, dirty, b);
      CoherentUpdate(s, disk, content, dirty, b, data);
      content := content[bufs[b].blockno := data];
      dirty := dirty[bufs[b].blockno := b];
      bufs[b] := bufs[b].(data := data);
      assert bufs[..] == s[b := s[b].(data := data)];
      LinkedSame(s, bufs[..], ring);
    }

    /** `bwrite`: the disk catches up with the buffer; a process that does not hold the
        buffer's lock panics. */
    method Bwrite(me: nat, b: nat) returns (panicked: bool)
      requires Valid() && me > 0 && b < NBUF && bufs[b].valid
      modifies this`disk, this`dirty, this`trace
      ensures Valid() && (panicked <==> bufs[b].holder != me)
      ensures panicked ==> disk == old(disk) && dirty == old(dirty) && trace == old(trace)
      ensures !panicked ==>
                && disk == old(disk)[bufs[b].blockno := At(content, bufs[b].blockno)]
                && dirty == old(dirty) - {bufs[b].blockno}
                && trace == old(trace) + [Write(bufs[b].blockno, At(content, bufs[b].blockno))]
    {
      if bufs[b].holder != me { return true; }
      CoherentWrite(bufs[..], disk, content, dirty, b);
      dirty := dirty - {bufs[b].blockno};
      disk := disk[bufs[b].blockno := bufs[b].data];
      trace := trace + [Write(bufs[b].blockno, bufs[b].data)];
      return false;
    }

    /** `bpin`. */
    method Bpin(b: nat)
      requires Valid() && b < NBUF && bufs[b].dev == ROOTDEV
      modifies bufs
      ensures Valid()
      ensures bufs[..] == old(bufs[..])[b := old(bufs[b]).(refcnt := old(bufs[b].refcnt) + 1)]
    {
      SetRef(b, bufs[b].refcnt + 1, bufs[b].holder);
    }

    method SetRef(b: nat, n: nat, holder: nat)
      requires Valid() && b < NBUF && bufs[b].dev == ROOTDEV
      requires n == 0 ==> bufs[b].blockno !in dirty && holder == 0
      modifies bufs
      ensures Valid()
      ensures bufs[..] == old(bufs[..])[b := old(bufs[b]).(refcnt := n, holder := holder)]
    {
      ghost var s := bufs[..];
      CoherentRef(s, disk, content, dirty, b, n, holder);
      bufs[b] := bufs[b].(refcnt := n, holder := holder);
      assert bufs[..] == s[b := s[b].(refcnt := n, holder := holder)];
      LinkedSame(s, bufs[..], ring);
    }

    /** `bunpin`: the last reference may go only when the disk is up to date and nobody holds
        the lock. */
    method Bunpin(b: nat)
      requires Valid() && b < NBUF && bufs[b].refcnt > 0
      requires bufs[b].refcnt == 1 ==> bufs[b].blockno !in dirty && bufs[b].holder == 0
      modifies bufs
      ensures Valid()
      ensures bufs[..] == old(bufs[..])[b := old(bufs[b]).(refcnt := old(bufs[b].refcnt) - 1)]
    {
      SetRef(b, bufs[b].refcnt - 1, bufs[b].holder);
    }

    /** Take b, at ring position k, out of the list. */
    method Unlink(b: nat, ghost k: nat)
      requires Linked(bufs[..], ring) && k < |ring| && ring[k] == b
      modifies bufs, this`ring
      ensures Linked(bufs[..], ring) && ring == Without(old(ring), k)
      ensures SameBufs(bufs[..], old(bufs[..]))
    {
      ghost var s := bufs[..];
      UnlinkKeeps(s, ring, k);
      var next := bufs[b].next;
      bufs[next] := bufs[next].(prev := bufs[b].prev);
      var prev := bufs[b].prev;
      bufs[prev] := bufs[prev].(next := bufs[b].next);
      ring := Without(ring, k);
      assert bufs[..] == Unlinked(s, b);
    }

    /** `brelse`: unlock the buffer and drop a reference; with the last one the buffer becomes
        the most recently released, the order of all others staying as it was. A process that
        does not hold the lock panics. */
    method Brelse(me: nat, b: nat) returns (panicked: bool)
      requires Valid() && me > 0 && b < NBUF
      requires bufs[b].refcnt == 1 ==> bufs[b].blockno !in dirty
      modifies bufs, this`ring
      ensures Valid() && (panicked <==> old(bufs[b].holder) != me)
      ensures panicked ==> bufs[..] == old(bufs[..]) && ring == old(ring)
      ensures !panicked ==>
                && old(bufs[b].refcnt) > 0
                && SameBufs(bufs[..], old(bufs[..])[b := old(bufs[b]).(refcnt := old(bufs[b].refcnt) - 1, holder := 0)])
      ensures !panicked && old(bufs[b].refcnt) > 1 ==> ring == old(ring)
      ensures !panicked && old(bufs[b].refcnt) == 1 ==>
                exists k :: 0 <= k < |old(ring)| && old(ring)[k] == b && ring == [b] + Without(old(ring), k)
    {
      hide Coherent;
      if bufs[b].holder != me { return true; }
      InUse(bufs[..], disk, content, dirty, b);
      SetRef(b, bufs[b].refcnt - 1, 0);
      if bufs[b].refcnt == 0 { ToFront(b); }
      return false;
    }

    /** Buffer b becomes the most recently released. */
    method ToFront(b: nat)
      requires Valid() && b < NBUF
      modifies bufs, this`ring
      ensures Valid() && SameBufs(bufs[..], old(bufs[..]))
      ensures exists k :: 0 <= k < |old(ring)| && old(ring)[k] == b && ring == [b] + Without(old(ring), k)
    {
      hide Coherent;
      assert b in ring;
      ghost var k :| 0 <= k < |ring| && ring[k] == b;
      Unlink(b, k);
      WithoutMember(old(ring), k);
      PushFront(b);
      CoherentSame(old(bufs[..]), bufs[..], disk, content, dirty);
    }
  }

  lemma InUse(s: seq<Buf>, disk: Disk, content: Disk, dirty: map<nat, nat>, b: nat)
    requires Coherent(s, disk, content, dirty) && b < NBUF && s[b].holder > 0
    ensures s[b].refcnt > 0 && s[b].dev == ROOTDEV
  {}

  lemma WithoutMember(r: seq<nat>, k: nat)
    requires NoDup(r) && k < |r|
    ensures r[k] !in Without(r, k)
    ensures forall i: nat :: i in r ==> i == r[k] || i in Without(r, k)
  {
    forall i: nat | i in r ensures i == r[k] || i in Without(r, k) {
      var j :| 0 <= j < |r| && r[j] == i;
      if j < k { assert Without(r, k)[j] == i; } else if j > k { assert Without(r, k)[j - 1] == i; }
    }
  }

  /** b, at ring position k, is the unused buffer whose last release is longest ago. */
  ghost predicate Oldest(s: seq<Buf>, ring: seq<nat>, b: nat, k: nat) {
    && k < |ring| && ring[k] == b && b < |s| && s[b].refcnt == 0
    && forall j :: k < j < |ring| && ring[j] < |s| ==> s[ring[j]].refcnt > 0
  }

  /** An unused buffer given to process me for a block. */
  function Recycled(buf: Buf, me: nat, blockno: nat): Buf {
    buf.(dev := ROOTDEV, blockno := blockno, valid := false, refcnt := 1, holder := me)
  }

  /** No buffer holds the block and every buffer is in use. */
  ghost predicate Exhausted(s: seq<Buf>, blockno: nat)
    requires |s| > NBUF
  {
    forall i :: 0 <= i < NBUF ==> !Holds(s[i], blockno) && s[i].refcnt > 0
  }

  /** What `bget` makes of the pool s when it settles on buffer b: it takes the lock if it is
      free. */
  ghost predicate Got(s: seq<Buf>, ring: seq<nat>, me: nat, blockno: nat, b: nat, t: seq<Buf>) {
    && b < NBUF < |s|
    && if Holds(s[b], blockno) then
         var holder := if s[b].holder == 0 then me else s[b].holder;
         t == s[b := s[b].(refcnt := s[b].refcnt + 1, holder := holder)]
       else
         && (forall i :: 0 <= i < NBUF ==> !Holds(s[i], blockno))
         && (exists k :: Oldest(s, ring, b, k))
         && t == s[b := Recycled(s[b], me, blockno)]
  }

  /** Buffer b has one user more, who wants the block; if it is a recycled one nobody used it. */
  ghost predicate Used(s: seq<Buf>, blockno: nat, b: nat, t: seq<Buf>) {
    && b < NBUF < |s| == |t| && Holds(t[b], blockno) && t[b].refcnt == s[b].refcnt + 1
    && (Holds(s[b], blockno) || (s[b].refcnt == 0 && forall i :: 0 <= i < NBUF ==> !Holds(s[i], blockno)))
    && forall i :: 0 <= i < |s| && i != b ==> t[i] == s[i]
  }

  predicate Holds(buf: Buf, blockno: nat) {
    buf.dev == ROOTDEV && buf.blockno == blockno
  }
}
