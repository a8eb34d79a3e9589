/** A pipe: a ring of PIPESIZE bytes whose two counters are 32-bit and wrap around.

    pipewrite and piperead hold the pipe's lock except inside sleep, so any interleaving
    of writers and readers is a sequence of the bursts below. */
module Pipe {
  import opened Blocks
  import opened Common

  const PIPESIZE := 512
  const UINT := 0x1_0000_0000

  datatype Burst = Asleep(next: nat) | Returned(r: int)

  lemma WrapEqual(a: nat, b: nat)
    requires b <= a <= b + PIPESIZE
    ensures a % UINT == b % UINT <==> a == b
    ensures a % UINT == (b % UINT + PIPESIZE) % UINT <==> a == b + PIPESIZE
  {}

  /** Wrapping at 2^32 keeps the slot, since PIPESIZE divides 2^32. */
  lemma WrapNext(a: nat)
    ensures (a % UINT + 1) % UINT == (a + 1) % UINT && a % UINT % PIPESIZE == a % PIPESIZE
  {
    ModMultiple(PIPESIZE, 8388608 * (a / UINT), a % UINT);
    assert a == PIPESIZE * (8388608 * (a / UINT)) + a % UINT;
  }

  /** Positions in flight have slots of their own. */
  lemma SlotsDiffer(a: nat, i: nat)
    requires i < a < i + PIPESIZE
    ensures a % PIPESIZE != i % PIPESIZE
  {}

  class Pipe {
    var data: array<Byte>
    var nread: nat
    var nwrite: nat
    var readopen: bool
    var writeopen: bool
    ghost var sent: seq<Byte>   // every byte put in, in order
    ghost var got: seq<Byte>    // every byte taken out, in order

    /** The bytes taken out are the first of those put in; the ring holds the others, oldest
        first, at most PIPESIZE of them. */
    ghost predicate Valid()
      reads this, data
    {
      && data.Length == PIPESIZE
      && |got| <= |sent| <= |got| + PIPESIZE && got == sent[..|got|]
      && nread == |got| % UINT && nwrite == |sent| % UINT
      && forall i :: |got| <= i < |sent| ==> data[i % PIPESIZE] == sent[i]
    }

    /** pipealloc. */
    constructor ()
      ensures Valid() && fresh(data) && sent == [] && got == [] && readopen && writeopen
    {
      data := new Byte[PIPESIZE](_ => 0);
      nread, nwrite, readopen, writeopen, sent, got := 0, 0, true, true, [], [];
    }

    method Put(ch: Byte)
      requires Valid() && |sent| < |got| + PIPESIZE
      modifies this`nwrite, this`sent, data
      ensures Valid() && sent == old(sent) + [ch]
    {
      WrapNext(|sent|);
      forall i | |got| <= i < |sent| ensures i % PIPESIZE != |sent| % PIPESIZE { SlotsDiffer(|sent|, i); }
      data[nwrite % PIPESIZE] := ch;
      nwrite := (nwrite + 1) % UINT;
      sent := sent + [ch];
    }

    method Take() returns (ch: Byte)
      requires Valid() && |got| < |sent|
      modifies this`nread, this`got
      ensures Valid() && ch == sent[|old(got)|] && got == old(got) + [ch]
    {
      WrapNext(|got|);
      ch := data[nread % PIPESIZE];
      nread := (nread + 1) % UINT;
      got := got + [ch];
    }

    /** One burst of `pipewrite` from byte i of src on, of which the first `avail` can be
        copied in: until the ring is full, all is written, the copy fails, or the process is
        found killed, which it is from byte `dies` on. What it adds is src from i on, in
        order; a killed writer returns -1 whatever it added. */
    method WriteBurst(src: seq<Byte>, i: nat, avail: nat, dies: nat) returns (b: Burst, ghost upto: nat)
      requires Valid() && i <= |src|
      modifies this`nwrite, this`sent, data
      ensures Valid() && i <= upto <= |src| && sent == old(sent) + src[i..upto]
      ensures b.Asleep? <==> upto < |src| && |sent| == |got| + PIPESIZE && readopen && upto < dies
      ensures b.Asleep? ==> b.next == upto
      ensures b == Returned(-1) <==> upto < |src| && (!readopen || dies <= upto)
      ensures b == Returned(-1) ==> upto == i || (readopen && upto == dies)
      ensures b.Returned? && b.r != -1 ==> b.r == upto && (upto < |src| ==> upto >= avail)
    {
      upto := i;
      var n := i;
      while n < |src|
        invariant i <= n <= |src| && upto == n && Valid()
        invariant sent == old(sent) + src[i..n]
        invariant n > i ==> readopen && n <= dies
      {
        if !readopen || dies <= n { return Returned(-1), upto; }
        WrapEqual(|sent|, |got|);
        if nwrite == (nread + PIPESIZE) % UINT { return Asleep(n), upto; }
        if n >= avail { break; }
        Put(src[n]);
        assert src[i..n + 1] == src[i..n] + [src[n]];
        n, upto := n + 1, n + 1;
      }
      return Returned(n), upto;
    }

    /** One burst of `piperead` of up to n bytes into memory that takes `room`: it sleeps on
        an empty pipe that can still be written; otherwise it takes out the oldest bytes, as
        many as there are and are wanted, losing the one whose copy fails. */
    method ReadBurst(n: nat, room: nat, killed: bool) returns (b: Burst, out: seq<Byte>, ghost lost: seq<Byte>)
      requires Valid()
      modifies this`nread, this`got
      ensures Valid() && got == old(got) + out + lost && |out| <= n
      ensures b.Asleep? <==> |old(got)| == |sent| && writeopen && !killed
      ensures b.Asleep? ==> got == old(got)
      ensures b == Returned(-1) <==> |old(got)| == |sent| && writeopen && killed
      ensures b == Returned(-1) ==> got == old(got)
      ensures b.Returned? && b.r != -1 ==> b.r == |out|
      ensures |lost| == if b.Returned? && b.r != -1 && room == |out| < n && |old(got)| + |out| < |sent| then 1 else 0
      ensures b.Returned? && b.r != -1 && |out| < n ==> |got| == |sent| || |out| == room
    {
      out, lost := [], [];
      WrapEqual(|sent|, |got|);
      if nread == nwrite && writeopen {
        if killed { return Returned(-1), [], []; }
        return Asleep(0), [], [];
      }
      while |out| < n
        invariant |out| <= n && |out| <= room && got == old(got) + out && Valid()
      {
        WrapEqual(|sent|, |got|);
        if nread == nwrite { break; }
        var ch := Take();
        if |out| == room {
          lost := [ch];
          break;
        }
        out := out + [ch];
      }
      return Returned(|out|), out, lost;
    }
  }
}
