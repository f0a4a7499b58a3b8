/** lwIP packet buffers as the Ethernet port uses them: a chain of pbufs from a pool, filled from one
  * flat DMA buffer on reception (scatter) and copied into one on transmission (gather).
  */
module Pbuf {
  import opened Words

  class PacketBuffer {
    var next: PacketBuffer?
    var len: nat
    var ref: nat
    const payload: array<Byte>

    constructor (size: nat)
      ensures fresh(payload) && payload.Length == size && next == null && len == 0 && ref == 1
    {
      payload := new Byte[size];
      next, len, ref := null, 0, 1;
    }
  }

  /** `chain` lists the pbufs reached through `next`. */
  ghost predicate Links(chain: seq<PacketBuffer>)
    reads chain
  {
    forall i | 0 <= i < |chain| ::
      && chain[i].len <= chain[i].payload.Length
      && chain[i].next == if i + 1 < |chain| then chain[i + 1] else null
  }

  /** No two of them share memory. */
  ghost predicate IsChain(chain: seq<PacketBuffer>)
    reads chain
  {
    && Links(chain)
    && (forall i, j | 0 <= i < j < |chain| ::
          chain[i] != chain[j] && chain[i].payload != chain[j].payload)
  }

  function Head(chain: seq<PacketBuffer>): PacketBuffer? {
    if chain == [] then null else chain[0]
  }

  function Payloads(chain: seq<PacketBuffer>): set<array<Byte>> {
    set i | 0 <= i < |chain| :: chain[i].payload
  }

  // ---------------------------------------------------------------- segmentations

  /** Bytes in the first `k` of segments of lengths `lens`. */
  function Sum(lens: seq<nat>, k: nat): nat
    requires k <= |lens|
  {
    if k == 0 then 0 else Sum(lens, k - 1) + lens[k - 1]
  }

  function Total(lens: seq<nat>): nat { Sum(lens, |lens|) }

  /** The first `k` parts, one after the other. */
  function FlatTo(parts: seq<seq<Byte>>, k: nat): seq<Byte>
    requires k <= |parts|
  {
    if k == 0 then [] else FlatTo(parts, k - 1) + parts[k - 1]
  }

  function Flat(parts: seq<seq<Byte>>): seq<Byte> { FlatTo(parts, |parts|) }

  lemma {:induction false} SumMonotone(lens: seq<nat>, i: nat, k: nat)
    requires i <= k <= |lens|
    ensures Sum(lens, i) <= Sum(lens, k)
  {
    if i == k {
    } else {
      SumMonotone(lens, i, k - 1);
    }
  }

  /** `parts` are consecutive pieces of `bytes`, of lengths `lens`. */
  ghost predicate IsCut(parts: seq<seq<Byte>>, bytes: seq<Byte>, lens: seq<nat>) {
    && |parts| == |lens| && Total(lens) <= |bytes|
    && forall j: nat | j < |lens| :: IsPiece(parts, bytes, lens, j)
  }

  ghost predicate IsPiece(parts: seq<seq<Byte>>, bytes: seq<Byte>, lens: seq<nat>, j: nat)
    requires j < |lens|
  {
    && j < |parts| && Sum(lens, j) + lens[j] <= |bytes|
    && parts[j] == bytes[Sum(lens, j)..Sum(lens, j) + lens[j]]
  }

  /** Pieces put one after the other are the bytes they were cut from. */
  lemma {:induction false} FlatOfCut(parts: seq<seq<Byte>>, bytes: seq<Byte>, lens: seq<nat>, k: nat)
    requires IsCut(parts, bytes, lens) && k <= |parts|
    ensures Sum(lens, k) <= |bytes| && FlatTo(parts, k) == bytes[..Sum(lens, k)]
  {
    SumMonotone(lens, k, |lens|);
    if k == 0 {
    } else {
      FlatOfCut(parts, bytes, lens, k - 1);
      assert IsPiece(parts, bytes, lens, k - 1);
    }
  }

  /** A concatenation has its parts where their lengths say. */
  lemma {:induction false} CutOfFlat(parts: seq<seq<Byte>>, lens: seq<nat>, k: nat)
    requires |lens| == |parts| && (forall j | 0 <= j < |parts| :: lens[j] == |parts[j]|) && k <= |parts|
    ensures Sum(lens, k) == |FlatTo(parts, k)|
    ensures forall j: nat | j < k :: IsPiece(parts, FlatTo(parts, k), lens, j)
  {
    if k == 0 {
    } else {
      CutOfFlat(parts, lens, k - 1);
      forall j: nat | j < k
        ensures IsPiece(parts, FlatTo(parts, k), lens, j)
      {
        assert j < k - 1 ==> IsPiece(parts, FlatTo(parts, k - 1), lens, j);
      }
    }
  }

  /** Gather and scatter undo each other. Whatever is left behind the gathered bytes in the buffer, a
    * chain of the same total length scattered from it, however it is cut, holds the bytes gathered;
    * cut the same way, it holds the very same parts. */
  lemma GatherThenScatter(sent: seq<seq<Byte>>, rest: seq<Byte>, received: seq<seq<Byte>>, lens: seq<nat>)
    requires IsCut(received, Flat(sent) + rest, lens) && Total(lens) == |Flat(sent)|
    ensures Flat(received) == Flat(sent)
    ensures |sent| == |lens| && (forall j | 0 <= j < |lens| :: |sent[j]| == lens[j]) ==> received == sent
  {
    FlatOfCut(received, Flat(sent) + rest, lens, |lens|);
    if |sent| == |lens| && forall j | 0 <= j < |lens| :: |sent[j]| == lens[j] {
      CutOfFlat(sent, lens, |sent|);
      forall j | 0 <= j < |sent|
        ensures received[j] == sent[j]
      {
        assert IsPiece(received, Flat(sent) + rest, lens, j);
        assert IsPiece(sent, Flat(sent), lens, j);
      }
    }
  }

  /** The pbufs of `chain` hold `parts`, one each. */
  ghost predicate Holds(chain: seq<PacketBuffer>, parts: seq<seq<Byte>>)
    reads chain, Payloads(chain)
  {
    && |parts| == |chain|
    && forall i | 0 <= i < |chain| :: chain[i].len <= chain[i].payload.Length
         && chain[i].payload[..chain[i].len] == parts[i]
  }

  ghost predicate HasLens(chain: seq<PacketBuffer>, lens: seq<nat>)
    reads chain
  {
    |lens| == |chain| && forall i | 0 <= i < |chain| :: chain[i].len == lens[i]
  }

  // ---------------------------------------------------------------- the copy loops

  /** `memcpy` between different arrays. */
  method MemCopy(dst: array<Byte>, to: nat, src: array<Byte>, from: nat, n: nat)
    requires dst != src && to + n <= dst.Length && from + n <= src.Length
    modifies dst
    ensures dst[..] == old(dst[..])[..to] + src[from..from + n] + old(dst[..])[to + n..]
  {
    forall k | 0 <= k < n {
      dst[to + k] := src[from + k];
    }
  }

  lemma {:induction false} FlatMonotone(parts: seq<seq<Byte>>, i: nat, k: nat)
    requires i <= k <= |parts|
    ensures |FlatTo(parts, i)| <= |FlatTo(parts, k)|
  {
    if i == k {
    } else {
      FlatMonotone(parts, i, k - 1);
    }
  }

  /** The first `i` parts stand at the front of what `was` in the buffer. */
  ghost predicate Gathered(bytes: seq<Byte>, parts: seq<seq<Byte>>, i: nat, was: seq<Byte>) {
    i <= |parts| && |FlatTo(parts, i)| <= |was| && bytes == FlatTo(parts, i) + was[|FlatTo(parts, i)|..]
  }

  /** Copies pbuf `i` behind those that stand in the buffer already. */
  method CopyIn(q: PacketBuffer, buffer: array<Byte>, l: nat, ghost chain: seq<PacketBuffer>,
                ghost parts: seq<seq<Byte>>, ghost i: nat, ghost was: seq<Byte>)
    requires Holds(chain, parts) && buffer !in Payloads(chain) && i < |chain| && q == chain[i]
    requires l == |FlatTo(parts, i)| && |Flat(parts)| <= |was| && Gathered(buffer[..], parts, i, was)
    modifies buffer
    ensures Holds(chain, parts)
    ensures l + q.len == |FlatTo(parts, i + 1)| && Gathered(buffer[..], parts, i + 1, was)
  {
    FlatMonotone(parts, i + 1, |parts|);
    assert q.payload[0..q.len] == parts[i];
    MemCopy(buffer, l, q.payload, 0, q.len);
  }

  /** Fills one pbuf from position `l` of the buffer. */
  method CopyOut(q: PacketBuffer, buffer: array<Byte>, l: nat)
    requires buffer != q.payload && q.len <= q.payload.Length && l + q.len <= buffer.Length
    modifies q.payload
    ensures q.payload[..q.len] == buffer[l..l + q.len]
  {
    MemCopy(q.payload, 0, buffer, l, q.len);
  }

  /** The loop of `low_level_output`. */
  method Gather(p: PacketBuffer?, buffer: array<Byte>, ghost chain: seq<PacketBuffer>, ghost parts: seq<seq<Byte>>)
    returns (l: nat)
    requires Links(chain) && p == Head(chain) && Holds(chain, parts) && buffer !in Payloads(chain)
    requires |Flat(parts)| <= buffer.Length
    modifies buffer
    ensures l == |Flat(parts)| && buffer[..] == Flat(parts) + old(buffer[..])[l..]
  {
    ghost var was := buffer[..];
    var q := p;
    l := 0;
    ghost var i := 0;
    while q != null
      invariant i <= |chain| && (q == null <==> i == |chain|)
      invariant q != null ==> q == chain[i]
      invariant Links(chain) && Holds(chain, parts)
      invariant l == |FlatTo(parts, i)| && Gathered(buffer[..], parts, i, was)
      decreases |chain| - i
    {
      assert q.next == if i + 1 < |chain| then chain[i + 1] else null;
      CopyIn(q, buffer, l, chain, parts, i, was);
      l := l + q.len;
      q := q.next;
      i := i + 1;
    }
  }

  /** One more piece. */
  ghost function Appended(parts: seq<seq<Byte>>, bytes: seq<Byte>, lens: seq<nat>, i: nat): (r: seq<seq<Byte>>)
    requires i == |parts| < |lens| && Sum(lens, i) + lens[i] <= |bytes|
    requires forall j: nat | j < i :: IsPiece(parts, bytes, lens, j)
    ensures r == parts + [bytes[Sum(lens, i)..Sum(lens, i) + lens[i]]]
    ensures forall j: nat | j < i + 1 :: IsPiece(r, bytes, lens, j)
  {
    var r := parts + [bytes[Sum(lens, i)..Sum(lens, i) + lens[i]]];
    assert forall j: nat | j < i :: IsPiece(parts, bytes, lens, j) ==> IsPiece(r, bytes, lens, j);
    r
  }

  /** The first pbufs of the chain hold `parts`, cut from the front of `bytes`. */
  ghost predicate Filled(chain: seq<PacketBuffer>, lens: seq<nat>, bytes: seq<Byte>, parts: seq<seq<Byte>>)
    reads chain, Payloads(chain)
  {
    && |parts| <= |chain| == |lens|
    && (forall j: nat | j < |parts| :: IsPiece(parts, bytes, lens, j))
    && (forall j | 0 <= j < |parts| ::
          chain[j].len <= chain[j].payload.Length && chain[j].payload[..chain[j].len] == parts[j])
  }

  /** Copies the next piece out into pbuf `i`. */
  method CopyPiece(q: PacketBuffer, buffer: array<Byte>, l: nat, ghost chain: seq<PacketBuffer>, ghost lens: seq<nat>,
                   ghost parts: seq<seq<Byte>>, ghost i: nat)
    returns (ghost more: seq<seq<Byte>>)
    requires IsChain(chain) && HasLens(chain, lens) && buffer !in Payloads(chain)
    requires i == |parts| < |chain| && q == chain[i] && l == Sum(lens, i) && l + lens[i] <= buffer.Length
    requires Filled(chain, lens, buffer[..], parts)
    modifies q.payload
    ensures |more| == i + 1 && Filled(chain, lens, buffer[..], more) && buffer[..] == old(buffer[..])
  {
    CopyOut(q, buffer, l);
    more := Appended(parts, buffer[..], lens, i);
    assert forall j | 0 <= j < i :: chain[j].payload[..] == old(chain[j].payload[..]);
  }

  /** The loop of `low_level_input`. */
  method Scatter(p: PacketBuffer?, buffer: array<Byte>, ghost chain: seq<PacketBuffer>, ghost lens: seq<nat>)
    returns (l: nat, ghost parts: seq<seq<Byte>>)
    requires IsChain(chain) && p == Head(chain) && HasLens(chain, lens) && buffer !in Payloads(chain)
    requires Total(lens) <= buffer.Length
    modifies Payloads(chain)
    ensures l == Total(lens) && Holds(chain, parts) && IsCut(parts, buffer[..], lens)
  {
    var q := p;
    l := 0;
    ghost var i := 0;
    parts := [];
    while q != null
      invariant i == |parts| <= |chain| && (q == null <==> i == |chain|)
      invariant q != null ==> q == chain[i]
      invariant IsChain(chain) && HasLens(chain, lens) && l == Sum(lens, i)
      invariant Filled(chain, lens, buffer[..], parts)
      decreases |chain| - i
    {
      assert q.next == if i + 1 < |chain| then chain[i + 1] else null;
      SumMonotone(lens, i + 1, |lens|);
      parts := CopyPiece(q, buffer, l, chain, lens, parts, i);
      l := l + q.len;
      q := q.next;
      i := i + 1;
    }
  }

  // ---------------------------------------------------------------- the pool

  /** Pool pbufs that `length` bytes need; an empty packet needs one too. */
  function Needed(length: nat, bufsize: nat): (n: nat)
    requires 0 < bufsize
    ensures 0 < n
  {
    if length <= bufsize then 1 else 1 + Needed(length - bufsize, bufsize)
  }

  /** It is the length divided by the size of a pbuf, rounded up; but one for an empty packet. */
  lemma {:induction false} NeededIsCeiling(length: nat, bufsize: nat)
    requires 0 < bufsize
    ensures var n := Needed(length, bufsize);
      if length == 0 then n == 1 else (n - 1) * bufsize < length <= n * bufsize
    decreases length
  {
    if length <= bufsize {
    } else {
      NeededIsCeiling(length - bufsize, bufsize);
      OneMore(Needed(length - bufsize, bufsize), bufsize);
    }
  }

  lemma OneMore(n: int, bufsize: int)
    ensures (n + 1) * bufsize == n * bufsize + bufsize && n * bufsize == (n - 1) * bufsize + bufsize
  {
  }

  lemma {:induction false} SumAppend(lens: seq<nat>, n: nat, k: nat)
    requires k <= |lens|
    ensures Sum(lens + [n], k) == Sum(lens, k)
  {
    if k == 0 {
    } else {
      SumAppend(lens, n, k - 1);
    }
  }

  ghost predicate Unshared(chain: seq<PacketBuffer>)
    reads chain
  {
    forall i | 0 <= i < |chain| :: chain[i].ref == 1
  }

  /** Every pbuf but the last is used to the full. */
  ghost predicate FullButLast(lens: seq<nat>, bufsize: nat) {
    forall i | 0 <= i < |lens| - 1 :: lens[i] == bufsize
  }

  /** A chain that `pbuf_alloc` is building, with `rem` of the `length` bytes still to come. */
  ghost predicate Building(chain: seq<PacketBuffer>, lens: seq<nat>, bufsize: nat, length: nat, rem: nat)
    requires 0 < bufsize
    reads chain
  {
    && chain != [] && IsChain(chain) && Unshared(chain) && HasLens(chain, lens) && FullButLast(lens, bufsize)
    && (rem > 0 ==> lens[|lens| - 1] == bufsize)
    && Total(lens) + rem == length
    && Needed(length, bufsize) == |chain| + if rem == 0 then 0 else Needed(rem, bufsize)
  }

  /** Hangs a fresh pbuf of length `n` on the end of a chain. */
  method Append(r: PacketBuffer, q: PacketBuffer, n: nat, ghost chain: seq<PacketBuffer>, ghost lens: seq<nat>)
    requires IsChain(chain) && Unshared(chain) && HasLens(chain, lens) && chain != [] && r == chain[|chain| - 1]
    requires q !in chain && q.payload !in Payloads(chain)
    requires q.next == null && q.ref == 1 && n <= q.payload.Length
    modifies r`next, q`len
    ensures q.len == n && IsChain(chain + [q]) && Unshared(chain + [q]) && HasLens(chain + [q], lens + [n])
    ensures Total(lens + [n]) == Total(lens) + n
  {
    r.next := q;
    q.len := n;
    SumAppend(lens, n, |lens|);
  }

  /** Drops one reference. */
  method Drop(q: PacketBuffer, ghost chain: seq<PacketBuffer>, ghost k: nat)
    requires IsChain(chain) && k < |chain| && q == chain[k] && 0 < q.ref
    modifies q`ref
    ensures IsChain(chain) && q.ref == old(q.ref) - 1
    ensures q.next == if k + 1 < |chain| then chain[k + 1] else null
    ensures forall i | 0 <= i < |chain| && i != k :: chain[i].ref == old(chain[i].ref)
  {
    q.ref := q.ref - 1;
  }

  class Pool {
    const bufsize: nat
    var free: nat

    constructor (bufsize: nat, count: nat)
      ensures this.bufsize == bufsize && free == count
    {
      this.bufsize, free := bufsize, count;
    }

    /** `memp_malloc(MEMP_PBUF_POOL)`. */
    method Take() returns (q: PacketBuffer?)
      modifies this
      ensures old(free) == 0 ==> q == null && free == 0
      ensures old(free) != 0 ==>
          && q != null && free == old(free) - 1 && fresh(q) && fresh(q.payload)
          && q.payload.Length == bufsize && q.next == null && q.ref == 1 && q.len == 0
    {
      q := null;
      if free != 0 {
        free := free - 1;
        q := new PacketBuffer(bufsize);
      }
    }

    /** One more pbuf at the end of a chain, if the pool has one. */
    method Grow(r: PacketBuffer, n: nat, ghost chain: seq<PacketBuffer>, ghost lens: seq<nat>)
        returns (q: PacketBuffer?)
      requires IsChain(chain) && Unshared(chain) && HasLens(chain, lens) && chain != [] && r == chain[|chain| - 1]
      requires n <= bufsize
      modifies this, r`next
      ensures q == null <==> old(free) == 0
      ensures q == null ==> free == 0 && IsChain(chain) && Unshared(chain)
      ensures q != null ==>
          && free == old(free) - 1 && fresh(q) && fresh(q.payload) && q.len == n
          && IsChain(chain + [q]) && Unshared(chain + [q]) && HasLens(chain + [q], lens + [n])
          && Total(lens + [n]) == Total(lens) + n
    {
      q := Take();
      if q != null {
        Append(r, q, n, chain, lens);
      }
    }

    /** The first pbuf of a chain. */
    method First(length: nat) returns (p: PacketBuffer?)
      requires 0 < bufsize
      modifies this
      ensures p == null <==> old(free) == 0
      ensures p == null ==> free == old(free)
      ensures p != null ==>
          && free == old(free) - 1 && fresh(p) && fresh(p.payload) && p.len <= length
          && Building([p], [p.len], bufsize, length, length - p.len)
    {
      p := Take();
      if p != null {
        p.len := if length <= bufsize then length else bufsize;
        assert Sum([p.len], 1) == Sum([p.len], 0) + p.len;
      }
    }

    /** The same within `pbuf_alloc`: with the pool empty, the chain so far is freed. */
    method GrowOrFree(r: PacketBuffer, n: nat, ghost chain: seq<PacketBuffer>, ghost lens: seq<nat>, p: PacketBuffer,
                      ghost length: nat, ghost rem: nat)
      returns (q: PacketBuffer?)
      requires 0 < bufsize && Building(chain, lens, bufsize, length, rem) && 0 < rem
      requires n == (if rem <= bufsize then rem else bufsize) && r == chain[|chain| - 1] && p == chain[0]
      modifies this, chain
      ensures q == null <==> old(free) == 0
      ensures q == null ==> free == |chain|
      ensures q != null ==>
          && free == old(free) - 1 && fresh(q) && fresh(q.payload) && q.len == n
          && Building(chain + [q], lens + [n], bufsize, length, rem - n)
    {
      q := Grow(r, n, chain, lens);
      if q == null {
        var count := Free(p, chain);
      }
    }

    /** `pbuf_alloc(PBUF_RAW, length, PBUF_POOL)`. It fails exactly when the pool holds too few pbufs,
      * and then gives back those it had already taken. */
    method Alloc(length: nat) returns (p: PacketBuffer?, ghost chain: seq<PacketBuffer>, ghost lens: seq<nat>)
      requires 0 < bufsize
      modifies this
      ensures p == null <==> old(free) < Needed(length, bufsize)
      ensures p == null ==> free == old(free)
      ensures p != null ==>
          && free == old(free) - |chain| && |chain| == Needed(length, bufsize)
          && p == Head(chain) && IsChain(chain) && Unshared(chain) && HasLens(chain, lens) && Total(lens) == length
          && FullButLast(lens, bufsize)
      ensures forall i | 0 <= i < |chain| :: fresh(chain[i]) && fresh(chain[i].payload)
    {
      p := First(length);
      if p == null {
        return null, [], [];
      }
      chain, lens := [p], [p.len];
      var r := p;
      var rem: nat := length - p.len;
      while rem > 0
        invariant Building(chain, lens, bufsize, length, rem) && p == chain[0] && r == chain[|chain| - 1]
        invariant forall i | 0 <= i < |chain| :: fresh(chain[i])
        invariant forall i | 0 <= i < |chain| :: fresh(chain[i].payload)
        invariant free == old(free) - |chain|
      {
        var n := if rem <= bufsize then rem else bufsize;
        var q := GrowOrFree(r, n, chain, lens, p, length, rem);
        if q == null {
          return null, [], [];
        }
        chain, lens := chain + [q], lens + [n];
        rem := rem - n;
        r := q;
      }
    }

    /** `pbuf_free`: drops one reference from each pbuf up to the first that is still referenced, and
      * gives the unreferenced ones back to the pool. */
    method Free(p: PacketBuffer?, ghost chain: seq<PacketBuffer>) returns (count: nat)
      requires p == Head(chain) && IsChain(chain) && forall i | 0 <= i < |chain| :: 0 < chain[i].ref
      modifies this, chain
      ensures count <= |chain| && free == old(free) + count
      ensures forall i | 0 <= i < count :: old(chain[i].ref) == 1
      ensures count < |chain| ==> old(chain[count].ref) > 1 && chain[count].ref == old(chain[count].ref) - 1
      ensures old(Unshared(chain)) ==> count == |chain|
      ensures forall i | count < i < |chain| :: chain[i].ref == old(chain[i].ref)
    {
      var q := p;
      count := 0;
      ghost var reached := 0;
      while q != null
        invariant count <= reached <= |chain| && IsChain(chain) && free == old(free) + count
        invariant q != null ==> reached == count < |chain| && q == chain[count]
        invariant q == null && count < |chain| ==> reached == count + 1
        invariant q == null && count < |chain| ==>
            old(chain[count].ref) > 1 && chain[count].ref == old(chain[count].ref) - 1
        invariant forall i | 0 <= i < count :: old(chain[i].ref) == 1
        invariant forall i | reached <= i < |chain| :: chain[i].ref == old(chain[i].ref)
        decreases if q == null then 0 else 1, |chain| - count
      {
        Drop(q, chain, count);
        reached := reached + 1;
        if q.ref == 0 {
          free := free + 1;
          count := count + 1;
          q := q.next;
        } else {
          q := null;
        }
      }
    }
  }
}
