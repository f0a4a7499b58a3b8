/** The cyclic descriptor chain, and the frames it carries.
  * `ETH_DMARxDescChainInit` and `ETH_DMATxDescChainInit` link descriptor i to i + 1 and the last one to
  * the first; both the CPU cursor and the DMA cursor move only by following that link.
  */
module Chain {
  import opened Words

  type Frame = seq<Byte>

  const CRC_BYTES: nat := 4  // what reception adds to a frame
  const TBS1: nat := 0x2000  // the transmit size field keeps a length modulo this

  /** The buffers after a write of one byte. */
  function PutByte(buf: seq<seq<Byte>>, i: nat, l: nat, b: Byte): seq<seq<Byte>>
    requires i < |buf| && l < |buf[i]|
  {
    buf[i := buf[i][l := b]]
  }

  /** The descriptor that the "next descriptor" address of descriptor `i` points at. */
  function Next(n: nat, i: nat): (j: nat)
    requires i < n
    ensures j < n
  {
    if i + 1 < n then i + 1 else 0
  }

  /** The descriptor `d` places further along the chain than `i`. */
  function At(n: nat, i: nat, d: nat): (j: nat)
    requires i < n && d <= n
    ensures j < n
  {
    if i + d < n then i + d else i + d - n
  }

  /** Following the chain `d` times, one link at a time. */
  function Follow(n: nat, i: nat, d: nat): (j: nat)
    requires i < n
    ensures j < n
  {
    if d == 0 then i else Next(n, Follow(n, i, d - 1))
  }

  /** Following the link `d` times lands `d` places further round, however often that goes round. */
  lemma {:induction false} FollowIsModulo(n: nat, i: nat, d: nat)
    requires i < n
    ensures Follow(n, i, d) == (i + d) % n
  {
    if d == 0 {
    } else {
      FollowIsModulo(n, i, d - 1);
      NextIsModulo(n, i + d - 1);
    }
  }

  lemma NextIsModulo(n: nat, x: nat)
    requires 0 < n
    ensures Next(n, x % n) == (x + 1) % n
  {
    var q, r := x / n, x % n;
    if r + 1 < n {
      Remainder(x + 1, n, q, r + 1);
    } else {
      Remainder(x + 1, n, q + 1, 0);
    }
  }

  lemma Remainder(x: int, n: int, q: int, r: int)
    requires 0 <= r < n && x == n * q + r
    ensures x % n == r
  {
    var k := x / n;
    assert n * (q - k) == x % n - r;
    assert q - k >= 1 ==> n * (q - k) >= n;
    assert q - k <= -1 ==> n * (q - k) <= -n;
  }

  /** Within one turn that is `At`; after `n` times it is the start. */
  lemma {:induction false} FollowIsAt(n: nat, i: nat, d: nat)
    requires i < n && d <= n
    ensures Follow(n, i, d) == At(n, i, d)
  {
    if d == 0 {
    } else {
      FollowIsAt(n, i, d - 1);
    }
  }

  /** Seen from the next descriptor everything is one place nearer. */
  lemma AtNext(n: nat, i: nat)
    requires i < n
    ensures forall d: nat | d < n :: At(n, Next(n, i), d) == At(n, i, d + 1)
    ensures At(n, Next(n, i), n) == Next(n, i)
  {
  }

  /** Every descriptor is exactly one number of places, less than `n`, away. */
  function Distance(n: nat, i: nat, j: nat): (d: nat)
    requires i < n && j < n
    ensures d < n && At(n, i, d) == j
    ensures forall e: nat | e < n && At(n, i, e) == j :: e == d
  {
    if i <= j then j - i else j + n - i
  }
}
