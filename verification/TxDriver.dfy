/** The transmit side of the Ethernet port as the CPU executes it, with the DMA quiet. `TxProtocol` adds
  * the DMA.
  */
module TxDriver {
  import opened Chain
  import opened Pbuf
  import opened Words

  /** A transmit descriptor: the status bits the driver uses, ControlBufferSize, Buffer2NextDescAddr. */
  datatype Descriptor = Descriptor(own: bool, ls: bool, fs: bool, tch: bool, size: nat, next: nat)

  /** The driver has one result, whether or not the frame was taken. */
  datatype Err = ERR_OK

  /** A pending frame after another was copied over its buffer: the length stays. */
  function Overwritten(pending: Frame, f: Frame): (r: Frame)
    ensures |r| == |pending|
  {
    if |f| <= |pending| then f + pending[|f|..] else f[..|pending|]
  }

  /** The damage is exactly the bytes in which the two differ. */
  lemma OverwrittenUnharmed(pending: Frame, f: Frame)
    ensures Overwritten(pending, f) == pending <==> forall i | 0 <= i < |pending| && i < |f| :: pending[i] == f[i]
  {
    var r := Overwritten(pending, f);
    assert forall i | 0 <= i < |pending| :: r[i] == if i < |f| then f[i] else pending[i];
  }

  /** The frames pending after `low_level_output(f)`: one more, if one of the `n` descriptors is free;
    * otherwise as many as before, the oldest of them overwritten. */
  function Output(pending: seq<Frame>, f: Frame, n: nat): seq<Frame>
    requires 0 < n
  {
    if |pending| < n then pending + [f] else pending[0 := Overwritten(pending[0], f)]
  }

  /** A burst of calls while the DMA is quiet. */
  function Burst(pending: seq<Frame>, frames: seq<Frame>, n: nat): seq<Frame>
    requires 0 < n
    decreases |frames|
  {
    if frames == [] then pending
    else Output(Burst(pending, frames[..|frames| - 1], n), frames[|frames| - 1], n)
  }

  /** A burst arrives untouched and in order when there is room for all of it. */
  lemma {:induction false} BurstFits(pending: seq<Frame>, frames: seq<Frame>, n: nat)
    requires 0 < n && |pending| + |frames| <= n
    ensures Burst(pending, frames, n) == pending + frames
  {
    if frames == [] {
    } else {
      BurstFits(pending, frames[..|frames| - 1], n);
      assert frames == frames[..|frames| - 1] + [frames[|frames| - 1]];
    }
  }

  /** A pending frame after several others were copied over its buffer, one after the other. */
  function OverwrittenAll(pending: Frame, frames: seq<Frame>): (r: Frame)
    ensures |r| == |pending|
    decreases |frames|
  {
    if frames == [] then pending
    else Overwritten(OverwrittenAll(pending, frames[..|frames| - 1]), frames[|frames| - 1])
  }

  /** A longer burst leaves the ring full: of all frames, pending ones first, the first n, in order; and every
    * one of the others has been copied over the first. */
  lemma {:induction false} BurstOverflows(pending: seq<Frame>, frames: seq<Frame>, n: nat)
    requires 0 < n && |pending| <= n <= |pending| + |frames|
    ensures var all := pending + frames;
      Burst(pending, frames, n) == [OverwrittenAll(all[0], all[n..])] + all[1..n]
  {
    var all := pending + frames;
    if |all| == n {
      BurstFits(pending, frames, n);
      assert all[n..] == [];
    } else {
      var front := frames[..|frames| - 1];
      BurstOverflows(pending, front, n);
      assert pending + front == all[..|all| - 1];
      assert all[..|all| - 1][1..n] == all[1..n];
      assert all[n..][..|all| - n - 1] == all[..|all| - 1][n..];
      assert all[n..][|all| - n - 1] == frames[|frames| - 1];
    }
  }

  /** What the oldest frame ends with: each byte is that of the last later frame long enough to reach it. */
  lemma {:induction false} OverwrittenByte(pending: Frame, frames: seq<Frame>, i: nat)
    requires i < |pending|
    ensures (forall g | g in frames :: |g| <= i) ==> OverwrittenAll(pending, frames)[i] == pending[i]
    ensures forall j | 0 <= j < |frames| && i < |frames[j]| && (forall k | j < k < |frames| :: |frames[k]| <= i) ::
        OverwrittenAll(pending, frames)[i] == frames[j][i]
  {
    if frames == [] {
    } else {
      var front, last := frames[..|frames| - 1], frames[|frames| - 1];
      OverwrittenByte(pending, front, i);
      assert OverwrittenAll(pending, frames)[i] == if i < |last| then last[i] else OverwrittenAll(pending, front)[i];
    }
  }

  /** The descriptors after number `i` was handed to the DMA with a frame of `length` bytes. */
  function HandedOver(desc: seq<Descriptor>, i: nat, length: nat): seq<Descriptor>
    requires i < |desc|
  {
    desc[i := desc[i].(own := true, ls := true, fs := true, size := length % TBS1)]
  }

  class TxRing {
    const n: nat
    const cap: nat
    const desc: array<Descriptor>
    const buf: seq<array<Byte>>
    var toSet: nat    // DMATxDescToSet
    var tbus: bool    // transmit buffer unavailable
    var asleep: bool  // the DMA is suspended

    ghost predicate Valid()
      reads this, desc
    {
      && 0 < n && cap < TBS1 && desc.Length == |buf| == n && toSet < n
      && (forall i | 0 <= i < n :: buf[i].Length == cap && desc[i].next == Next(n, i) && desc[i].tch)
      && (forall i, j | 0 <= i < j < n :: buf[i] != buf[j])
      && (forall b | b in buf :: b as object != desc)
    }

    /** What stands `d` places from `head`: frame `pending[d]`, handed to the DMA in one segment, or a
      * descriptor of the CPU's. */
    ghost predicate Slot(head: nat, pending: seq<Frame>, d: nat)
      requires head < n == |buf| == desc.Length && d < n
      reads desc, buf
    {
      var i := At(n, head, d);
      if d < |pending| then
        && desc[i].own && desc[i].fs && desc[i].ls
        && desc[i].size == |pending[d]| <= buf[i].Length && buf[i][..desc[i].size] == pending[d]
      else
        !desc[i].own
    }

    /** The DMA has `pending` to send, beginning at `head`; the CPU cursor stands behind them. */
    ghost predicate Pending(head: nat, pending: seq<Frame>)
      reads this, desc, buf
    {
      && Valid() && head < n && |pending| <= n && toSet == At(n, head, |pending|)
      && forall d: nat | d < n :: Slot(head, pending, d)
    }

    /** `ETH_DMATxDescChainInit`. */
    constructor (n: nat, cap: nat, buf: seq<array<Byte>>)
      requires 0 < n == |buf| && cap < TBS1
      requires forall i | 0 <= i < n :: buf[i].Length == cap
      requires forall i, j | 0 <= i < j < n :: buf[i] != buf[j]
      ensures this.n == n && this.cap == cap && this.buf == buf && fresh(desc)
      ensures Pending(0, []) && !tbus && !asleep
    {
      this.n, this.cap, this.buf := n, cap, buf;
      desc := new Descriptor[n];
      toSet, tbus, asleep := 0, false, false;
      new;
      for i := 0 to n
        invariant toSet == 0 && !tbus && !asleep
        invariant forall j | 0 <= j < i :: !desc[j].own && desc[j].tch && desc[j].next == Next(n, j)
      {
        desc[i] := Descriptor(false, false, false, true, 0, 0);
        if i < n - 1 {
          desc[i] := desc[i].(next := i + 1);
        } else {
          desc[i] := desc[i].(next := 0);
        }
      }
    }

    /** The loop of `low_level_output`, into the buffer that `ETH_GetCurrentTxBuffer` names. */
    method FillHead(p: PacketBuffer?, ghost chain: seq<PacketBuffer>, ghost parts: seq<seq<Byte>>) returns (l: nat)
      requires Valid()
      requires IsChain(chain) && p == Head(chain) && Holds(chain, parts) && |Flat(parts)| <= cap
      requires forall b | b in buf :: b !in Payloads(chain)
      modifies buf[toSet]
      ensures l == |Flat(parts)| && buf[toSet][..] == Flat(parts) + old(buf[toSet][..])[l..]
      ensures forall i | 0 <= i < n && i != toSet :: buf[i][..] == old(buf[i][..])
      ensures forall i | 0 <= i < n :: desc[i] == old(desc[i])
    {
      var buffer := buf[toSet];
      assert buffer in buf;
      l := Gather(p, buffer, chain, parts);
    }

    /** `ETH_TxPkt_ChainMode`. A refused call writes nothing at all. */
    method TxPktChainMode(length: nat) returns (success: bool)
      requires Valid() && length < U16
      modifies this`toSet, this`tbus, this`asleep, desc
      ensures Valid() && forall i | 0 <= i < n :: buf[i][..] == old(buf[i][..])
      ensures success <==> !old(desc[toSet].own)
      ensures !success ==>
          desc[..] == old(desc[..]) && toSet == old(toSet) && tbus == old(tbus) && asleep == old(asleep)
      ensures success ==>
          && desc[..] == old(desc[..])[old(toSet) :=
                old(desc[toSet]).(own := true, ls := true, fs := true, size := length % 0x2000)]
          && toSet == Next(n, old(toSet)) && !tbus && asleep == (old(asleep) && !old(tbus))
    {
      if desc[toSet].own {
        return false;
      }
      desc[toSet] := desc[toSet].(size := length % TBS1);
      desc[toSet] := desc[toSet].(ls := true, fs := true);
      desc[toSet] := desc[toSet].(own := true);
      if tbus {
        tbus := false;
        asleep := false;
      }
      toSet := desc[toSet].next;
      success := true;
      forall i | 0 <= i < n
        ensures buf[i][..] == old(buf[i][..])
      {
        assert buf[i] in buf;
      }
    }

    /** What the gathering alone does to the pending frames: with the ring full, the oldest loses bytes. */
    method FillPending(p: PacketBuffer?, ghost chain: seq<PacketBuffer>, ghost parts: seq<seq<Byte>>,
                       ghost head: nat, ghost pending: seq<Frame>)
      returns (l: nat)
      requires Pending(head, pending)
      requires IsChain(chain) && p == Head(chain) && Holds(chain, parts) && |Flat(parts)| <= cap
      requires forall b | b in buf :: b !in Payloads(chain)
      modifies buf[toSet]
      ensures Pending(head, if |pending| < n then pending else pending[0 := Overwritten(pending[0], Flat(parts))])
      ensures l == |Flat(parts)| && buf[toSet][..] == Flat(parts) + old(buf[toSet][..])[l..]
      ensures forall i | 0 <= i < n && i != toSet :: buf[i][..] == old(buf[i][..])
      ensures desc[..] == old(desc[..])
    {
      assert |pending| == n ==> Slot(head, pending, 0);
      l := FillHead(p, chain, parts);
      ghost var now := if |pending| < n then pending else pending[0 := Overwritten(pending[0], Flat(parts))];
      forall d: nat | d < n
        ensures Slot(head, now, d)
      {
        assert old(Slot(head, pending, d));
        ghost var i := At(n, head, d);
        if i == toSet {
          assert d < |now| ==> d == 0 && buf[i][..|now[0]|] == now[0];
        } else {
          assert buf[i][..] == old(buf[i][..]);
          assert d < |now| ==> buf[i][..|now[d]|] == old(buf[i][..])[..|now[d]|];
        }
      }
    }

    /** `ETH_TxPkt_ChainMode` on the ring as a queue. */
    method HandOver(l: nat, ghost f: Frame, ghost head: nat, ghost pending: seq<Frame>) returns (success: bool)
      requires Pending(head, pending) && l == |f| <= cap && buf[toSet][..l] == f
      modifies this`toSet, this`tbus, this`asleep, desc
      ensures Pending(head, if |pending| < n then pending + [f] else pending)
      ensures success <==> |pending| < n
      ensures desc[..] == if success then HandedOver(old(desc[..]), old(toSet), l) else old(desc[..])
      ensures forall i | 0 <= i < n :: buf[i][..] == old(buf[i][..])
      ensures toSet == if success then Next(n, old(toSet)) else old(toSet)
      ensures tbus == (old(tbus) && !success) && asleep == (old(asleep) && !(old(tbus) && success))
    {
      assert if |pending| < n then Slot(head, pending, |pending|) else Slot(head, pending, 0);
      success := TxPktChainMode(l % U16);
      ghost var now := if |pending| < n then pending + [f] else pending;
      forall d: nat | d < n
        ensures Slot(head, now, d)
      {
        assert old(Slot(head, pending, d));
        ghost var i := At(n, head, d);
        assert buf[i][..] == old(buf[i][..]);
        if success && i == old(toSet) {
          assert d == |pending| && buf[i][..|f|] == f;
        } else {
          assert desc[i] == old(desc[i]);
          assert d < |now| ==> buf[i][..|now[d]|] == old(buf[i][..])[..|now[d]|];
        }
      }
    }

    /** `low_level_output`. The pbuf chain is gathered into the head descriptor's buffer before anyone
      * asks whose it is; the result is ERR_OK whatever became of the frame. */
    method LowLevelOutput(p: PacketBuffer?, ghost chain: seq<PacketBuffer>, ghost parts: seq<seq<Byte>>,
                          ghost head: nat, ghost pending: seq<Frame>)
      returns (err: Err)
      requires Pending(head, pending)
      requires IsChain(chain) && p == Head(chain) && Holds(chain, parts) && |Flat(parts)| <= cap
      requires forall b | b in buf :: b !in Payloads(chain)
      modifies this`toSet, this`tbus, this`asleep, desc, buf[toSet]
      ensures Pending(head, Output(pending, Flat(parts), n))
      ensures buf[old(toSet)][..] == Flat(parts) + old(buf[toSet][..])[|Flat(parts)|..]
      ensures forall i | 0 <= i < n && i != old(toSet) :: buf[i][..] == old(buf[i][..])
      ensures desc[..] ==
        if |pending| < n then HandedOver(old(desc[..]), old(toSet), |Flat(parts)|) else old(desc[..])
      ensures toSet == if |pending| < n then Next(n, old(toSet)) else old(toSet)
      ensures tbus == (old(tbus) && |pending| == n)
      ensures asleep == (old(asleep) && !(old(tbus) && |pending| < n))
    {
      ghost var before := if |pending| < n then pending else pending[0 := Overwritten(pending[0], Flat(parts))];
      var l := FillPending(p, chain, parts, head, pending);
      var success := HandOver(l, Flat(parts), head, before);
      err := ERR_OK;
    }
  }
}
