/** The receive side of the Ethernet port as the CPU executes it, with the DMA quiet: status words,
  * cursor and flags are updated in place. `RxProtocol` says why the DMA may as well be active.
  */
module RxDriver {
  import opened Chain
  import opened Pbuf
  import opened Words

  datatype Option<T> = None | Some(value: T)

  /** `FrameTypeDef`; buffers are named by the descriptor they belong to. */
  datatype FrameInfo = FrameInfo(length: nat, buffer: Option<nat>, descriptor: Option<nat>)

  /** The fields of a receive descriptor's status word that the driver reads. */
  datatype Status = Status(own: bool, es: bool, fs: bool, ls: bool, fl: nat)

  /** `ETH_DMARxDesc_OWN`: the word the driver writes to give a descriptor back. */
  const OWN := Status(true, false, false, false, 0)

  /** A whole frame without errors in one descriptor. */
  predicate Intact(status: Status) { !status.es && status.ls && status.fs }

  /** What waits in a descriptor of the CPU's. */
  datatype Entry = Whole(frame: Frame) | Damaged

  ghost predicate Stored(status: Status, bytes: seq<Byte>, e: Entry) {
    && !status.own
    && match e
       case Damaged => !Intact(status)
       case Whole(f) =>
         Intact(status) && status.fl == |f| + CRC_BYTES <= |bytes| && f == bytes[..|f|]
  }

  // ---------------------------------------------------------------- the drain loop as a function

  /** What `low_level_input` hands on: of a damaged frame, an empty packet. */
  function Bytes(e: Entry): Frame { if e.Whole? then e.frame else [] }

  /** What `netif->input` answers, and how many pbufs the stack gives back to the pool meanwhile. */
  datatype Answer = Answer(ok: bool, back: nat)

  /** What becomes of one received frame. */
  datatype Handled = NoMemory | Refused(frame: Frame) | Accepted(frame: Frame)

  function Handle(f: Frame, answer: Answer, free: nat, bufsize: nat): Handled
    requires 0 < bufsize
  {
    if free < Needed(|f|, bufsize) then NoMemory else if answer.ok then Accepted(f) else Refused(f)
  }

  /** Free pbufs afterwards: only those of an accepted packet stay out. */
  function FreeAfter(f: Frame, answer: Answer, free: nat, bufsize: nat): nat
    requires 0 < bufsize
  {
    match Handle(f, answer, free, bufsize)
    case NoMemory => free
    case Refused(_) => free + answer.back
    case Accepted(_) => free - Needed(|f|, bufsize) + answer.back
  }

  datatype Drained = Drained(log: seq<Handled>, free: nat)

  /** The first `k` waiting frames handled one after the other; `answer(i)` is given to the i-th. */
  function Drain(queue: seq<Entry>, answer: nat -> Answer, k: nat, free: nat, bufsize: nat): (r: Drained)
    requires 0 < bufsize && k <= |queue|
    ensures |r.log| == k
  {
    if k == 0 then Drained([], free)
    else
      var r := Drain(queue, answer, k - 1, free, bufsize);
      var f := Bytes(queue[k - 1]);
      Drained(r.log + [Handle(f, answer(k - 1), r.free, bufsize)], FreeAfter(f, answer(k - 1), r.free, bufsize))
  }

  /** What the drain loop finds: status words, free pbufs, the counter, and the two flags. */
  datatype Before = Before(status: seq<Status>, free: nat, count: nat, rbus: bool, asleep: bool)

  /** The guard of the drain loop holds for so many frames: up to the first damaged one. */
  function Good(queue: seq<Entry>): (k: nat)
    ensures k <= |queue|
    ensures forall i | 0 <= i < k :: queue[i].Whole?
    ensures k < |queue| ==> queue[k].Damaged?
  {
    if queue == [] || queue[0].Damaged? then 0 else 1 + Good(queue[1..])
  }

  /** Pbufs that go to the stack with one frame, and pbufs it gives back meanwhile. */
  function KeptOf(h: Handled, bufsize: nat): nat
    requires 0 < bufsize
  {
    if h.Accepted? then Needed(|h.frame|, bufsize) else 0
  }

  function BackOf(h: Handled, answer: Answer): nat { if h.NoMemory? then 0 else answer.back }

  /** Pbufs that went to the stack with the packets of `log`. */
  function Kept(log: seq<Handled>, bufsize: nat): nat
    requires 0 < bufsize
    decreases |log|
  {
    if log == [] then 0 else Kept(log[..|log| - 1], bufsize) + KeptOf(log[|log| - 1], bufsize)
  }

  /** Pbufs the stack gave back while the packets of `log` were handed to it. */
  function Back(log: seq<Handled>, answer: nat -> Answer): nat
    decreases |log|
  {
    if log == [] then 0 else Back(log[..|log| - 1], answer) + BackOf(log[|log| - 1], answer(|log| - 1))
  }

  lemma HandleConserves(f: Frame, answer: Answer, free: nat, bufsize: nat)
    requires 0 < bufsize
    ensures var h := Handle(f, answer, free, bufsize);
      FreeAfter(f, answer, free, bufsize) + KeptOf(h, bufsize) == free + BackOf(h, answer)
  {
  }

  lemma KeptAndBackOfOneMore(log: seq<Handled>, h: Handled, answer: nat -> Answer, bufsize: nat)
    requires 0 < bufsize
    ensures Kept(log + [h], bufsize) == Kept(log, bufsize) + KeptOf(h, bufsize)
    ensures Back(log + [h], answer) == Back(log, answer) + BackOf(h, answer(|log|))
  {
    assert (log + [h])[..|log|] == log;
  }

  lemma {:induction false} DrainBalances(queue: seq<Entry>, answer: nat -> Answer, k: nat, free: nat, bufsize: nat)
    requires 0 < bufsize && k <= |queue|
    ensures var r := Drain(queue, answer, k, free, bufsize);
      r.free + Kept(r.log, bufsize) == free + Back(r.log, answer)
  {
    if k == 0 {
    } else {
      DrainBalances(queue, answer, k - 1, free, bufsize);
      var r, f := Drain(queue, answer, k - 1, free, bufsize), Bytes(queue[k - 1]);
      HandleConserves(f, answer(k - 1), r.free, bufsize);
      KeptAndBackOfOneMore(r.log, Handle(f, answer(k - 1), r.free, bufsize), answer, bufsize);
    }
  }

  lemma {:induction false} DrainLogs(queue: seq<Entry>, answer: nat -> Answer, k: nat, free: nat, bufsize: nat, i: nat)
    requires 0 < bufsize && i < k <= |queue|
    ensures var h := Drain(queue, answer, k, free, bufsize).log[i];
      && (h.NoMemory? || h == Accepted(Bytes(queue[i])) || h == Refused(Bytes(queue[i])))
      && (h.NoMemory? || (h.Accepted? <==> answer(i).ok))
  {
    if i == k - 1 {
    } else {
      DrainLogs(queue, answer, k - 1, free, bufsize, i);
    }
  }

  /** Conservation. Each frame is handled once and in order, and every pbuf taken for it either went
    * to the stack with an accepted packet or was freed: the pool ends with what it held, less what
    * the stack keeps, plus what the stack gave back. */
  lemma {:induction false} DrainConserves(queue: seq<Entry>, answer: nat -> Answer, k: nat, free: nat, bufsize: nat)
    requires 0 < bufsize && k <= |queue|
    ensures var r := Drain(queue, answer, k, free, bufsize);
      && r.free + Kept(r.log, bufsize) == free + Back(r.log, answer)
      && forall i | 0 <= i < k ::
           && (r.log[i].NoMemory? || r.log[i] == Accepted(Bytes(queue[i])) || r.log[i] == Refused(Bytes(queue[i])))
           && (r.log[i].NoMemory? || (r.log[i].Accepted? <==> answer(i).ok))
  {
    DrainBalances(queue, answer, k, free, bufsize);
    forall i: nat | i < k {
      DrainLogs(queue, answer, k, free, bufsize, i);
    }
  }

  /** With one pbuf per frame, a stack that accepts and keeps everything gets the first `free` frames. */
  lemma {:induction false} FirstComeFirstServed(queue: seq<Entry>, answer: nat -> Answer, k: nat, free: nat,
                                                  bufsize: nat)
    requires 0 < bufsize && k <= |queue|
    requires forall i | 0 <= i < k :: |Bytes(queue[i])| <= bufsize
    requires forall i: nat | i < k :: answer(i) == Answer(true, 0)
    ensures var r := Drain(queue, answer, k, free, bufsize);
      && r.free == (if k < free then free - k else 0)
      && forall i | 0 <= i < k :: r.log[i] == if i < free then Accepted(Bytes(queue[i])) else NoMemory
  {
    if k == 0 {
    } else {
      FirstComeFirstServed(queue, answer, k - 1, free, bufsize);
    }
  }

  // ---------------------------------------------------------------- the ring in memory

  /** An unshared chain whose pbufs hold the bytes of `f`. */
  ghost predicate IsPacket(p: PacketBuffer?, chain: seq<PacketBuffer>, parts: seq<seq<Byte>>, f: Frame)
    reads chain, Payloads(chain)
  {
    p == Head(chain) && IsChain(chain) && Unshared(chain) && Pbuf.Holds(chain, parts) && Flat(parts) == f
  }

  /** The status words after `k` descriptors from `head` on were given back. */
  function Returned(status: seq<Status>, head: nat, k: nat): (r: seq<Status>)
    requires head < |status| && k <= |status|
    ensures |r| == |status|
  {
    if k == 0 then status else Returned(status, head, k - 1)[At(|status|, head, k - 1) := OWN]
  }

  class RxRing {
    const n: nat
    const cap: nat
    const status: array<Status>
    var next: seq<nat>     // Buffer2NextDescAddr
    const buf: seq<array<Byte>>
    var get: nat           // DMARxDescToGet
    var rbus: bool         // receive buffer unavailable
    var pending: bool      // the receive interrupt bits of DMASR
    var asleep: bool       // the DMA is suspended
    var handledCount: nat  // s_count of netconf.c

    ghost predicate Valid()
      reads this
    {
      && 0 < n && cap < U16
      && status.Length == |next| == |buf| == n
      && (forall i | 0 <= i < n :: buf[i].Length == cap && next[i] == Next(n, i))
      && get < n
      && forall b | b in buf :: b as object != status
    }

    /** What the ring holds at `d` places from `head`: the first `k` frames of `queue` have been handled
      * and their descriptors given back, the rest wait, and further on everything is the DMA's. */
    ghost predicate Slot(head: nat, queue: seq<Entry>, k: nat, d: nat)
      requires head < n == |buf| == status.Length && d < n
      reads status, buf
    {
      var i := At(n, head, d);
      if k <= d < |queue| then Stored(status[i], buf[i][..], queue[d]) else status[i].own
    }

    ghost predicate Waiting(head: nat, queue: seq<Entry>, k: nat)
      reads this, status, buf
    {
      && Valid() && head < n && k <= |queue| <= n
      && get == At(n, head, k)
      && forall d: nat | d < n :: Slot(head, queue, k, d)
    }

    /** `ETH_DMARxDescChainInit`. */
    constructor (n: nat, cap: nat, buf: seq<array<Byte>>)
      requires 0 < n == |buf| && cap < U16
      requires forall i | 0 <= i < n :: buf[i].Length == cap
      ensures this.n == n && this.cap == cap && this.buf == buf && get == 0
      ensures fresh(status) && Waiting(0, [], 0)
      ensures !asleep && !rbus && handledCount == 0
    {
      this.n, this.cap, this.buf := n, cap, buf;
      status := new Status[n];
      next, get, rbus, asleep, pending, handledCount := [], 0, false, false, false, 0;
      new;
      for i := 0 to n
        invariant |next| == i && forall j | 0 <= j < i :: status[j] == OWN && next[j] == Next(n, j)
        invariant get == 0 && !asleep && !rbus && handledCount == 0
      {
        status[i] := OWN;
        if i < n - 1 {
          next := next + [i + 1];
        } else {
          next := next + [0];
        }
      }
    }

    /** The flag test, the write that clears RBUS (one clears), and the poll demand. */
    method Wake()
      modifies this`rbus, this`asleep
      ensures !rbus
      ensures asleep == (old(asleep) && !old(rbus))
    {
      if rbus {
        rbus := false;
        asleep := false;
      }
    }

    /** `ETH_GetRxPktSize`. */
    method GetRxPktSize() returns (size: nat)
      requires Valid()
      ensures var w := status[get]; size == if !w.own && !w.es && w.ls && w.fs then w.fl else 0
    {
      size := 0;
      if !status[get].own && Intact(status[get]) {
        size := status[get].fl;
      }
    }

    /** The guard of the drain loop: the next frame waits and is not damaged. */
    method Peek(ghost head: nat, ghost queue: seq<Entry>, ghost k: nat) returns (size: nat)
      requires Waiting(head, queue, k) && k <= Good(queue)
      ensures size != 0 <==> k < Good(queue)
    {
      size := GetRxPktSize();
      assert k < n ==> Slot(head, queue, k, k);
      assert Slot(head, queue, k, 0);
    }

    /** `ETH_RxPkt_ChainMode`. With the head still owned by the DMA it returns no descriptor. */
    method RxPktChainMode() returns (frame: FrameInfo)
      requires Valid()
      modifies this`get, this`rbus, this`asleep
      ensures var i, w := old(get), status[old(get)];
        if w.own then
          && frame == FrameInfo(0, None, None) && get == i
          && !rbus && asleep == (old(asleep) && !old(rbus))
        else
          && get == Next(n, i) && rbus == old(rbus) && asleep == old(asleep)
          && frame ==
               if !w.es && w.ls && w.fs then FrameInfo((w.fl - 4) % 0x1_0000_0000, Some(i), Some(i))
               else FrameInfo(0, None, Some(i))
    {
      if status[get].own {
        frame := FrameInfo(0, None, None);
        Wake();
        return;
      }
      if Intact(status[get]) {
        frame := FrameInfo((status[get].fl - CRC_BYTES) % U32, Some(get), Some(get));
      } else {
        frame := FrameInfo(0, None, Some(get));
      }
      get := next[get];
    }

    /** The start of `low_level_input`, with the head the CPU's. */
    method TakeHead(ghost e: Entry) returns (len: nat, source: Option<array<Byte>>, d: nat)
      requires Valid() && Stored(status[get], buf[get][..], e)
      modifies this`get, this`rbus, this`asleep
      ensures get == Next(n, old(get)) && rbus == old(rbus) && asleep == old(asleep)
      ensures d == old(get) && len == |Bytes(e)|
      ensures source == if e.Whole? then Some(buf[d]) else None
    {
      var frame := RxPktChainMode();
      len := frame.length % U16;
      source := if frame.buffer.Some? then Some(buf[frame.buffer.value]) else None;
      d := frame.descriptor.value;
    }

    /** The end of `low_level_input`: the descriptor taken out last goes back to the DMA. */
    method GiveBack(d: nat, ghost head: nat, ghost queue: seq<Entry>, ghost k: nat)
      requires Valid() && head < n && k < |queue| <= n && d == At(n, head, k) && get == At(n, head, k + 1)
      requires forall e: nat | e < n :: Slot(head, queue, k, e)
      modifies this`rbus, this`asleep, status
      ensures Waiting(head, queue, k + 1) && status[..] == old(status[..])[d := OWN]
      ensures !rbus && asleep == (old(asleep) && !old(rbus))
    {
      status[d] := OWN;
      Wake();
      ghost var k1 := k + 1;
      forall e: nat | e < n
        ensures Slot(head, queue, k1, e)
      {
        assert old(Slot(head, queue, k, e)) && buf[At(n, head, e)] in buf;
        assert buf[At(n, head, e)][..] == old(buf[At(n, head, e)][..]);
        assert e != k ==> status[At(n, head, e)] == old(status[At(n, head, e)]);
      }
      assert Valid();
    }

    /** `low_level_input` up to the release: the frame under the cursor stands in a fresh chain, if there was
      * memory for one, and the ring's memory is as before. */
    method Fetch(pool: Pool, ghost head: nat, ghost queue: seq<Entry>, ghost k: nat)
      returns (d: nat, p: PacketBuffer?, ghost chain: seq<PacketBuffer>, ghost parts: seq<seq<Byte>>)
      requires Waiting(head, queue, k) && k < |queue| && 0 < pool.bufsize
      modifies this`get, this`rbus, this`asleep, pool
      ensures Valid() && d == old(get) == At(n, head, k) && get == At(n, head, k + 1)
      ensures forall e: nat | e < n :: Slot(head, queue, k, e)
      ensures rbus == old(rbus) && asleep == old(asleep)
      ensures p == null <==> old(pool.free) < Needed(|Bytes(queue[k])|, pool.bufsize)
      ensures p == null ==> pool.free == old(pool.free)
      ensures p != null ==>
          && pool.free == old(pool.free) - |chain| && |chain| == Needed(|Bytes(queue[k])|, pool.bufsize)
          && IsPacket(p, chain, parts, Bytes(queue[k]))
      ensures forall i | 0 <= i < |chain| :: fresh(chain[i]) && fresh(chain[i].payload)
    {
      assert Slot(head, queue, k, k);
      var len, source;
      len, source, d := TakeHead(queue[k]);
      p, chain, parts := Receive(pool, len, source);
    }

    /** The release leaves a packet outside the ring alone. */
    method GiveBackBeside(d: nat, ghost head: nat, ghost queue: seq<Entry>, ghost k: nat,
                          ghost p: PacketBuffer?, ghost chain: seq<PacketBuffer>, ghost parts: seq<seq<Byte>>)
      requires Valid() && head < n && k < |queue| <= n && d == At(n, head, k) && get == At(n, head, k + 1)
      requires forall e: nat | e < n :: Slot(head, queue, k, e)
      requires p != null ==> IsPacket(p, chain, parts, Bytes(queue[k]))
      requires forall i | 0 <= i < |chain| :: chain[i].payload as object != status
      modifies this`rbus, this`asleep, status
      ensures Waiting(head, queue, k + 1) && status[..] == old(status[..])[d := OWN]
      ensures !rbus && asleep == (old(asleep) && !old(rbus))
      ensures p != null ==> IsPacket(p, chain, parts, Bytes(queue[k]))
    {
      GiveBack(d, head, queue, k);
    }

    /** `low_level_input`, called as the drain loop calls it: with the head the CPU's. The oldest frame
      * leaves the ring and its descriptor goes back to the DMA, whether or not there was memory. */
    method LowLevelInput(pool: Pool, ghost head: nat, ghost queue: seq<Entry>, ghost k: nat)
      returns (p: PacketBuffer?, ghost chain: seq<PacketBuffer>, ghost parts: seq<seq<Byte>>)
      requires Waiting(head, queue, k) && k < |queue| && 0 < pool.bufsize
      modifies this`get, this`rbus, this`asleep, status, pool
      ensures Waiting(head, queue, k + 1)
      ensures status[..] == old(status[..])[old(get) := Status(true, false, false, false, 0)]
      ensures !rbus && asleep == (old(asleep) && !old(rbus))
      ensures p == null <==> old(pool.free) < Needed(|Bytes(queue[k])|, pool.bufsize)
      ensures p == null ==> pool.free == old(pool.free)
      ensures p != null ==>
          && pool.free == old(pool.free) - |chain| && |chain| == Needed(|Bytes(queue[k])|, pool.bufsize)
          && IsPacket(p, chain, parts, Bytes(queue[k]))
      ensures var i, w := old(get), old(status[get]);
        p != null && !w.es && w.ls && w.fs ==>
          4 <= w.fl <= buf[i].Length && Flat(parts) == old(buf[get][..])[..w.fl - 4]
      ensures forall i | 0 <= i < |chain| :: fresh(chain[i]) && fresh(chain[i].payload)
    {
      assert Slot(head, queue, k, k);
      var d;
      d, p, chain, parts := Fetch(pool, head, queue, k);
      GiveBackBeside(d, head, queue, k, p, chain, parts);
    }

    /** `ethernetif_input`. A refused packet is freed at once. */
    method EthernetifInput(pool: Pool, answer: Answer, ghost head: nat, ghost queue: seq<Entry>,
                           ghost k: nat)
      returns (ok: bool)
      requires Waiting(head, queue, k) && k < |queue| && 0 < pool.bufsize
      modifies this`get, this`rbus, this`asleep, status, pool
      ensures Waiting(head, queue, k + 1) && status[..] == old(status[..])[old(get) := OWN]
      ensures !rbus && asleep == (old(asleep) && !old(rbus))
      ensures ok <==> Handle(Bytes(queue[k]), answer, old(pool.free), pool.bufsize).Accepted?
      ensures pool.free == FreeAfter(Bytes(queue[k]), answer, old(pool.free), pool.bufsize)
    {
      var p, chain, parts := LowLevelInput(pool, head, queue, k);
      if p == null {
        return false;
      }
      ok := Offer(pool, p, answer, chain);
    }

    /** `LwIP_Pkt_Handle`. */
    method LwipPktHandle(pool: Pool, answer: Answer, ghost head: nat, ghost queue: seq<Entry>, ghost k: nat)
      requires Waiting(head, queue, k) && k < |queue| && 0 < pool.bufsize
      modifies this`get, this`rbus, this`asleep, this`handledCount, status, pool
      ensures Waiting(head, queue, k + 1) && handledCount == Bump(old(handledCount))
      ensures status[..] == old(status[..])[old(get) := OWN]
      ensures !rbus && asleep == (old(asleep) && !old(rbus))
      ensures pool.free == FreeAfter(Bytes(queue[k]), answer, old(pool.free), pool.bufsize)
    {
      var ok := EthernetifInput(pool, answer, head, queue, k);
      handledCount := Bump(handledCount);
    }

    /** The drain loop after `k` turns, with what it started from. */
    ghost predicate Draining(pool: Pool, answer: nat -> Answer, head: nat, queue: seq<Entry>, k: nat,
                             log: seq<Handled>, was: Before)
      reads this, status, buf, pool
    {
      && 0 < pool.bufsize && Waiting(head, queue, k) && k <= Good(queue)
      && |was.status| == n && status[..] == Returned(was.status, head, k)
      && Drained(log, pool.free) == Drain(queue, answer, k, was.free, pool.bufsize)
      && handledCount == CountUp(was.count, k)
      && asleep == (was.asleep && !(was.rbus && 0 < k)) && rbus == (was.rbus && k == 0)
    }

    /** One turn of the drain loop. */
    method DrainOne(pool: Pool, answer: nat -> Answer, ghost head: nat, ghost queue: seq<Entry>, k: nat,
                    ghost log: seq<Handled>, ghost was: Before)
      returns (ghost more: seq<Handled>)
      requires Draining(pool, answer, head, queue, k, log, was) && k < Good(queue)
      modifies this`get, this`rbus, this`asleep, this`handledCount, status, pool
      ensures Draining(pool, answer, head, queue, k + 1, more, was)
    {
      more := log + [Handle(Bytes(queue[k]), answer(k), pool.free, pool.bufsize)];
      LwipPktHandle(pool, answer(k), head, queue, k);
    }

    /** The waiting frames up to the first damaged one are the longest run of descriptors, from the cursor on,
      * that hold a whole frame without errors and are the CPU's. */
    lemma LongestRun(queue: seq<Entry>)
      requires Waiting(get, queue, 0)
      ensures forall d: nat | d < Good(queue) ::
        var w := status[At(n, get, d)]; !w.own && !w.es && w.ls && w.fs
      ensures Good(queue) == n ||
        var w := status[At(n, get, Good(queue))]; w.own || w.es || !w.ls || !w.fs
    {
      forall d: nat | d < Good(queue)
        ensures var w := status[At(n, get, d)]; !w.own && !w.es && w.ls && w.fs
      {
        assert Slot(get, queue, 0, d);
      }
      assert Good(queue) < n ==> Slot(get, queue, 0, Good(queue));
    }

    /** The loop of `ETH_IRQHandler`. */
    method DrainAll(pool: Pool, answer: nat -> Answer, ghost head: nat, ghost queue: seq<Entry>, ghost was: Before)
      returns (ghost log: seq<Handled>)
      requires Draining(pool, answer, head, queue, 0, [], was)
      modifies this`get, this`rbus, this`asleep, this`handledCount, status, pool
      ensures Draining(pool, answer, head, queue, Good(queue), log, was)
    {
      var k := 0;  // only names the answer
      log := [];
      var size := Peek(head, queue, k);
      while size != 0
        invariant Draining(pool, answer, head, queue, k, log, was)
        invariant size != 0 <==> k < Good(queue)
        decreases |queue| - k
      {
        log := DrainOne(pool, answer, head, queue, k, log, was);
        k := k + 1;
        size := Peek(head, queue, k);
      }
    }

    /** `ETH_IRQHandler`. It handles the waiting frames up to the first damaged one, which then blocks
      * the ring; with none damaged it leaves the ring empty, every descriptor the DMA's. */
    method EthIrqHandler(pool: Pool, answer: nat -> Answer, ghost queue: seq<Entry>) returns (ghost log: seq<Handled>)
      requires Waiting(get, queue, 0) && 0 < pool.bufsize
      modifies this`get, this`rbus, this`asleep, this`pending, this`handledCount, status, pool
      ensures Waiting(old(get), queue, Good(queue))
      ensures status[..] == Returned(old(status[..]), old(get), Good(queue))
      ensures Drained(log, pool.free) == Drain(queue, answer, Good(queue), old(pool.free), pool.bufsize)
      ensures handledCount == CountUp(old(handledCount), Good(queue))
      ensures !pending && asleep == (old(asleep) && !(old(rbus) && 0 < Good(queue)))
      ensures rbus == (old(rbus) && Good(queue) == 0)
      ensures forall d: nat | d < |log| :: var w := old(status[At(n, get, d)]); !w.own && !w.es && w.ls && w.fs
      ensures |log| == n || (|log| < n && var w := old(status[At(n, get, |log|)]); w.own || w.es || !w.ls || !w.fs)
    {
      LongestRun(queue);
      ghost var was := Before(status[..], pool.free, handledCount, rbus, asleep);
      log := DrainAll(pool, answer, get, queue, was);
      pending := false;
    }
  }

  /** `s_count++` on 32 bits. */
  function Bump(count: nat): nat { (count + 1) % U32 }

  function CountUp(count: nat, k: nat): nat {
    if k == 0 then count else Bump(CountUp(count, k - 1))
  }

  lemma BumpModulo(a: nat)
    ensures Bump(a % U32) == (a + 1) % U32
  {
  }

  /** However often the counter wraps, it is the number of packets modulo 2^32. */
  lemma {:induction false} CountWraps(count: nat, k: nat)
    requires count < U32
    ensures CountUp(count, k) == (count + k) % 0x1_0000_0000
  {
    if k == 0 {
    } else {
      CountWraps(count, k - 1);
      BumpModulo(count + (k - 1));
    }
  }

  /** `netif->input`, and what `ethernetif_input` does with its answer. */
  method Offer(pool: Pool, p: PacketBuffer, answer: Answer, ghost chain: seq<PacketBuffer>) returns (ok: bool)
    requires p == Head(chain) && IsChain(chain) && Unshared(chain)
    modifies pool, chain
    ensures ok == answer.ok
    ensures pool.free == old(pool.free) + answer.back + if ok then 0 else |chain|
  {
    pool.free := pool.free + answer.back;
    ok := answer.ok;
    if !ok {
      var count := pool.Free(p, chain);
    }
  }

  /** The middle of `low_level_input`: a chain for `len` bytes, filled from the DMA buffer. */
  method Receive(pool: Pool, len: nat, source: Option<array<Byte>>)
    returns (p: PacketBuffer?, ghost chain: seq<PacketBuffer>, ghost parts: seq<seq<Byte>>)
    requires 0 < pool.bufsize && len <= if source.Some? then source.value.Length else 0
    modifies pool
    ensures p == null <==> old(pool.free) < Needed(len, pool.bufsize)
    ensures p == null ==> pool.free == old(pool.free)
    ensures p != null ==>
        && pool.free == old(pool.free) - |chain| && |chain| == Needed(len, pool.bufsize)
        && p == Head(chain) && IsChain(chain) && Unshared(chain) && Pbuf.Holds(chain, parts)
        && Flat(parts) == if source.Some? then source.value[..len] else []
    ensures forall i | 0 <= i < |chain| :: fresh(chain[i]) && fresh(chain[i].payload)
  {
    ghost var lens;
    p, chain, lens := pool.Alloc(len);
    parts := [];
    if p != null {
      if source.Some? {
        var l;
        l, parts := Scatter(p, source.value, chain, lens);
        FlatOfCut(parts, source.value[..], lens, |lens|);
      } else {
        parts := EmptyParts(chain, lens);
      }
    }
  }

  /** The one pbuf of an empty packet holds nothing. */
  lemma EmptyParts(chain: seq<PacketBuffer>, lens: seq<nat>) returns (parts: seq<seq<Byte>>)
    requires HasLens(chain, lens) && Total(lens) == 0 && |chain| == 1 && IsChain(chain)
    ensures Pbuf.Holds(chain, parts) && Flat(parts) == []
  {
    parts := [[]];
    assert Sum(lens, 1) == Sum(lens, 0) + lens[0];
    assert FlatTo(parts, 1) == FlatTo(parts, 0) + parts[0];
  }
}
