/** The driver objects refine the step systems. What a ring object holds is the state of the protocol as far
  * as memory, cursor and flags go; a method call takes the object from one such state to another that the
  * protocol's CPU reaches by its own steps.
  */
module RingRefinement {
  import opened Chain
  import opened Words
  import opened Pbuf
  import R = RxProtocol
  import Rx = RxDriver
  import T = TxProtocol
  import Tx = TxDriver

  /** The bytes of several buffers. */
  ghost function Contents(buf: seq<array<Byte>>): (c: seq<seq<Byte>>)
    reads buf
    ensures |c| == |buf| && forall i | 0 <= i < |buf| :: c[i] == buf[i][..]
  {
    if buf == [] then [] else Contents(buf[..|buf| - 1]) + [buf[|buf| - 1][..]]
  }

  // ---------------------------------------------------------------- reception

  function RxMemory(status: seq<Rx.Status>, bytes: seq<seq<Byte>>): R.Memory {
    R.Memory(seq(|status|, i requires 0 <= i < |status| => status[i].own),
             seq(|status|, i requires 0 <= i < |status| => status[i].fl), bytes)
  }

  /** What a ring object holds, but for its interrupt bits and counter. */
  datatype RxView = RxView(n: nat, cap: nat, status: seq<Rx.Status>, bytes: seq<seq<Byte>>, get: nat, rbus: bool,
                           asleep: bool)

  ghost function RxViewOf(ring: Rx.RxRing): RxView
    reads ring, ring.status, ring.buf
  {
    RxView(ring.n, ring.cap, ring.status[..], Contents(ring.buf), ring.get, ring.rbus, ring.asleep)
  }

  /** The protocol state that a ring object stands for, between two calls. The DMA's own cursor and the
    * frame it is receiving, the histories, and the variables of finished calls are not in the object:
    * those are taken from `s`. */
  function RxState(v: RxView, s: R.State): R.State {
    s.(n := v.n, cap := v.cap, mem := RxMemory(v.status, v.bytes), get := v.get, pc := R.Guard, rbus := v.rbus,
       dma := if v.asleep then R.Suspended else if s.dma.Suspended? then R.Fetch else s.dma)
  }

  /** The protocol has no error frames, so none is in the ring. */
  ghost predicate AllIntact(status: seq<Rx.Status>) {
    forall i | 0 <= i < |status| :: status[i].own || Rx.Intact(status[i])
  }

  ghost predicate RxStandsFor(v: RxView, s: R.State) {
    RxState(v, s) == s && AllIntact(v.status)
  }

  /** The object stands for `s`. */
  ghost predicate RxShows(ring: Rx.RxRing, s: R.State)
    reads ring, ring.status, ring.buf
  {
    ring.Valid() && RxStandsFor(RxViewOf(ring), s)
  }

  /** `ETH_DMARxDescChainInit` makes an object that stands for an initial state. */
  method RxStart(n: nat, cap: nat, buf: seq<array<Byte>>) returns (ring: Rx.RxRing, ghost s: R.State)
    requires 0 < n == |buf| && cap < U16
    requires forall i | 0 <= i < n :: buf[i].Length == cap
    ensures fresh(ring) && ring.buf == buf && RxShows(ring, s) && R.Init(s) && R.Reachable(s, true)
  {
    ring := new Rx.RxRing(n, cap, buf);
    ghost var v := RxViewOf(ring);
    s := R.State(n, cap, RxMemory(v.status, v.bytes), 0, R.Guard, 0, 0, R.Dropped, false, R.Fetch, 0, [], []);
    forall i: nat | i < n
      ensures v.status[i].own
    {
      assert ring.Slot(0, [], 0, i);
    }
    assert R.Run([s], true);
  }

  function Wholes(queue: seq<Frame>): (r: seq<Rx.Entry>)
    ensures |r| == |queue| && forall i | 0 <= i < |queue| :: r[i] == Rx.Whole(queue[i])
  {
    seq(|queue|, i requires 0 <= i < |queue| => Rx.Whole(queue[i]))
  }

  lemma {:induction false} AllGood(queue: seq<Frame>)
    ensures Rx.Good(Wholes(queue)) == |queue|
  {
    if queue == [] {
    } else {
      AllGood(queue[1..]);
      assert Wholes(queue)[1..] == Wholes(queue[1..]);
    }
  }

  lemma SlotWaits(ring: Rx.RxRing, s: R.State, queue: seq<Frame>, d: nat)
    requires RxShows(ring, s) && R.Ring(s.n, s.cap, s.mem, s.get, queue) && d < s.n
    ensures ring.Slot(ring.get, Wholes(queue), 0, d)
  {
    var i := At(s.n, s.get, d);
    assert s.mem.own[i] == ring.status[i].own && s.mem.fl[i] == ring.status[i].fl && s.mem.buf[i] == ring.buf[i][..];
    if d < |queue| {
      assert R.Holds(s.cap, s.mem, i, queue[d]);
    }
  }

  /** The frames of the abstract FIFO are what waits in the object. */
  lemma ShownWaits(ring: Rx.RxRing, s: R.State)
    requires RxShows(ring, s) && R.Inv(s)
    ensures ring.Waiting(ring.get, Wholes(R.Queue(s)), 0)
  {
    forall d: nat | d < s.n
      ensures ring.Slot(ring.get, Wholes(R.Queue(s)), 0, d)
    {
      SlotWaits(ring, s, R.Queue(s), d);
    }
  }

  lemma GivenBackShown(status: seq<Rx.Status>, bytes: seq<seq<Byte>>, i: nat)
    requires i < |status|
    ensures RxMemory(status[i := Rx.OWN], bytes) == R.GivenBack(RxMemory(status, bytes), i)
  {
    var was, now := RxMemory(status, bytes), RxMemory(status[i := Rx.OWN], bytes);
    assert now.own == was.own[i := true];
    assert now.fl == was.fl[i := 0];
  }

  lemma {:induction false} ReturnedShown(status: seq<Rx.Status>, bytes: seq<seq<Byte>>, head: nat, k: nat)
    requires head < |status| && k <= |status|
    ensures RxMemory(Rx.Returned(status, head, k), bytes) == R.Returned(RxMemory(status, bytes), head, k)
  {
    if k == 0 {
    } else {
      ReturnedShown(status, bytes, head, k - 1);
      GivenBackShown(Rx.Returned(status, head, k - 1), bytes, At(|status|, head, k - 1));
    }
  }

  /** Whether there was memory for each frame that was handled. */
  function Memories(log: seq<Rx.Handled>): (r: seq<bool>)
    ensures |r| == |log| && forall k | 0 <= k < |log| :: r[k] == !log[k].NoMemory?
  {
    seq(|log|, k requires 0 <= k < |log| => !log[k].NoMemory?)
  }

  /** The view after `k` turns of the drain loop. */
  function AfterTurns(v: RxView, k: nat): RxView
    requires v.get < v.n == |v.status| && k <= v.n
  {
    v.(status := Rx.Returned(v.status, v.get, k), get := At(v.n, v.get, k), rbus := v.rbus && k == 0,
       asleep := v.asleep && !(v.rbus && 0 < k))
  }

  lemma {:induction false} ReturnedIntact(status: seq<Rx.Status>, head: nat, k: nat)
    requires head < |status| && k <= |status| && AllIntact(status)
    ensures AllIntact(Rx.Returned(status, head, k))
  {
    if k == 0 {
    } else {
      ReturnedIntact(status, head, k - 1);
    }
  }

  /** The same turns in the protocol. */
  lemma AfterTurnsStandsFor(v: RxView, s: R.State, t: R.State, memory: seq<bool>)
    requires RxStandsFor(v, s) && R.Wf(s) && |s.log| <= |s.completed| && |memory| <= |R.Queue(s)| <= s.n
    requires R.Turned(s, t, memory)
    ensures RxStandsFor(AfterTurns(v, |memory|), t)
  {
    ReturnedShown(v.status, v.bytes, v.get, |memory|);
    ReturnedIntact(v.status, v.get, |memory|);
  }

  lemma OneTurnIsTurned(s: R.State, t: R.State, memory: bool)
    requires R.Wf(s) && |s.log| < |s.completed| && |R.Queue(s)| <= s.n && R.OneTurn(s, t, memory)
    ensures R.Turned(s, t, [memory])
  {
    assert R.Returned(s.mem, s.get, 1) == R.GivenBack(R.Returned(s.mem, s.get, 0), At(s.n, s.get, 0));
    assert R.Outcomes(R.Queue(s), [memory]) == [if memory then R.Delivered(R.Queue(s)[0]) else R.Dropped];
  }

  /** The calls on the object, seen on its view. */
  method HandleOne(ring: Rx.RxRing, pool: Pool, answer: Rx.Answer, ghost queue: seq<Frame>)
    requires ring.Waiting(ring.get, Wholes(queue), 0) && queue != [] && 0 < pool.bufsize
    modifies ring`get, ring`rbus, ring`asleep, ring`handledCount, ring.status, pool
    ensures ring.Valid() && RxViewOf(ring) == AfterTurns(old(RxViewOf(ring)), 1)
    ensures pool.free == Rx.FreeAfter(queue[0], answer, old(pool.free), pool.bufsize)
  {
    ghost var was := ring.status[..];
    ring.LwipPktHandle(pool, answer, ring.get, Wholes(queue), 0);
    assert Rx.Returned(was, old(ring.get), 1)
        == Rx.Returned(was, old(ring.get), 0)[At(ring.n, old(ring.get), 0) := Rx.OWN];
    forall i | 0 <= i < ring.n
      ensures ring.buf[i][..] == old(ring.buf[i][..])
    {
      assert ring.buf[i] in ring.buf;
    }
    assert Contents(ring.buf) == old(Contents(ring.buf));
  }

  method HandleAll(ring: Rx.RxRing, pool: Pool, answer: nat -> Rx.Answer, ghost queue: seq<Frame>)
    returns (ghost log: seq<Rx.Handled>)
    requires ring.Waiting(ring.get, Wholes(queue), 0) && 0 < pool.bufsize
    modifies ring`get, ring`rbus, ring`asleep, ring`pending, ring`handledCount, ring.status, pool
    ensures ring.Valid() && RxViewOf(ring) == AfterTurns(old(RxViewOf(ring)), |queue|)
    ensures Rx.Drained(log, pool.free) == Rx.Drain(Wholes(queue), answer, |queue|, old(pool.free), pool.bufsize)
  {
    AllGood(queue);
    log := ring.EthIrqHandler(pool, answer, Wholes(queue));
    forall i | 0 <= i < ring.n
      ensures ring.buf[i][..] == old(ring.buf[i][..])
    {
      assert ring.buf[i] in ring.buf;
    }
    assert Contents(ring.buf) == old(Contents(ring.buf));
  }

  /** `LwIP_Pkt_Handle`, called behind the guard, takes the object along a turn of the protocol's CPU. */
  method Turn(ring: Rx.RxRing, pool: Pool, answer: Rx.Answer, ghost s: R.State) returns (ghost path: seq<R.State>)
    requires RxShows(ring, s) && R.Reachable(s, true) && R.Wf(s) && R.Ready(s) && 0 < pool.bufsize
    modifies ring`get, ring`rbus, ring`asleep, ring`handledCount, ring.status, pool
    ensures R.Alone(path) && path[0] == s && RxShows(ring, path[|path| - 1])
    ensures R.Reachable(path[|path| - 1], true) && |s.log| < |s.completed|
    ensures R.OneTurn(s, path[|path| - 1], Needed(|R.Queue(s)[0]|, pool.bufsize) <= old(pool.free))
    ensures pool.free == Rx.FreeAfter(R.Queue(s)[0], answer, old(pool.free), pool.bufsize)
  {
    ghost var v := RxViewOf(ring);
    ghost var memory;
    path, memory := TurnOf(ring, pool, s);
    HandleOne(ring, pool, answer, R.Queue(s));
    AfterTurnsStandsFor(v, s, path[|path| - 1], [memory]);
    R.AloneStaysReachable(path, |path| - 1);
  }

  lemma TurnOf(ring: Rx.RxRing, pool: Pool, s: R.State) returns (path: seq<R.State>, memory: bool)
    requires RxShows(ring, s) && R.Reachable(s, true) && R.Wf(s) && R.Ready(s) && 0 < pool.bufsize
    ensures |s.log| < |s.completed| && |R.Queue(s)| <= s.n && R.Queue(s) != []
    ensures memory <==> Needed(|R.Queue(s)[0]|, pool.bufsize) <= pool.free
    ensures R.Alone(path) && path[0] == s && R.OneTurn(s, path[|path| - 1], memory)
    ensures R.Turned(s, path[|path| - 1], [memory])
    ensures ring.Waiting(ring.get, Wholes(R.Queue(s)), 0)
  {
    R.ReachableInv(s);
    memory := Needed(|R.Queue(s)[0]|, pool.bufsize) <= pool.free;
    path := R.TurnAlone(s, memory);
    OneTurnIsTurned(s, path[|path| - 1], memory);
    ShownWaits(ring, s);
  }

  /** `ETH_IRQHandler` takes the object from any state that the protocol reaches at the guard to one in which
    * the guard fails, along the CPU's own steps: every frame completed so far has then been logged, as
    * delivered exactly if the pool had the pbufs when its turn came. */
  method Handle(ring: Rx.RxRing, pool: Pool, answer: nat -> Rx.Answer, ghost s: R.State)
    returns (ghost log: seq<Rx.Handled>, ghost path: seq<R.State>)
    requires RxShows(ring, s) && R.Reachable(s, true) && 0 < pool.bufsize
    modifies ring`get, ring`rbus, ring`asleep, ring`pending, ring`handledCount, ring.status, pool
    ensures R.Wf(s) && |s.log| <= |s.completed| && |R.Queue(s)| <= s.n
    ensures Rx.Drained(log, pool.free)
        == Rx.Drain(Wholes(R.Queue(s)), answer, |R.Queue(s)|, old(pool.free), pool.bufsize)
    ensures R.Alone(path) && path[0] == s && RxShows(ring, path[|path| - 1])
    ensures R.Reachable(path[|path| - 1], true)
    ensures R.Turned(s, path[|path| - 1], Memories(log)) && R.Wf(path[|path| - 1]) && !R.Ready(path[|path| - 1])
  {
    HandleWaits(ring, s);
    ghost var v := RxViewOf(ring);
    log := HandleAll(ring, pool, answer, R.Queue(s));
    path := PathOf(s, Memories(log));
    AfterTurnsStandsFor(v, s, path[|path| - 1], Memories(log));
    R.AloneStaysReachable(path, |path| - 1);
  }

  lemma HandleWaits(ring: Rx.RxRing, s: R.State)
    requires RxShows(ring, s) && R.Reachable(s, true)
    ensures R.Wf(s) && |s.log| <= |s.completed| && |R.Queue(s)| <= s.n
    ensures ring.Waiting(ring.get, Wholes(R.Queue(s)), 0)
  {
    R.ReachableInv(s);
    ShownWaits(ring, s);
  }

  lemma PathOf(s: R.State, memory: seq<bool>) returns (path: seq<R.State>)
    requires R.Reachable(s, true) && s.pc.Guard? && |s.log| <= |s.completed| && |memory| == |R.Queue(s)|
    ensures R.Wf(s) && |R.Queue(s)| <= s.n && R.Alone(path) && path[0] == s
    ensures R.Turned(s, path[|path| - 1], memory) && R.Wf(path[|path| - 1]) && !R.Ready(path[|path| - 1])
  {
    R.ReachableInv(s);
    path := R.DrainAlone(s, memory);
  }

  // ---------------------------------------------------------------- transmission

  function TxMemory(desc: seq<Tx.Descriptor>, bytes: seq<seq<Byte>>): T.Memory {
    T.Memory(seq(|desc|, i requires 0 <= i < |desc| => desc[i].own),
             seq(|desc|, i requires 0 <= i < |desc| => desc[i].fs && desc[i].ls),
             seq(|desc|, i requires 0 <= i < |desc| => desc[i].size), bytes)
  }

  /** As for reception. */
  datatype TxView = TxView(n: nat, cap: nat, desc: seq<Tx.Descriptor>, bytes: seq<seq<Byte>>, toSet: nat, tbus: bool,
                           asleep: bool)

  ghost function TxViewOf(ring: Tx.TxRing): TxView
    reads ring, ring.desc, ring.buf
  {
    TxView(ring.n, ring.cap, ring.desc[..], Contents(ring.buf), ring.toSet, ring.tbus, ring.asleep)
  }

  function TxState(v: TxView, s: T.State): T.State {
    s.(n := v.n, cap := v.cap, mem := TxMemory(v.desc, v.bytes), toSet := v.toSet, pc := T.Idle, tbus := v.tbus,
       dma := if v.asleep then T.Suspended else if s.dma.Suspended? then T.Fetch else s.dma)
  }

  ghost predicate TxStandsFor(v: TxView, s: T.State) { TxState(v, s) == s }

  ghost predicate TxShows(ring: Tx.TxRing, s: T.State)
    reads ring, ring.desc, ring.buf
  {
    ring.Valid() && TxStandsFor(TxViewOf(ring), s)
  }

  /** `ETH_DMATxDescChainInit` makes an object that stands for an initial state. */
  method TxStart(n: nat, cap: nat, buf: seq<array<Byte>>) returns (ring: Tx.TxRing, ghost s: T.State)
    requires 0 < n == |buf| && cap < TBS1
    requires forall i | 0 <= i < n :: buf[i].Length == cap
    requires forall i, j | 0 <= i < j < n :: buf[i] != buf[j]
    ensures fresh(ring) && ring.buf == buf && TxShows(ring, s) && T.Init(s)
    ensures T.Reachable(s, true) && T.Reachable(s, false)
  {
    ring := new Tx.TxRing(n, cap, buf);
    ghost var v := TxViewOf(ring);
    s := T.State(n, cap, TxMemory(v.desc, v.bytes), 0, T.Idle, [], 0, false, T.Fetch, 0, [], [], []);
    forall i: nat | i < n
      ensures !v.desc[i].own
    {
      assert ring.Slot(0, [], i);
    }
    assert T.Run([s], true) && T.Run([s], false);
  }

  /** What the DMA would send as the memory stands. */
  ghost function InMemory(s: T.State): (r: seq<Frame>)
    requires T.Inv(s)
    ensures |r| == |T.Queue(s)|
    ensures forall d: nat | d < |r| ::
      var i := At(s.n, s.send, d); s.mem.size[i] <= s.cap && r[d] == s.mem.buf[i][..s.mem.size[i]]
  {
    assert forall d: nat | d < |T.Queue(s)| :: s.mem.size[At(s.n, s.send, d)] <= s.cap;
    seq(|T.Queue(s)|, d requires 0 <= d < |T.Queue(s)| =>
      var i := At(s.n, s.send, d); s.mem.buf[i][..s.mem.size[i]])
  }

  lemma SlotPending(ring: Tx.TxRing, s: T.State, d: nat)
    requires TxShows(ring, s) && T.Inv(s) && d < s.n
    ensures ring.Slot(s.send, InMemory(s), d)
  {
    var i := At(s.n, s.send, d);
    assert s.mem.own[i] == ring.desc[i].own && s.mem.size[i] == ring.desc[i].size && s.mem.buf[i] == ring.buf[i][..];
    assert s.mem.seg[i] == (ring.desc[i].fs && ring.desc[i].ls);
  }

  lemma ShownPending(ring: Tx.TxRing, s: T.State)
    requires TxShows(ring, s) && T.Inv(s)
    ensures ring.Pending(s.send, InMemory(s))
  {
    forall d: nat | d < s.n
      ensures ring.Slot(s.send, InMemory(s), d)
    {
      SlotPending(ring, s, d);
    }
  }

  lemma HandedOverShown(desc: seq<Tx.Descriptor>, bytes: seq<seq<Byte>>, i: nat, length: nat)
    requires i < |desc|
    ensures TxMemory(Tx.HandedOver(desc, i, length), bytes) == T.HandedOver(TxMemory(desc, bytes), i, length)
  {
    var was, now := TxMemory(desc, bytes), TxMemory(Tx.HandedOver(desc, i, length), bytes);
    assert now.own == was.own[i := true];
    assert now.seg == was.seg[i := true];
    assert now.size == was.size[i := length % TBS1];
  }

  /** The view after `low_level_output(f)`. */
  function AfterOutput(v: TxView, f: Frame): TxView
    requires v.toSet < v.n == |v.desc| == |v.bytes| && |f| <= |v.bytes[v.toSet]|
  {
    var w := v.(bytes := v.bytes[v.toSet := f + v.bytes[v.toSet][|f|..]]);
    if v.desc[v.toSet].own then w
    else
      w.(desc := Tx.HandedOver(v.desc, v.toSet, |f|), toSet := Next(v.n, v.toSet), tbus := false,
         asleep := v.asleep && !v.tbus)
  }

  /** The same call in the protocol. */
  lemma AfterOutputStandsFor(v: TxView, s: T.State, f: Frame)
    requires TxStandsFor(v, s) && T.Wf(s) && v.n == |v.desc| && |f| <= s.cap
    ensures TxStandsFor(AfterOutput(v, f), T.AfterCall(s, f))
  {
    HandedOverShown(v.desc, T.Gathered(s.mem, s.toSet, f).buf, v.toSet, |f|);
  }

  /** The call on the object, seen on its view. */
  method OutputOne(ring: Tx.TxRing, p: PacketBuffer?, ghost chain: seq<PacketBuffer>, ghost parts: seq<seq<Byte>>,
                   ghost head: nat, ghost pending: seq<Frame>)
    returns (err: Tx.Err)
    requires ring.Pending(head, pending)
    requires IsChain(chain) && p == Head(chain) && Holds(chain, parts) && |Flat(parts)| <= ring.cap
    requires forall b | b in ring.buf :: b !in Payloads(chain)
    modifies ring`toSet, ring`tbus, ring`asleep, ring.desc, ring.buf[ring.toSet]
    ensures ring.Valid() && TxViewOf(ring) == AfterOutput(old(TxViewOf(ring)), Flat(parts))
  {
    HeadOwnedIffFull(ring, head, pending);
    err := ring.LowLevelOutput(p, chain, parts, head, pending);
    assert Contents(ring.buf) == old(Contents(ring.buf))[old(ring.toSet) :=
        Flat(parts) + old(ring.buf[ring.toSet][..])[|Flat(parts)|..]];
  }

  lemma HeadOwnedIffFull(ring: Tx.TxRing, head: nat, pending: seq<Frame>)
    requires ring.Pending(head, pending)
    ensures ring.desc[ring.toSet].own <==> |pending| == ring.n
  {
    if |pending| < ring.n {
      assert ring.Slot(head, pending, |pending|);
    } else {
      assert ring.Slot(head, pending, 0);
    }
  }

  lemma CallOf(ring: Tx.TxRing, s: T.State, f: Frame) returns (path: seq<T.State>)
    requires TxShows(ring, s) && T.Reachable(s, false) && |f| <= ring.cap
    ensures T.Wf(s) && T.Inv(s) && ring.Pending(s.send, InMemory(s))
    ensures T.Path(path, false) && path[0] == s && T.AllCalls(path) == 1
    ensures path[|path| - 1] == T.AfterCall(s, f)
  {
    T.ReachableInv(s, false);
    ShownPending(ring, s);
    path := T.CallAlone([s], f, false);
  }

  /** `low_level_output` takes the object from any state that the protocol reaches between two calls to the one
    * after a whole call of the protocol's CPU, accepted or refused, whatever the DMA has read so far. */
  method Output(ring: Tx.TxRing, p: PacketBuffer?, ghost chain: seq<PacketBuffer>, ghost parts: seq<seq<Byte>>,
                ghost s: T.State)
    returns (err: Tx.Err, ghost path: seq<T.State>)
    requires TxShows(ring, s) && T.Reachable(s, false)
    requires IsChain(chain) && p == Head(chain) && Holds(chain, parts) && |Flat(parts)| <= ring.cap
    requires forall b | b in ring.buf :: b !in Payloads(chain)
    modifies ring`toSet, ring`tbus, ring`asleep, ring.desc, ring.buf[ring.toSet]
    ensures T.Path(path, false) && path[0] == s && T.AllCalls(path) == 1
    ensures T.Wf(s) && path[|path| - 1] == T.AfterCall(s, Flat(parts))
    ensures TxShows(ring, path[|path| - 1]) && T.Reachable(path[|path| - 1], false)
  {
    path := CallOf(ring, s, Flat(parts));
    T.PathStaysReachable(path, |path| - 1, false);
    AfterOutputStandsFor(TxViewOf(ring), s, Flat(parts));
    err := OutputOne(ring, p, chain, parts, s.send, InMemory(s));
  }
}
