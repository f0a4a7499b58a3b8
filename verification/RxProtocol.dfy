/** The receive descriptor ring as a two-party protocol.
  *
  * The CPU runs the drain loop of `ETH_IRQHandler` around `low_level_input`; the DMA engine fills
  * descriptors on its own. The two share the OWN bits, the frame lengths, the buffers and the RBUS
  * flag, and every shared access of the CPU is a step of its own, as is every byte either party moves.
  */
module RxProtocol {
  import opened Chain
  import opened Words

  /** The descriptors and their buffers: OWN bit, frame length field (CRC included), bytes. */
  datatype Memory = Memory(own: seq<bool>, fl: seq<nat>, buf: seq<seq<Byte>>)

  /** What became of a frame the CPU took out of the ring (`pbuf_alloc` may return NULL). */
  datatype Outcome = Delivered(frame: Frame) | Dropped

  /** Where the CPU is. The four `Null...` points are the branch of `ETH_RxPkt_ChainMode` that finds
    * the head still owned by the DMA: its flag test, the two writes, and the write through the null
    * descriptor that `low_level_input` would then do. */
  datatype Pc =
    | Guard | TestOwn | Latch | Advance | Alloc | Copy | Release | TestRbus | ClearRbus | Poll
    | NullTest | NullClear | NullPoll | NullWrite

  datatype Dma = Fetch | Filling(cur: seq<Byte>) | Stalling | Suspended

  datatype State = State(
    n: nat,                       // descriptors in the ring
    cap: nat,                     // bytes in one buffer
    mem: Memory,
    get: nat,                     // DMARxDescToGet
    pc: Pc,
    held: nat,                    // frame.descriptor
    len: nat,                     // frame.length
    copied: Outcome,              // the pbuf being filled, or NULL
    rbus: bool,
    dma: Dma,
    fill: nat,                    // the DMA's own cursor
    completed: seq<Frame>,        // history: frames the DMA finished
    log: seq<Outcome>)            // history: frames whose descriptor the CPU gave back

  ghost predicate MemWf(n: nat, cap: nat, mem: Memory) {
    && 0 < n
    && |mem.own| == |mem.fl| == |mem.buf| == n
    && (forall i | 0 <= i < n :: |mem.buf[i]| == cap)
  }

  ghost predicate Wf(s: State) {
    MemWf(s.n, s.cap, s.mem) && s.cap < U16 && s.get < s.n && s.held < s.n && s.fill < s.n
  }

  ghost predicate Init(s: State) {
    && Wf(s)
    && (forall i | 0 <= i < s.n :: s.mem.own[i])
    && s.get == 0 && s.fill == 0 && s.pc == Guard
    && !s.rbus && s.dma == Fetch && s.completed == [] && s.log == []
  }

  // ---------------------------------------------------------------- steps

  /** `ETH_GetRxPktSize() != 0` for rings that hold no error frames. */
  ghost predicate Ready(s: State)
    requires Wf(s)
  {
    !s.mem.own[s.get] && s.mem.fl[s.get] != 0
  }

  function Polled(dma: Dma): Dma {
    if dma.Suspended? then Fetch else dma
  }

  /** The descriptor's status word becomes `ETH_DMARxDesc_OWN`: the length field goes with the rest. */
  function GivenBack(mem: Memory, i: nat): Memory
    requires i < |mem.own| == |mem.fl|
  {
    mem.(own := mem.own[i := true], fl := mem.fl[i := 0])
  }

  ghost predicate CpuStep(s: State, t: State)
    requires Wf(s)
  {
    match s.pc
    case Guard => t == if Ready(s) then s.(pc := TestOwn) else s
    case TestOwn => t == s.(pc := if s.mem.own[s.get] then NullTest else Latch)
    case Latch => t == s.(pc := Advance, len := (s.mem.fl[s.get] - CRC_BYTES) % U16, held := s.get)
    case Advance => t == s.(pc := Alloc, get := Next(s.n, s.get))
    case Alloc => t == s.(pc := Copy, copied := Delivered([])) || t == s.(pc := Release, copied := Dropped)
    case Copy => s.copied.Delivered? && CopyStep(s, t)
    case Release =>
      t == s.(pc := TestRbus, mem := GivenBack(s.mem, s.held), log := s.log + [s.copied])
    case TestRbus => t == s.(pc := if s.rbus then ClearRbus else Guard)
    case ClearRbus => t == s.(pc := Poll, rbus := false)
    case Poll => t == s.(pc := Guard, dma := Polled(s.dma))
    case NullTest => t == s.(pc := if s.rbus then NullClear else NullWrite)
    case NullClear => t == s.(pc := NullPoll, rbus := false)
    case NullPoll => t == s.(pc := NullWrite, dma := Polled(s.dma))
    case NullWrite => false
  }

  /** The pbuf loop, one byte at a time. */
  ghost predicate CopyStep(s: State, t: State)
    requires Wf(s) && s.copied.Delivered?
  {
    var l := |s.copied.frame|;
    if l < s.len then
      l < s.cap && t == s.(copied := Delivered(s.copied.frame + [s.mem.buf[s.held][l]]))
    else
      t == s.(pc := Release)
  }

  /** One step of the DMA engine. With `atomic` it finds its descriptor unavailable, raises RBUS and
    * suspends in a single step; without, the CPU may run in between (`Stalling`). */
  ghost predicate DmaStep(s: State, t: State, atomic: bool)
    requires Wf(s)
  {
    match s.dma
    case Fetch =>
      if s.mem.own[s.fill] then t == s.(dma := Filling([]))
      else if atomic then t == s.(dma := Suspended, rbus := true)
      else t == s.(dma := Stalling)
    case Stalling => t == s.(dma := Suspended, rbus := true)
    case Filling(cur) =>
      || (|cur| < s.cap && exists b: Byte :: t == Written(s, b))
      || (|cur| >= CRC_BYTES && t == Finished(s))
      || t == s.(dma := Fetch)  // a damaged frame is not forwarded
    case Suspended => false
  }

  function WithByte(mem: Memory, i: nat, l: nat, b: Byte): Memory
    requires i < |mem.buf| && l < |mem.buf[i]|
  {
    mem.(buf := PutByte(mem.buf, i, l, b))
  }

  function Written(s: State, b: Byte): State
    requires s.dma.Filling? && s.fill < |s.mem.buf| && |s.dma.cur| < |s.mem.buf[s.fill]|
  {
    s.(mem := WithByte(s.mem, s.fill, |s.dma.cur|, b), dma := Filling(s.dma.cur + [b]))
  }

  function Closed(mem: Memory, i: nat, len: nat): Memory
    requires i < |mem.own| == |mem.fl|
  {
    mem.(own := mem.own[i := false], fl := mem.fl[i := len])
  }

  function Finished(s: State): State
    requires s.dma.Filling? && s.fill < s.n == |s.mem.own| == |s.mem.fl| && CRC_BYTES <= |s.dma.cur|
  {
    s.(mem := Closed(s.mem, s.fill, |s.dma.cur|),
       completed := s.completed + [s.dma.cur[..|s.dma.cur| - CRC_BYTES]],
       fill := Next(s.n, s.fill),
       dma := Fetch)
  }

  ghost predicate Step(s: State, t: State, atomic: bool)
    requires Wf(s)
  {
    CpuStep(s, t) || DmaStep(s, t, atomic)
  }

  /** A run: any interleaving of CPU and DMA steps from an initial state. */
  ghost predicate Run(trace: seq<State>, atomic: bool) {
    && 0 < |trace| && Init(trace[0])
    && forall i | 0 <= i < |trace| - 1 :: Wf(trace[i]) ==> Step(trace[i], trace[i + 1], atomic)
  }

  ghost predicate Reachable(s: State, atomic: bool) {
    exists trace :: Run(trace, atomic) && trace[|trace| - 1] == s
  }

  lemma Extend(trace: seq<State>, t: State, atomic: bool)
    requires Run(trace, atomic)
    requires var s := trace[|trace| - 1]; Wf(s) && Step(s, t, atomic)
    ensures Run(trace + [t], atomic)
  {
  }

  /** Steps stay inside the arrays. */
  lemma StepKeepsWf(s: State, t: State, atomic: bool)
    requires Wf(s) && Step(s, t, atomic)
    ensures Wf(t)
  {
  }

  /** So no run is cut short by the guard in `Run`. */
  lemma {:induction false} RunKeepsWf(trace: seq<State>, i: nat, atomic: bool)
    requires Run(trace, atomic) && i < |trace|
    ensures Wf(trace[i])
  {
    if i == 0 {
    } else {
      RunKeepsWf(trace, i - 1, atomic);
      assert Step(trace[i - 1], trace[i - 1 + 1], atomic);
      StepKeepsWf(trace[i - 1], trace[i], atomic);
    }
  }

  // ---------------------------------------------------------------- the ring

  /** Descriptor `i` holds frame `f`, CRC behind it. */
  ghost predicate Holds(cap: nat, mem: Memory, i: nat, f: Frame)
    requires i < |mem.fl| == |mem.buf|
  {
    mem.fl[i] == |f| + CRC_BYTES <= cap && f <= mem.buf[i]
  }

  /** Seen from `head`: first the completed frames of `queue`, one per descriptor and in order, then
    * the descriptors the DMA owns, all the way round. */
  ghost predicate Ring(n: nat, cap: nat, mem: Memory, head: nat, queue: seq<Frame>) {
    && MemWf(n, cap, mem) && head < n && |queue| <= n
    && (forall d: nat | d < |queue| ::
          !mem.own[At(n, head, d)] && Holds(cap, mem, At(n, head, d), queue[d]))
    && (forall d: nat | |queue| <= d < n :: mem.own[At(n, head, d)])
  }

  /** A byte written to a DMA-owned descriptor touches no completed frame. */
  lemma RingPut(n: nat, cap: nat, mem: Memory, head: nat, queue: seq<Frame>, i: nat, l: nat, b: Byte)
    requires Ring(n, cap, mem, head, queue) && i < n && mem.own[i] && l < cap
    ensures Ring(n, cap, WithByte(mem, i, l, b), head, queue)
  {
  }

  /** Closing the first DMA-owned descriptor appends its frame to the queue. */
  lemma RingClosed(n: nat, cap: nat, mem: Memory, head: nat, queue: seq<Frame>, raw: seq<Byte>)
    requires Ring(n, cap, mem, head, queue) && mem.own[At(n, head, |queue|)]
    requires CRC_BYTES <= |raw| && raw <= mem.buf[At(n, head, |queue|)]
    ensures Ring(n, cap, Closed(mem, At(n, head, |queue|), |raw|), head, queue + [raw[..|raw| - CRC_BYTES]])
  {
    assert At(n, head, 0) == head;  // so the ring is not full
  }

  /** Giving the head descriptor back removes its frame and moves the head on. */
  lemma RingReleased(n: nat, cap: nat, mem: Memory, head: nat, queue: seq<Frame>)
    requires Ring(n, cap, mem, head, queue) && 0 < |queue|
    ensures Ring(n, cap, GivenBack(mem, head), Next(n, head), queue[1..])
  {
    AtNext(n, head);
    assert At(n, head, 0) == head;
  }

  // ---------------------------------------------------------------- the invariant

  /** The abstract FIFO: completed frames whose descriptor has not been given back. */
  function Queue(s: State): seq<Frame>
    requires |s.log| <= |s.completed|
  {
    s.completed[|s.log|..]
  }

  /** The cursor has left the descriptor, but the descriptor has not been given back. */
  predicate InFlight(pc: Pc) { pc.Alloc? || pc.Copy? || pc.Release? }

  predicate Working(pc: Pc) { pc.TestOwn? || pc.Latch? || pc.Advance? || InFlight(pc) }

  predicate Waking(pc: Pc) { pc.TestRbus? || pc.ClearRbus? || pc.Poll? }

  predicate NullBranch(pc: Pc) { pc.NullTest? || pc.NullClear? || pc.NullPoll? || pc.NullWrite? }

  /** The oldest descriptor not given back: `held` while in flight, else under the cursor. */
  function Head(s: State): nat { if InFlight(s.pc) then s.held else s.get }

  ghost predicate RingInv(s: State) {
    && Wf(s) && |s.log| <= |s.completed|
    && Ring(s.n, s.cap, s.mem, Head(s), Queue(s))
    && s.fill == At(s.n, Head(s), |Queue(s)|)
    && (InFlight(s.pc) ==> s.get == Next(s.n, s.held))
  }

  ghost predicate CpuInv(s: State)
    requires |s.log| <= |s.completed|
  {
    && !NullBranch(s.pc)
    && (Working(s.pc) ==> 0 < |Queue(s)|)
    && (s.pc.Advance? ==> s.held == s.get)
    && (s.pc.Advance? || InFlight(s.pc) ==> s.len == |Queue(s)[0]|)
    && (s.pc.Copy? ==> s.copied.Delivered? && s.copied.frame <= Queue(s)[0])
    && (s.pc.Release? ==> s.copied == Dropped || s.copied == Delivered(Queue(s)[0]))
  }

  ghost predicate DmaInv(s: State)
    requires Wf(s)
  {
    && !s.dma.Stalling?
    && (s.dma.Filling? ==> s.mem.own[s.fill] && s.dma.cur <= s.mem.buf[s.fill])
    && (s.dma.Suspended? <==> s.rbus || s.pc.Poll?)
    && (s.pc.ClearRbus? ==> s.rbus)
    && (s.pc.Poll? ==> !s.rbus)
    && (s.dma.Suspended? && s.mem.own[s.fill] ==> Waking(s.pc))
  }

  ghost predicate LogInv(s: State)
    requires |s.log| <= |s.completed|
  {
    forall k | 0 <= k < |s.log| :: s.log[k] == Dropped || s.log[k] == Delivered(s.completed[k])
  }

  ghost predicate Inv(s: State) {
    RingInv(s) && CpuInv(s) && DmaInv(s) && LogInv(s)
  }

  lemma InitInv(s: State)
    requires Init(s)
    ensures Inv(s)
  {
  }

  lemma FinishKeepsRing(s: State)
    requires RingInv(s) && DmaInv(s) && s.dma.Filling? && CRC_BYTES <= |s.dma.cur|
    ensures RingInv(Finished(s)) && |Queue(s)| < s.n
    ensures Queue(Finished(s)) == Queue(s) + [s.dma.cur[..|s.dma.cur| - CRC_BYTES]]
  {
    RingClosed(s.n, s.cap, s.mem, Head(s), Queue(s), s.dma.cur);
    assert Queue(Finished(s)) == Queue(s) + [s.dma.cur[..|s.dma.cur| - CRC_BYTES]];
    assert At(s.n, Head(s), 0) == Head(s);
  }

  lemma FinishKeepsInv(s: State)
    requires Inv(s) && s.dma.Filling? && CRC_BYTES <= |s.dma.cur|
    ensures Inv(Finished(s)) && |Queue(s)| < s.n
    ensures Queue(Finished(s)) == Queue(s) + [s.dma.cur[..|s.dma.cur| - CRC_BYTES]]
  {
    FinishKeepsRing(s);
  }

  lemma WriteKeepsInv(s: State, b: Byte)
    requires Inv(s) && s.dma.Filling? && |s.dma.cur| < s.cap
    ensures Inv(Written(s, b)) && Queue(Written(s, b)) == Queue(s)
  {
    RingPut(s.n, s.cap, s.mem, Head(s), Queue(s), s.fill, |s.dma.cur|, b);
  }

  lemma DmaKeepsInv(s: State, t: State)
    requires Inv(s) && DmaStep(s, t, true)
    ensures Inv(t) && t.log == s.log
    ensures Queue(t) == Queue(s) || (|Queue(s)| < s.n && exists f :: Queue(t) == Queue(s) + [f])
  {
    if s.dma.Filling? {
      if |s.dma.cur| >= CRC_BYTES && t == Finished(s) {
        FinishKeepsInv(s);
      } else if t != s.(dma := Fetch) {
        var b: Byte :| t == Written(s, b);
        WriteKeepsInv(s, b);
      }
    }
  }

  lemma ReleaseKeepsRing(s: State, t: State)
    requires RingInv(s) && s.pc.Release? && CpuStep(s, t) && 0 < |Queue(s)|
    ensures RingInv(t) && Queue(t) == Queue(s)[1..]
  {
    RingReleased(s.n, s.cap, s.mem, s.held, Queue(s));
    assert Queue(t) == Queue(s)[1..];
    AtNext(s.n, s.held);
  }

  lemma ReleaseKeepsDmaInv(s: State, t: State)
    requires Wf(s) && DmaInv(s) && s.pc.Release? && CpuStep(s, t)
    ensures Wf(t) && DmaInv(t)
  {
  }

  lemma ReleaseKeepsLog(s: State, t: State)
    requires Wf(s) && |s.log| < |s.completed| && LogInv(s) && CpuInv(s) && s.pc.Release? && CpuStep(s, t)
    ensures |t.log| <= |t.completed| && LogInv(t) && CpuInv(t)
  {
  }

  lemma ReleaseKeepsInv(s: State, t: State)
    requires Inv(s) && s.pc.Release? && CpuStep(s, t)
    ensures Inv(t) && 0 < |Queue(s)| && Queue(t) == Queue(s)[1..]
  {
    ReleaseKeepsRing(s, t);
    ReleaseKeepsDmaInv(s, t);
    ReleaseKeepsLog(s, t);
  }

  /** Before the release the head stays where it is, the cursor at it or one place on. */
  lemma CpuKeepsHead(s: State, t: State)
    requires Wf(s) && !s.pc.Release? && CpuStep(s, t)
    requires (s.pc.Advance? ==> s.held == s.get) && (InFlight(s.pc) ==> s.get == Next(s.n, s.held))
    ensures Head(t) == Head(s) && (InFlight(t.pc) ==> t.get == Next(t.n, t.held))
    ensures t.get < t.n && t.held < t.n
  {
  }

  lemma CpuKeepsRest(s: State, t: State)
    requires Wf(s) && !s.pc.Release? && CpuStep(s, t)
    ensures t.n == s.n && t.cap == s.cap && t.mem == s.mem && t.fill == s.fill
    ensures t.completed == s.completed && t.log == s.log
  {
  }

  lemma CpuKeepsRing(s: State, t: State)
    requires Inv(s) && !s.pc.Release? && CpuStep(s, t)
    ensures RingInv(t) && Queue(t) == Queue(s) && t.mem == s.mem && t.log == s.log && t.completed == s.completed
  {
    CpuKeepsHead(s, t);
    CpuKeepsRest(s, t);
  }

  lemma CpuKeepsCpuInv(s: State, t: State)
    requires Inv(s) && !s.pc.Release? && CpuStep(s, t)
    requires t.log == s.log && t.completed == s.completed
    ensures CpuInv(t)
  {
    assert At(s.n, Head(s), 0) == Head(s);
  }

  lemma CpuKeepsDmaInv(s: State, t: State)
    requires Inv(s) && !s.pc.Release? && CpuStep(s, t)
    requires Wf(t) && t.mem == s.mem
    ensures DmaInv(t)
  {
  }

  lemma CpuKeepsInv(s: State, t: State)
    requires Inv(s) && CpuStep(s, t)
    ensures Inv(t) && t.completed == s.completed
    ensures if s.pc.Release? then
        0 < |Queue(s)| && Queue(t) == Queue(s)[1..] && t.log == s.log + [s.copied]
      else
        Queue(t) == Queue(s) && t.log == s.log
  {
    if s.pc.Release? {
      ReleaseKeepsInv(s, t);
    } else {
      CpuKeepsRing(s, t);
      CpuKeepsCpuInv(s, t);
      CpuKeepsDmaInv(s, t);
    }
  }

  // ---------------------------------------------------------------- theorems about every run

  lemma {:induction false} RunKeepsInv(trace: seq<State>, i: nat)
    requires Run(trace, true) && i < |trace|
    ensures Inv(trace[i])
  {
    if i == 0 {
      InitInv(trace[0]);
    } else {
      RunKeepsInv(trace, i - 1);
      var s, t := trace[i - 1], trace[i];
      assert Step(s, trace[i - 1 + 1], true);
      if CpuStep(s, t) { CpuKeepsInv(s, t); } else { DmaKeepsInv(s, t); }
    }
  }

  /** Every reachable state, under any interleaving, satisfies the invariant. */
  lemma ReachableInv(s: State)
    requires Reachable(s, true)
    ensures Inv(s)
  {
    var trace :| Run(trace, true) && trace[|trace| - 1] == s;
    RunKeepsInv(trace, |trace| - 1);
  }

  /** Frames found in memory by walking the chain from `i` while the descriptor is the CPU's. */
  ghost function Walk(n: nat, mem: Memory, i: nat, max: nat): seq<Frame>
    requires i < n == |mem.own| == |mem.fl| == |mem.buf|
    requires forall j | 0 <= j < n :: !mem.own[j] ==> CRC_BYTES <= mem.fl[j] <= |mem.buf[j]| + CRC_BYTES
    decreases max
  {
    if max == 0 || mem.own[i] then []
    else [mem.buf[i][..mem.fl[i] - CRC_BYTES]] + Walk(n, mem, Next(n, i), max - 1)
  }

  lemma RingLengths(n: nat, cap: nat, mem: Memory, head: nat, queue: seq<Frame>)
    requires Ring(n, cap, mem, head, queue)
    ensures forall j | 0 <= j < n :: !mem.own[j] ==> CRC_BYTES <= mem.fl[j] <= cap
  {
    forall j | 0 <= j < n && !mem.own[j]
      ensures CRC_BYTES <= mem.fl[j] <= cap
    {
      assert At(n, head, Distance(n, head, j)) == j;
    }
  }

  lemma {:induction false} WalkIsQueue(n: nat, cap: nat, mem: Memory, head: nat, queue: seq<Frame>, d: nat)
    requires Ring(n, cap, mem, head, queue) && d <= |queue|
    requires forall j | 0 <= j < n :: !mem.own[j] ==> CRC_BYTES <= mem.fl[j] <= cap
    ensures Walk(n, mem, At(n, head, d), n - d) == queue[d..]
    decreases n - d
  {
    if d < |queue| {
      WalkIsQueue(n, cap, mem, head, queue, d + 1);
      assert Next(n, At(n, head, d)) == At(n, head, d + 1);
      assert Holds(cap, mem, At(n, head, d), queue[d]) && !mem.own[At(n, head, d)];
      assert mem.buf[At(n, head, d)][..mem.fl[At(n, head, d)] - CRC_BYTES] == queue[d];
      assert queue[d..] == [queue[d]] + queue[d + 1..];
    } else if d < n {
      assert mem.own[At(n, head, d)];
    }
  }

  lemma WalkRing(n: nat, cap: nat, mem: Memory, head: nat, queue: seq<Frame>)
    requires Ring(n, cap, mem, head, queue)
    ensures forall j | 0 <= j < n :: !mem.own[j] ==> CRC_BYTES <= mem.fl[j] <= cap
    ensures Walk(n, mem, head, n) == queue
  {
    RingLengths(n, cap, mem, head, queue);
    WalkIsQueue(n, cap, mem, head, queue, 0);
    assert queue[0..] == queue;
  }

  /** Nothing is lost, duplicated or reordered: in every reachable state the frames consumed so far,
    * followed by the frames that a walk of the ring finds, are the frames the DMA completed. */
  lemma FramesConserved(s: State)
    requires Reachable(s, true)
    ensures Wf(s) && Head(s) < s.n && |s.log| <= |s.completed|
    ensures forall j | 0 <= j < s.n :: !s.mem.own[j] ==> 4 <= s.mem.fl[j] <= s.cap
    ensures s.completed == s.completed[..|s.log|] + Walk(s.n, s.mem, Head(s), s.n)
    ensures forall k | 0 <= k < |s.log| :: s.log[k] == Dropped || s.log[k] == Delivered(s.completed[k])
  {
    ReachableInv(s);
    WalkRing(s.n, s.cap, s.mem, Head(s), Queue(s));
  }

  /** Each protocol step is a step of the bounded FIFO; only the DMA appends, only the CPU removes. */
  lemma RefinesFifo(s: State, t: State)
    requires Reachable(s, true) && Wf(s) && Step(s, t, true)
    ensures |s.log| <= |s.completed| && |t.log| <= |t.completed|
    ensures
      || Queue(t) == Queue(s)
      || (|Queue(s)| < s.n && DmaStep(s, t, true) && exists f :: Queue(t) == Queue(s) + [f])
      || (0 < |Queue(s)| && CpuStep(s, t) && Queue(t) == Queue(s)[1..] && t.log == s.log + [s.copied])
  {
    ReachableInv(s);
    if CpuStep(s, t) { CpuKeepsInv(s, t); } else { DmaKeepsInv(s, t); }
  }

  /** No lost wake-up: a suspended DMA waits for a descriptor that is still the CPU's, or the CPU is
    * on its way from the OWN write to the poll demand and will write it. */
  lemma NoLostWakeup(s: State)
    requires Reachable(s, true) && s.dma.Suspended?
    ensures Wf(s)
    ensures s.mem.own[s.fill] ==> (s.pc.TestRbus? && s.rbus) || (s.pc.ClearRbus? && s.rbus) || s.pc.Poll?
  {
    ReachableInv(s);
  }

  /** When the drain loop stops because the head is not ready, the DMA is not suspended and every
    * descriptor is the DMA's: whatever arrives next has somewhere to go. */
  lemma DrainedMeansAwake(s: State)
    requires Reachable(s, true) && s.pc.Guard? && Wf(s) && !Ready(s)
    ensures !s.dma.Suspended? && !s.rbus && |s.log| == |s.completed|
    ensures forall j | 0 <= j < s.n :: s.mem.own[j]
  {
    ReachableInv(s);
    assert At(s.n, s.get, 0) == s.get;
    assert Queue(s) == [];
    forall j | 0 <= j < s.n
      ensures s.mem.own[j]
    {
      assert At(s.n, s.get, Distance(s.n, s.get, j)) == j;
    }
  }

  /** Ownership is two contiguous arcs: exactly the first `|Queue|` descriptors from `Head` on are the
    * CPU's, and the DMA cursor stands where they end. */
  lemma OwnershipArcs(s: State, j: nat)
    requires Reachable(s, true) && j < s.n
    ensures Wf(s) && Head(s) < s.n && |s.log| <= |s.completed| <= |s.log| + s.n
    ensures s.mem.own[j] <==> |Queue(s)| <= Distance(s.n, Head(s), j)
    ensures s.fill == At(s.n, Head(s), |Queue(s)|)
    ensures s.get == if InFlight(s.pc) then Next(s.n, Head(s)) else Head(s)
  {
    ReachableInv(s);
    assert At(s.n, Head(s), Distance(s.n, Head(s), j)) == j;
  }

  lemma DmaLeavesCpus(s: State, t: State, d: nat)
    requires Wf(s) && DmaStep(s, t, true) && d < s.n && !s.mem.own[d]
    requires s.dma.Filling? ==> s.mem.own[s.fill]
    ensures Wf(t) && !t.mem.own[d] && t.mem.buf[d] == s.mem.buf[d] && t.mem.fl[d] == s.mem.fl[d]
  {
  }

  /** From the guard on until the descriptor is given back, the CPU owns what it works on, although
    * the cursor moves first; nothing the DMA does in between changes the bytes or the length. */
  lemma NoReadWhileDmaOwns(s: State, t: State)
    requires Reachable(s, true) && Working(s.pc)
    requires Wf(s) && DmaStep(s, t, true)
    ensures var d := Head(s);
      && d < s.n && !s.mem.own[d] && Wf(t)
      && !t.mem.own[d] && t.mem.buf[d] == s.mem.buf[d] && t.mem.fl[d] == s.mem.fl[d]
  {
    ReachableInv(s);
    assert At(s.n, Head(s), 0) == Head(s);
    DmaLeavesCpus(s, t, Head(s));
  }

  /** The copy loop stops after exactly the frame's bytes and never reads past the buffer. */
  lemma CopyInBounds(s: State)
    requires Reachable(s, true) && s.pc.Copy?
    ensures Wf(s) && s.copied.Delivered?
    ensures |s.copied.frame| <= s.len == s.mem.fl[s.held] - 4 <= s.cap - 4
    ensures s.copied.frame == s.mem.buf[s.held][..|s.copied.frame|]
  {
    ReachableInv(s);
    assert At(s.n, Head(s), 0) == Head(s);
    assert Holds(s.cap, s.mem, At(s.n, s.held, 0), Queue(s)[0]);
  }

  /** The guard of the drain loop makes the branch with the null descriptor unreachable. */
  lemma NullBranchUnreachable(s: State)
    requires Reachable(s, true)
    ensures !NullBranch(s.pc)
  {
    ReachableInv(s);
  }

  // ---------------------------------------------------------------- one call, undisturbed

  /** CPU steps only: the DMA is quiet. */
  ghost predicate Alone(path: seq<State>) {
    0 < |path| && forall i | 0 <= i < |path| - 1 :: Wf(path[i]) && CpuStep(path[i], path[i + 1])
  }

  lemma Go(path: seq<State>, t: State) returns (longer: seq<State>)
    requires Alone(path) && Wf(path[|path| - 1]) && CpuStep(path[|path| - 1], t)
    ensures longer == path + [t] && Alone(longer) && longer[0] == path[0] && longer[|longer| - 1] == t
  {
    longer := path + [t];
  }

  /** From the guard to the point where the pbuf is complete or there was no memory for one. */
  lemma TakeAlone(s: State, memory: bool) returns (path: seq<State>)
    requires Inv(s) && s.pc.Guard? && Ready(s)
    ensures 0 < |Queue(s)| && Alone(path) && path[0] == s
    ensures var f := Queue(s)[0];
      path[|path| - 1] == s.(pc := Release, get := Next(s.n, s.get), held := s.get, len := |f|,
                             copied := if memory then Delivered(f) else Dropped)
  {
    assert At(s.n, s.get, 0) == s.get;
    var f := Queue(s)[0];
    assert Holds(s.cap, s.mem, s.get, f);
    path := Go([s], s.(pc := TestOwn));
    path := Go(path, s.(pc := Latch));
    path := Go(path, s.(pc := Advance, len := |f|, held := s.get));
    var a := s.(pc := Alloc, len := |f|, held := s.get, get := Next(s.n, s.get));
    path := Go(path, a);
    if memory {
      path := Go(path, a.(pc := Copy, copied := Delivered([])));
      var l := 0;
      while l < |f|
        invariant l <= |f| && Alone(path) && path[0] == s
        invariant path[|path| - 1] == a.(pc := Copy, copied := Delivered(f[..l]))
      {
        assert f[..l] + [s.mem.buf[s.get][l]] == f[..l + 1];
        path := Go(path, a.(pc := Copy, copied := Delivered(f[..l + 1])));
        l := l + 1;
      }
      assert f[..l] == f;
      path := Go(path, a.(pc := Release, copied := Delivered(f)));
    } else {
      path := Go(path, a.(pc := Release, copied := Dropped));
    }
  }

  /** What one turn does: the oldest frame is logged, its descriptor goes back, the cursor moves one place,
    * the flag ends clear, and a DMA that was suspended with the flag up is awake. */
  ghost predicate OneTurn(s: State, t: State, memory: bool)
    requires Wf(s) && |s.log| < |s.completed|
  {
    && t.n == s.n && t.cap == s.cap && t.pc.Guard? && t.get == Next(s.n, s.get) && t.mem == GivenBack(s.mem, s.get)
    && t.log == s.log + [if memory then Delivered(Queue(s)[0]) else Dropped] && t.completed == s.completed
    && !t.rbus && t.dma == (if s.rbus then Polled(s.dma) else s.dma) && t.fill == s.fill
  }

  /** One turn of the drain loop that the DMA does not disturb. */
  lemma TurnAlone(s: State, memory: bool) returns (path: seq<State>)
    requires Inv(s) && s.pc.Guard? && Ready(s)
    ensures 0 < |Queue(s)| && Alone(path) && path[0] == s && OneTurn(s, path[|path| - 1], memory)
  {
    path := TakeAlone(s, memory);
    var r := path[|path| - 1];
    var t := r.(pc := TestRbus, mem := GivenBack(s.mem, s.get), log := s.log + [r.copied]);
    path := Go(path, t);
    if s.rbus {
      path := Go(path, t.(pc := ClearRbus));
      path := Go(path, t.(pc := Poll, rbus := false));
      path := Go(path, t.(pc := Guard, rbus := false, dma := Polled(s.dma)));
    } else {
      path := Go(path, t.(pc := Guard));
    }
  }

  lemma {:induction false} AloneKeepsInv(path: seq<State>, i: nat)
    requires Alone(path) && Inv(path[0]) && i < |path|
    ensures Inv(path[i])
  {
    if i == 0 {
    } else {
      AloneKeepsInv(path, i - 1);
      assert CpuStep(path[i - 1], path[i - 1 + 1]);
      CpuKeepsInv(path[i - 1], path[i]);
    }
  }

  lemma {:induction false} AloneStaysReachable(path: seq<State>, i: nat)
    requires Alone(path) && Reachable(path[0], true) && i < |path|
    ensures Reachable(path[i], true)
  {
    if i == 0 {
    } else {
      AloneStaysReachable(path, i - 1);
      assert CpuStep(path[i - 1], path[i - 1 + 1]);
      var trace :| Run(trace, true) && trace[|trace| - 1] == path[i - 1];
      Extend(trace, path[i], true);
      assert (trace + [path[i]])[|trace|] == path[i];
    }
  }

  lemma Joined(path: seq<State>, more: seq<State>) returns (longer: seq<State>)
    requires Alone(path) && Alone(more) && path[|path| - 1] == more[0]
    ensures Alone(longer) && longer[0] == path[0] && longer[|longer| - 1] == more[|more| - 1]
  {
    longer := path[..|path| - 1] + more;
  }

  /** What becomes of the first frames of a queue; `memory[k]` says whether there is a pbuf for the k-th. */
  function Outcomes(queue: seq<Frame>, memory: seq<bool>): (r: seq<Outcome>)
    requires |memory| <= |queue|
    ensures |r| == |memory|
    ensures forall k | 0 <= k < |memory| :: r[k] == if memory[k] then Delivered(queue[k]) else Dropped
  {
    seq(|memory|, k requires 0 <= k < |memory| => if memory[k] then Delivered(queue[k]) else Dropped)
  }

  /** The memory after `k` descriptors from `head` on were given back. */
  function Returned(mem: Memory, head: nat, k: nat): (r: Memory)
    requires head < |mem.own| == |mem.fl| && k <= |mem.own|
    ensures |r.own| == |r.fl| == |mem.own|
  {
    if k == 0 then mem else GivenBack(Returned(mem, head, k - 1), At(|mem.own|, head, k - 1))
  }

  /** From `s`, standing at the guard, as many turns as `memory` has entries lead to `t`. */
  ghost predicate Turned(s: State, t: State, memory: seq<bool>)
    requires Wf(s) && |s.log| <= |s.completed| && |memory| <= |Queue(s)| <= s.n
  {
    var k := |memory|;
    && t.n == s.n && t.cap == s.cap && t.pc.Guard? && t.fill == s.fill && t.completed == s.completed
    && t.mem == Returned(s.mem, s.get, k) && t.get == At(s.n, s.get, k)
    && t.log == s.log + Outcomes(Queue(s), memory)
    && t.rbus == (s.rbus && k == 0) && t.dma == if s.rbus && 0 < k then Polled(s.dma) else s.dma
  }

  lemma TurnedOnce(s: State, t: State, u: State, memory: seq<bool>, more: bool)
    requires Wf(s) && |s.log| <= |s.completed| && |memory| < |Queue(s)| <= s.n
    requires Turned(s, t, memory) && Wf(t) && |t.log| < |t.completed| && OneTurn(t, u, more)
    ensures Turned(s, u, memory + [more])
  {
    assert Queue(t)[0] == Queue(s)[|memory|];
    assert Outcomes(Queue(s), memory + [more])
        == Outcomes(Queue(s), memory) + [if more then Delivered(Queue(t)[0]) else Dropped];
  }

  lemma QueueMakesReady(s: State)
    requires Inv(s) && s.pc.Guard? && 0 < |Queue(s)|
    ensures Ready(s)
  {
    assert At(s.n, s.get, 0) == s.get;
    assert Holds(s.cap, s.mem, At(s.n, s.get, 0), Queue(s)[0]);
  }

  lemma TurnMore(s: State, path: seq<State>, memory: seq<bool>, more: bool) returns (longer: seq<State>)
    requires Inv(s) && Alone(path) && path[0] == s
    requires |memory| < |Queue(s)| && Turned(s, path[|path| - 1], memory)
    ensures Alone(longer) && longer[0] == s && Turned(s, longer[|longer| - 1], memory + [more])
  {
    var t := path[|path| - 1];
    AloneKeepsInv(path, |path| - 1);
    QueueMakesReady(t);
    var turn := TurnAlone(t, more);
    TurnedOnce(s, t, turn[|turn| - 1], memory, more);
    longer := Joined(path, turn);
  }

  /** The whole drain loop, undisturbed, whatever the pool answers: every waiting frame is logged in order,
    * its descriptor given back, and the guard fails. */
  lemma DrainAlone(s: State, memory: seq<bool>) returns (path: seq<State>)
    requires Inv(s) && s.pc.Guard? && |memory| == |Queue(s)|
    ensures Alone(path) && path[0] == s
    ensures var t := path[|path| - 1]; Turned(s, t, memory) && Inv(t) && !Ready(t)
  {
    path := TurnAll(s, memory);
    AloneKeepsInv(path, |path| - 1);
    NothingWaits(path[|path| - 1]);
  }

  lemma TurnedNone(s: State)
    requires Wf(s) && s.pc.Guard? && |s.log| <= |s.completed| && |Queue(s)| <= s.n
    ensures Turned(s, s, [])
  {
    assert Outcomes(Queue(s), []) == [];
  }

  lemma TurnLast(s: State, path: seq<State>, memory: seq<bool>) returns (longer: seq<State>)
    requires Inv(s) && Alone(path) && path[0] == s
    requires 0 < |memory| <= |Queue(s)| && Turned(s, path[|path| - 1], memory[..|memory| - 1])
    ensures Alone(longer) && longer[0] == s && Turned(s, longer[|longer| - 1], memory)
  {
    longer := TurnMore(s, path, memory[..|memory| - 1], memory[|memory| - 1]);
    assert memory[..|memory| - 1] + [memory[|memory| - 1]] == memory;
  }

  lemma {:induction false} TurnAll(s: State, memory: seq<bool>) returns (path: seq<State>)
    requires Inv(s) && s.pc.Guard? && |memory| <= |Queue(s)|
    ensures Alone(path) && path[0] == s && Turned(s, path[|path| - 1], memory)
    decreases |memory|
  {
    if memory == [] {
      path := [s];
      TurnedNone(s);
    } else {
      path := TurnAll(s, memory[..|memory| - 1]);
      path := TurnLast(s, path, memory);
    }
  }

  lemma NothingWaits(t: State)
    requires Inv(t) && t.pc.Guard? && |t.log| == |t.completed|
    ensures !Ready(t)
  {
    assert At(t.n, t.get, 0) == t.get;
  }

  /** The other half of `NoLostWakeup`: from such a state the CPU, left alone, reaches the poll demand, and
    * the DMA looks at its descriptor again. */
  lemma WakeupArrives(s: State) returns (path: seq<State>)
    requires Reachable(s, true) && s.dma.Suspended? && Wf(s) && s.mem.own[s.fill]
    ensures Alone(path) && path[0] == s && path[|path| - 1] == s.(pc := Guard, rbus := false, dma := Fetch)
  {
    NoLostWakeup(s);
    ReachableInv(s);
    path := [s];
    if s.pc.TestRbus? {
      path := Go(path, s.(pc := ClearRbus));
    }
    if !s.pc.Poll? {
      path := Go(path, s.(pc := Poll, rbus := false));
    }
    path := Go(path, s.(pc := Guard, rbus := false, dma := Fetch));
  }

  // ---------------------------------------------------------------- what it rests on

  /** A run in which the DMA completes one frame and then finds the ring full, up to the point where
    * it has read the clear OWN bit and not yet suspended. */
  lemma RunToStall() returns (trace: seq<State>)
    ensures Run(trace, false)
    ensures trace[|trace| - 1] == State(1, 4, Memory([false], [4], [[0, 0, 0, 0]]), 0, Guard, 0, 0, Dropped, false,
        Stalling, 0, [[]], [])
  {
    var s0 := State(1, 4, Memory([true], [0], [[0, 0, 0, 0]]), 0, Guard, 0, 0, Dropped, false, Fetch, 0, [], []);
    trace := [s0];
    var s := s0.(dma := Filling([]));
    Extend(trace, s, false);
    trace := trace + [s];
    while |s.dma.cur| < 4
      invariant Run(trace, false) && trace[|trace| - 1] == s
      invariant s.dma.Filling? && |s.dma.cur| <= 4 && s.dma.cur == [0, 0, 0, 0][..|s.dma.cur|]
      invariant s == s0.(dma := s.dma)
    {
      var t := Written(s, 0);
      assert t.mem.buf[0] == [0, 0, 0, 0];
      Extend(trace, t, false);
      trace := trace + [t];
      s := t;
    }
    var t := Finished(s);
    Extend(trace, t, false);
    trace := trace + [t];
    s := t.(dma := Stalling);
    Extend(trace, s, false);
    trace := trace + [s];
  }

  /** All this rests on the DMA testing OWN and suspending in one step. If the CPU could run in
    * between, a run exists that ends with the DMA asleep over a descriptor it owns for good. */
  lemma LostWakeupIfNotAtomic() returns (trace: seq<State>)
    ensures Run(trace, false)
    ensures var s := trace[|trace| - 1];
      && Wf(s) && s.dma.Suspended? && s.mem.own[s.fill] && s.pc.Guard?
      && forall t | Step(s, t, false) :: t == s
  {
    trace := RunToStall();
    var s7 := trace[|trace| - 1];
    var s8 := s7.(pc := TestOwn);
    Extend(trace, s8, false);
    trace := trace + [s8];
    var s9 := s8.(pc := Latch);
    Extend(trace, s9, false);
    trace := trace + [s9];
    var s10 := s9.(pc := Advance);
    Extend(trace, s10, false);
    trace := trace + [s10];
    var s11 := s10.(pc := Alloc);
    Extend(trace, s11, false);
    trace := trace + [s11];
    var s12 := s11.(pc := Release);
    Extend(trace, s12, false);
    trace := trace + [s12];
    var s13 := s12.(pc := TestRbus, mem := GivenBack(s12.mem, 0), log := [Dropped]);
    Extend(trace, s13, false);
    trace := trace + [s13];
    var s14 := s13.(pc := Guard);
    Extend(trace, s14, false);
    trace := trace + [s14];
    var s := s14.(dma := Suspended, rbus := true);
    Extend(trace, s, false);
    trace := trace + [s];
  }
}
