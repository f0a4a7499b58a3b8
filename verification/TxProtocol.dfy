/** The transmit descriptor ring as a two-party protocol.
  *
  * The CPU runs `low_level_output`: it gathers the pbuf chain into the buffer under its cursor, byte by
  * byte, and only then does `ETH_TxPkt_ChainMode` test the OWN bit. The DMA engine reads the bytes of
  * the descriptors it owns one at a time and sends them.
  */
module TxProtocol {
  import opened Chain
  import opened Words

  /** OWN bit, first-and-last-segment bits, buffer size field, bytes. */
  datatype Memory = Memory(own: seq<bool>, seg: seq<bool>, size: seq<nat>, buf: seq<seq<Byte>>)

  datatype Pc =
    | Idle | Gather | TestOwn | SetSize | SetSegments | SetOwn | TestTbus | ClearTbus | Poll | Advance

  datatype Dma = Fetch | Reading(cur: seq<Byte>) | Suspended

  datatype State = State(
    n: nat,                       // descriptors in the ring
    cap: nat,                     // bytes in one buffer
    mem: Memory,
    toSet: nat,                   // DMATxDescToSet
    pc: Pc,
    msg: Frame,                   // the bytes of the pbuf chain being sent
    l: nat,                       // bytes gathered so far
    tbus: bool,
    dma: Dma,
    send: nat,                    // the DMA's own cursor
    accepted: seq<Frame>,         // history: frames handed to the DMA
    rejected: seq<Frame>,         // history: frames refused because the head was the DMA's
    sent: seq<Frame>)             // history: byte strings the DMA sent

  ghost predicate MemWf(n: nat, cap: nat, mem: Memory) {
    && 0 < n
    && |mem.own| == |mem.seg| == |mem.size| == |mem.buf| == n
    && (forall i | 0 <= i < n :: |mem.buf[i]| == cap)
  }

  ghost predicate Wf(s: State) {
    && MemWf(s.n, s.cap, s.mem) && s.cap < TBS1
    && s.toSet < s.n && s.send < s.n && s.l <= |s.msg| <= s.cap
  }

  ghost predicate Init(s: State) {
    && Wf(s)
    && (forall i | 0 <= i < s.n :: !s.mem.own[i])
    && s.toSet == 0 && s.send == 0 && s.pc == Idle
    && !s.tbus && s.dma == Fetch && s.accepted == [] && s.rejected == [] && s.sent == []
  }

  // ---------------------------------------------------------------- steps

  function Polled(dma: Dma): Dma {
    if dma.Suspended? then Fetch else dma
  }

  function Owned(mem: Memory, i: nat, owned: bool): Memory
    requires i < |mem.own|
  {
    mem.(own := mem.own[i := owned])
  }

  /** A step of `low_level_output`. With `disciplined`, callers send only while the head descriptor is
    * the CPU's. The frame must fit the buffer; the code does not test that. */
  ghost predicate CpuStep(s: State, t: State, disciplined: bool)
    requires Wf(s)
  {
    match s.pc
    case Idle =>
      && (disciplined ==> !s.mem.own[s.toSet])
      && |t.msg| <= s.cap && t == s.(pc := Gather, msg := t.msg, l := 0)
    case Gather =>
      if s.l < |s.msg| then t == s.(mem := s.mem.(buf := PutByte(s.mem.buf, s.toSet, s.l, s.msg[s.l])), l := s.l + 1)
      else t == s.(pc := TestOwn)
    case TestOwn =>
      if s.mem.own[s.toSet] then t == s.(pc := Idle, rejected := s.rejected + [s.msg])
      else t == s.(pc := SetSize)
    case SetSize =>
      t == s.(pc := SetSegments, mem := s.mem.(size := s.mem.size[s.toSet := |s.msg| % TBS1]))
    case SetSegments => t == s.(pc := SetOwn, mem := s.mem.(seg := s.mem.seg[s.toSet := true]))
    case SetOwn =>
      t == s.(pc := TestTbus, mem := Owned(s.mem, s.toSet, true), accepted := s.accepted + [s.msg])
    case TestTbus => t == s.(pc := if s.tbus then ClearTbus else Advance)
    case ClearTbus => t == s.(pc := Poll, tbus := false)
    case Poll => t == s.(pc := Advance, dma := Polled(s.dma))
    case Advance => t == s.(pc := Idle, toSet := Next(s.n, s.toSet))
  }

  ghost predicate DmaStep(s: State, t: State)
    requires Wf(s)
  {
    match s.dma
    case Fetch =>
      t == if s.mem.own[s.send] then s.(dma := Reading([])) else s.(dma := Suspended, tbus := true)
    case Reading(cur) =>
      if |cur| < s.mem.size[s.send] then
        |cur| < s.cap && t == s.(dma := Reading(cur + [s.mem.buf[s.send][|cur|]]))
      else
        t == Finished(s)
    case Suspended => false
  }

  function Finished(s: State): State
    requires s.dma.Reading? && s.send < s.n == |s.mem.own|
  {
    s.(mem := Owned(s.mem, s.send, false), send := Next(s.n, s.send), dma := Fetch, sent := s.sent + [s.dma.cur])
  }

  ghost predicate Step(s: State, t: State, disciplined: bool)
    requires Wf(s)
  {
    CpuStep(s, t, disciplined) || DmaStep(s, t)
  }

  /** Any interleaving of CPU and DMA steps. */
  ghost predicate Path(path: seq<State>, disciplined: bool) {
    0 < |path| && forall i | 0 <= i < |path| - 1 :: Wf(path[i]) ==> Step(path[i], path[i + 1], disciplined)
  }

  /** A run: such an interleaving from an initial state. */
  ghost predicate Run(trace: seq<State>, disciplined: bool) {
    Path(trace, disciplined) && Init(trace[0])
  }

  ghost predicate Reachable(s: State, disciplined: bool) {
    exists trace :: Run(trace, disciplined) && trace[|trace| - 1] == s
  }

  /** Steps stay inside the arrays. */
  lemma StepKeepsWf(s: State, t: State, disciplined: bool)
    requires Wf(s) && Step(s, t, disciplined)
    ensures Wf(t)
  {
  }

  /** So no run is cut short by the guard in `Path`. */
  lemma {:induction false} PathKeepsWf(path: seq<State>, i: nat, disciplined: bool)
    requires Path(path, disciplined) && Wf(path[0]) && i < |path|
    ensures Wf(path[i])
  {
    if i == 0 {
    } else {
      PathKeepsWf(path, i - 1, disciplined);
      assert Step(path[i - 1], path[i - 1 + 1], disciplined);
      StepKeepsWf(path[i - 1], path[i], disciplined);
    }
  }

  lemma Extend(trace: seq<State>, t: State, disciplined: bool)
    requires Run(trace, disciplined)
    requires var s := trace[|trace| - 1]; Wf(s) && Step(s, t, disciplined)
    ensures Run(trace + [t], disciplined)
  {
  }

  lemma {:induction false} PathStaysReachable(path: seq<State>, i: nat, disciplined: bool)
    requires Path(path, disciplined) && Reachable(path[0], disciplined) && i < |path|
    ensures Reachable(path[i], disciplined)
  {
    if i == 0 {
    } else {
      PathStaysReachable(path, i - 1, disciplined);
      var trace :| Run(trace, disciplined) && trace[|trace| - 1] == path[i - 1];
      PathKeepsWf(trace, |trace| - 1, disciplined);
      assert Step(path[i - 1], path[i - 1 + 1], disciplined);
      Extend(trace, path[i], disciplined);
      assert (trace + [path[i]])[|trace|] == path[i];
    }
  }

  // ---------------------------------------------------------------- the ring

  /** Seen from the DMA cursor: `count` descriptors the DMA owns, then only the CPU's. */
  ghost predicate Arcs(n: nat, own: seq<bool>, send: nat, count: nat) {
    && send < n == |own| && count <= n
    && (forall d: nat | d < count :: own[At(n, send, d)])
    && (forall d: nat | count <= d < n :: !own[At(n, send, d)])
  }

  /** Size and segment bits of the descriptors that wait to be sent. */
  ghost predicate Sizes(n: nat, cap: nat, mem: Memory, send: nat, queue: seq<Frame>) {
    && MemWf(n, cap, mem) && send < n && |queue| <= n
    && (forall d: nat | d < |queue| ::
          mem.seg[At(n, send, d)] && mem.size[At(n, send, d)] == |queue[d]| <= cap)
  }

  /** From byte `read` on, `bytes` begins with `f`. */
  ghost predicate Unread(bytes: seq<Byte>, f: Frame, read: nat) {
    read <= |f| <= |bytes| && forall k | read <= k < |f| :: bytes[k] == f[k]
  }

  /** The bytes that wait to be sent; of the first frame the DMA has read `read` already. */
  ghost predicate Bytes(n: nat, cap: nat, mem: Memory, send: nat, queue: seq<Frame>, read: nat) {
    && MemWf(n, cap, mem) && send < n && |queue| <= n
    && (forall d: nat | d < |queue| :: Unread(mem.buf[At(n, send, d)], queue[d], if d == 0 then read else 0))
  }

  lemma Dequeued(n: nat, cap: nat, mem: Memory, send: nat, queue: seq<Frame>)
    requires Arcs(n, mem.own, send, |queue|) && Sizes(n, cap, mem, send, queue) && 0 < |queue|
    ensures Arcs(n, mem.own[send := false], Next(n, send), |queue| - 1)
    ensures Sizes(n, cap, Owned(mem, send, false), Next(n, send), queue[1..])
    ensures Bytes(n, cap, mem, send, queue, |queue[0]|) ==>
        Bytes(n, cap, Owned(mem, send, false), Next(n, send), queue[1..], 0)
  {
    AtNext(n, send);
    assert At(n, send, 0) == send;
  }

  // ---------------------------------------------------------------- the invariant

  /** The abstract FIFO: frames accepted and not yet sent. */
  function Queue(s: State): seq<Frame>
    requires |s.sent| <= |s.accepted|
  {
    s.accepted[|s.sent|..]
  }

  /** Between the OWN write and the cursor move. */
  predicate Handed(pc: Pc) { pc.TestTbus? || Waking(pc) || pc.Advance? }

  predicate Waking(pc: Pc) { pc.ClearTbus? || pc.Poll? }

  /** Between the OWN test and the OWN write. */
  predicate Filling(pc: Pc) { pc.SetSize? || pc.SetSegments? || pc.SetOwn? }

  /** The next descriptor the CPU has to fill. */
  function Tail(s: State): nat
    requires s.toSet < s.n
  {
    if Handed(s.pc) then Next(s.n, s.toSet) else s.toSet
  }

  ghost predicate RingInv(s: State) {
    && Wf(s) && |s.sent| <= |s.accepted| && |Queue(s)| <= s.n
    && Arcs(s.n, s.mem.own, s.send, |Queue(s)|)
    && Sizes(s.n, s.cap, s.mem, s.send, Queue(s))
    && Tail(s) == At(s.n, s.send, |Queue(s)|)
  }

  ghost predicate CpuInv(s: State)
    requires Wf(s) && |s.sent| <= |s.accepted|
  {
    && (Filling(s.pc) ==> |Queue(s)| < s.n)
    && (s.pc.SetSegments? || s.pc.SetOwn? ==> s.mem.size[s.toSet] == |s.msg|)
    && (s.pc.SetOwn? ==> s.mem.seg[s.toSet])
  }

  ghost predicate DmaInv(s: State)
    requires Wf(s)
  {
    && (s.dma.Reading? ==> s.mem.own[s.send] && |s.dma.cur| <= s.mem.size[s.send])
    && (s.dma.Suspended? <==> s.tbus || s.pc.Poll?)
    && (s.pc.ClearTbus? ==> s.tbus)
    && (s.pc.Poll? ==> !s.tbus)
    && (s.dma.Suspended? && s.mem.own[s.send] ==> s.pc.TestTbus? || Waking(s.pc))
  }

  /** Only lengths: this part needs nothing of the callers. */
  ghost predicate SentLengths(s: State)
    requires |s.sent| <= |s.accepted|
  {
    forall k | 0 <= k < |s.sent| :: |s.sent[k]| == |s.accepted[k]|
  }

  ghost predicate Inv(s: State) {
    RingInv(s) && CpuInv(s) && DmaInv(s) && SentLengths(s)
  }

  /** Bytes that the DMA has read of the frame it is about to send. */
  function Progress(dma: Dma): nat { if dma.Reading? then |dma.cur| else 0 }

  /** A call may write into the head's buffer: the descriptor is the CPU's, or the DMA has read it all. */
  ghost predicate Harmless(s: State)
    requires Wf(s)
  {
    !s.mem.own[s.toSet] || Progress(s.dma) == s.mem.size[s.send]
  }

  /** Holds in addition when every call starts while it is harmless. */
  ghost predicate ContentInv(s: State)
    requires Inv(s)
  {
    && Bytes(s.n, s.cap, s.mem, s.send, Queue(s), Progress(s.dma))
    && s.sent == s.accepted[..|s.sent|]
    && (s.dma.Reading? ==> 0 < |Queue(s)| && s.dma.cur <= Queue(s)[0])
    && (s.pc.Gather? ==> Harmless(s))
    && (s.pc.Gather? || s.pc.TestOwn? || Filling(s.pc) ==> s.msg[..s.l] <= s.mem.buf[s.toSet])
    && (s.pc.TestOwn? || Filling(s.pc) ==> s.l == |s.msg|)
  }

  lemma InitInv(s: State)
    requires Init(s)
    ensures Inv(s) && ContentInv(s)
  {
  }

  lemma FinishKeepsInv(s: State)
    requires Inv(s) && s.dma.Reading? && |s.dma.cur| == s.mem.size[s.send]
    ensures Inv(Finished(s)) && 0 < |Queue(s)| && Queue(Finished(s)) == Queue(s)[1..]
  {
    assert At(s.n, s.send, 0) == s.send;
    Dequeued(s.n, s.cap, s.mem, s.send, Queue(s));
    AtNext(s.n, s.send);
    assert Queue(Finished(s)) == Queue(s)[1..];
    assert s.accepted[|s.sent|] == Queue(s)[0];
    assert s.mem.size[At(s.n, s.send, 0)] == |Queue(s)[0]|;
  }

  lemma FinishKeepsContent(s: State)
    requires Inv(s) && ContentInv(s) && s.dma.Reading? && |s.dma.cur| == s.mem.size[s.send]
    requires Inv(Finished(s)) && 0 < |Queue(s)| && Queue(Finished(s)) == Queue(s)[1..]
    ensures ContentInv(Finished(s))
  {
    assert At(s.n, s.send, 0) == s.send;
    assert s.mem.size[At(s.n, s.send, 0)] == |Queue(s)[0]|;
    assert s.dma.cur == Queue(s)[0] == s.accepted[|s.sent|];
    Dequeued(s.n, s.cap, s.mem, s.send, Queue(s));
    assert s.accepted[..|s.sent| + 1] == s.sent + [s.dma.cur];
  }

  lemma ReadKeepsContent(s: State, t: State)
    requires Inv(s) && ContentInv(s) && DmaStep(s, t) && Inv(t) && Queue(t) == Queue(s)
    requires !(s.dma.Reading? && |s.dma.cur| == s.mem.size[s.send])
    ensures ContentInv(t)
  {
    assert At(s.n, s.send, 0) == s.send;
  }

  lemma DmaKeepsInv(s: State, t: State)
    requires Inv(s) && DmaStep(s, t)
    ensures Inv(t) && t.accepted == s.accepted && (ContentInv(s) ==> ContentInv(t))
    ensures Queue(t) == Queue(s) || (0 < |Queue(s)| && Queue(t) == Queue(s)[1..])
  {
    if s.dma.Reading? && |s.dma.cur| == s.mem.size[s.send] {
      FinishKeepsInv(s);
      if ContentInv(s) { FinishKeepsContent(s); }
    } else if ContentInv(s) {
      ReadKeepsContent(s, t);
    }
  }

  /** A full ring has the CPU cursor where the DMA's is. */
  lemma OwnedHeadIsFull(s: State)
    requires Inv(s) && (s.pc.Idle? || s.pc.Gather? || s.pc.TestOwn?) && s.mem.own[s.toSet]
    ensures |Queue(s)| == s.n && s.toSet == s.send
  {
  }

  lemma HandKeepsInv(s: State, t: State)
    requires Inv(s) && s.pc.SetOwn? && CpuStep(s, t, false)
    ensures Inv(t) && |Queue(s)| < s.n && Queue(t) == Queue(s) + [s.msg]
  {
    assert Queue(t) == Queue(s) + [s.msg];
  }

  lemma HandKeepsContent(s: State, t: State)
    requires Inv(s) && ContentInv(s) && s.pc.SetOwn? && CpuStep(s, t, false)
    requires Inv(t) && |Queue(s)| < s.n && Queue(t) == Queue(s) + [s.msg]
    ensures ContentInv(t)
  {
    assert s.msg[..|s.msg|] == s.msg;
  }

  lemma GatherKeepsInv(s: State, t: State)
    requires Inv(s) && s.pc.Gather? && CpuStep(s, t, false)
    ensures Inv(t) && Queue(t) == Queue(s)
  {
  }

  /** A descriptor being filled is past the queue, so writing its fields disturbs no waiting frame. */
  lemma FillKeepsInv(s: State, t: State)
    requires Inv(s) && (s.pc.SetSize? || s.pc.SetSegments?) && CpuStep(s, t, false)
    ensures Inv(t) && Queue(t) == Queue(s)
  {
    assert !s.mem.own[s.toSet];
  }

  lemma TestKeepsInv(s: State, t: State)
    requires Inv(s) && (s.pc.Idle? || s.pc.TestOwn?) && CpuStep(s, t, false)
    ensures Inv(t) && Queue(t) == Queue(s)
  {
    assert At(s.n, s.send, 0) == s.send;
  }

  lemma WakeKeepsInv(s: State, t: State)
    requires Inv(s) && Handed(s.pc) && CpuStep(s, t, false)
    ensures Inv(t) && Queue(t) == Queue(s)
  {
  }

  /** One more byte gathered: into a descriptor of the CPU's, or over a frame that is read already. */
  lemma GatherKeepsContent(s: State, t: State)
    requires Inv(s) && ContentInv(s) && s.pc.Gather? && CpuStep(s, t, false)
    requires Inv(t) && Queue(t) == Queue(s)
    ensures ContentInv(t)
  {
    assert At(s.n, s.send, 0) == s.send;
    if s.mem.own[s.toSet] {
      OwnedHeadIsFull(s);
      assert s.mem.size[At(s.n, s.send, 0)] == |Queue(s)[0]|;
    }
  }

  lemma FillKeepsContent(s: State, t: State)
    requires Inv(s) && ContentInv(s) && !s.pc.SetOwn? && !s.pc.Gather? && CpuStep(s, t, false)
    requires s.pc.Idle? ==> Harmless(s)
    requires Inv(t) && Queue(t) == Queue(s)
    ensures ContentInv(t)
  {
    assert At(s.n, s.send, 0) == s.send;
  }

  lemma CpuKeepsInv(s: State, t: State)
    requires Inv(s) && CpuStep(s, t, false)
    ensures Inv(t) && t.sent == s.sent
    ensures if s.pc.SetOwn? then
        |Queue(s)| < s.n && Queue(t) == Queue(s) + [s.msg] && t.accepted == s.accepted + [s.msg]
      else
        Queue(t) == Queue(s) && t.accepted == s.accepted
  {
    match s.pc
    case SetOwn => HandKeepsInv(s, t);
    case Gather => GatherKeepsInv(s, t);
    case SetSize => FillKeepsInv(s, t);
    case SetSegments => FillKeepsInv(s, t);
    case Idle => TestKeepsInv(s, t);
    case TestOwn => TestKeepsInv(s, t);
    case _ => WakeKeepsInv(s, t);
  }

  lemma CpuKeepsContent(s: State, t: State)
    requires Inv(s) && ContentInv(s) && CpuStep(s, t, false) && (s.pc.Idle? ==> Harmless(s))
    ensures Inv(t) && ContentInv(t)
  {
    CpuKeepsInv(s, t);
    if s.pc.SetOwn? {
      HandKeepsInv(s, t);
      HandKeepsContent(s, t);
    } else if s.pc.Gather? {
      GatherKeepsContent(s, t);
    } else {
      FillKeepsContent(s, t);
    }
  }

  // ---------------------------------------------------------------- theorems about every run

  lemma {:induction false} RunKeepsInv(trace: seq<State>, i: nat, disciplined: bool)
    requires Run(trace, disciplined) && i < |trace|
    ensures Inv(trace[i]) && (disciplined ==> ContentInv(trace[i]))
  {
    if i == 0 {
      InitInv(trace[0]);
    } else {
      RunKeepsInv(trace, i - 1, disciplined);
      var s, t := trace[i - 1], trace[i];
      assert Step(s, trace[i - 1 + 1], disciplined);
      if DmaStep(s, t) {
        DmaKeepsInv(s, t);
      } else {
        assert CpuStep(s, t, false);
        CpuKeepsInv(s, t);
        if disciplined { CpuKeepsContent(s, t); }
      }
    }
  }

  /** Every reachable state, under any interleaving, satisfies the invariant. */
  lemma ReachableInv(s: State, disciplined: bool)
    requires Reachable(s, disciplined)
    ensures Inv(s) && (disciplined ==> ContentInv(s))
  {
    var trace :| Run(trace, disciplined) && trace[|trace| - 1] == s;
    RunKeepsInv(trace, |trace| - 1, disciplined);
  }

  /** The ring is a FIFO of capacity `n`. In every run, disciplined or not, a frame is accepted exactly
    * when fewer than `n` accepted frames wait; a refused one leaves ring and cursor as they were. */
  lemma AcceptedIffRoom(s: State, t: State, disciplined: bool)
    requires Reachable(s, disciplined) && s.pc.TestOwn?
    requires Wf(s) && CpuStep(s, t, disciplined)
    ensures |s.sent| <= |s.accepted|
    ensures t.pc.SetSize? <==> |Queue(s)| < s.n
    ensures t.pc.Idle? <==> |Queue(s)| == s.n
    ensures t.mem == s.mem && t.toSet == s.toSet && t.accepted == s.accepted
    ensures t.rejected == if |Queue(s)| < s.n then s.rejected else s.rejected + [s.msg]
  {
    ReachableInv(s, disciplined);
    assert At(s.n, s.send, 0) == s.send;
  }

  /** What the DMA sends is what was accepted, in order: byte for byte when every call finds its head
    * descriptor the CPU's, and in any case frame for frame in length. */
  lemma SentInOrder(s: State, disciplined: bool)
    requires Reachable(s, disciplined)
    ensures |s.sent| <= |s.accepted| <= |s.sent| + s.n
    ensures forall k | 0 <= k < |s.sent| :: |s.sent[k]| == |s.accepted[k]|
    ensures disciplined ==> s.sent == s.accepted[..|s.sent|]
  {
    ReachableInv(s, disciplined);
  }

  /** Each protocol step is a step of the bounded FIFO; only the CPU appends, only the DMA removes. */
  lemma RefinesFifo(s: State, t: State, disciplined: bool)
    requires Reachable(s, disciplined) && Wf(s) && Step(s, t, disciplined)
    ensures |s.sent| <= |s.accepted| && |t.sent| <= |t.accepted|
    ensures
      || Queue(t) == Queue(s)
      || (|Queue(s)| < s.n && CpuStep(s, t, disciplined) && Queue(t) == Queue(s) + [s.msg])
      || (0 < |Queue(s)| && DmaStep(s, t) && Queue(t) == Queue(s)[1..])
  {
    ReachableInv(s, disciplined);
    if DmaStep(s, t) {
      DmaKeepsInv(s, t);
    } else {
      assert CpuStep(s, t, false);
      CpuKeepsInv(s, t);
    }
  }

  /** No lost wake-up: if the DMA sleeps over a descriptor it owns, the CPU is on its way from the OWN
    * write to the poll demand and will write it. */
  lemma NoLostWakeup(s: State, disciplined: bool)
    requires Reachable(s, disciplined) && s.dma.Suspended?
    ensures Wf(s)
    ensures s.mem.own[s.send] ==> (s.pc.TestTbus? && s.tbus) || (s.pc.ClearTbus? && s.tbus) || s.pc.Poll?
  {
    ReachableInv(s, disciplined);
  }

  /** When no call is in progress and the DMA sleeps, everything accepted has been sent. */
  lemma AsleepMeansAllSent(s: State, disciplined: bool)
    requires Reachable(s, disciplined) && s.pc.Idle? && s.dma.Suspended?
    ensures |s.sent| == |s.accepted|
    ensures disciplined ==> s.sent == s.accepted
  {
    ReachableInv(s, disciplined);
    assert At(s.n, s.send, 0) == s.send;
    assert Queue(s) == [];
  }

  // ---------------------------------------------------------------- one call on its own

  ghost predicate Starts(s: State, t: State) { s.pc.Idle? && t.pc.Gather? }

  /** How many calls start in the first `k` steps. */
  ghost function Calls(path: seq<State>, k: nat): nat
    requires k < |path|
  {
    if k == 0 then 0 else Calls(path, k - 1) + if Starts(path[k - 1], path[k]) then 1 else 0
  }

  ghost function AllCalls(path: seq<State>): nat
    requires 0 < |path|
  {
    Calls(path, |path| - 1)
  }

  lemma {:induction false} CallsOfPrefix(path: seq<State>, t: State, k: nat)
    requires k < |path|
    ensures Calls(path + [t], k) == Calls(path, k)
  {
    if k == 0 {
    } else {
      CallsOfPrefix(path, t, k - 1);
    }
  }

  lemma {:induction false} CallsMonotone(path: seq<State>, j: nat, k: nat)
    requires j <= k < |path|
    ensures Calls(path, j) <= Calls(path, k)
  {
    if j == k {
    } else {
      CallsMonotone(path, j, k - 1);
    }
  }

  lemma Go(path: seq<State>, t: State, disciplined: bool) returns (longer: seq<State>)
    requires Path(path, disciplined)
    requires var s := path[|path| - 1]; Wf(s) && Step(s, t, disciplined)
    ensures longer == path + [t] && Path(longer, disciplined) && longer[0] == path[0] && longer[|longer| - 1] == t
    ensures AllCalls(longer) == AllCalls(path) + if Starts(path[|path| - 1], t) then 1 else 0
  {
    longer := path + [t];
    CallsOfPrefix(path, t, |path| - 1);
  }

  /** The memory after the gather loop. */
  function Gathered(mem: Memory, i: nat, msg: Frame): Memory
    requires i < |mem.buf| && |msg| <= |mem.buf[i]|
  {
    mem.(buf := mem.buf[i := msg + mem.buf[i][|msg|..]])
  }

  lemma GatheredByte(mem: Memory, i: nat, msg: Frame, l: nat)
    requires i < |mem.buf| && l < |msg| <= |mem.buf[i]|
    ensures var m := Gathered(mem, i, msg[..l]);
      m.(buf := PutByte(m.buf, i, l, msg[l])) == Gathered(mem, i, msg[..l + 1])
  {
    var m, b := Gathered(mem, i, msg[..l]), mem.buf[i];
    assert (msg[..l] + b[l..])[l := msg[l]] == msg[..l + 1] + b[l + 1..];
    assert PutByte(m.buf, i, l, msg[l]) == Gathered(mem, i, msg[..l + 1]).buf;
  }

  /** A call up to its OWN test. */
  lemma GatherAlone(path: seq<State>, msg: Frame, disciplined: bool) returns (longer: seq<State>)
    requires Path(path, disciplined)
    requires var s := path[|path| - 1];
      Wf(s) && s.pc.Idle? && |msg| <= s.cap && (disciplined ==> !s.mem.own[s.toSet])
    ensures Path(longer, disciplined) && longer[0] == path[0] && AllCalls(longer) == AllCalls(path) + 1
    ensures var s := path[|path| - 1];
      longer[|longer| - 1] == s.(pc := TestOwn, msg := msg, l := |msg|, mem := Gathered(s.mem, s.toSet, msg))
  {
    var s := path[|path| - 1];
    var g := s.(pc := Gather, msg := msg, l := 0);
    longer := Go(path, g, disciplined);
    var l := 0;
    assert Gathered(s.mem, s.toSet, msg[..0]) == s.mem by {
      assert msg[..0] + s.mem.buf[s.toSet][0..] == s.mem.buf[s.toSet];
    }
    while l < |msg|
      invariant l <= |msg| && Path(longer, disciplined) && longer[0] == path[0]
      invariant AllCalls(longer) == AllCalls(path) + 1
      invariant longer[|longer| - 1] == g.(l := l, mem := Gathered(s.mem, s.toSet, msg[..l]))
    {
      GatheredByte(s.mem, s.toSet, msg, l);
      longer := Go(longer, g.(l := l + 1, mem := Gathered(s.mem, s.toSet, msg[..l + 1])), disciplined);
      l := l + 1;
    }
    assert msg[..l] == msg;
    longer := Go(longer, g.(pc := TestOwn, l := l, mem := Gathered(s.mem, s.toSet, msg)), disciplined);
  }

  /** The descriptor fields that an accepted call writes. */
  function HandedOver(mem: Memory, i: nat, len: nat): Memory
    requires i < |mem.own| == |mem.seg| == |mem.size|
  {
    mem.(own := mem.own[i := true], seg := mem.seg[i := true], size := mem.size[i := len % TBS1])
  }

  /** The state after a call that the DMA did not disturb. */
  function AfterCall(s: State, msg: Frame): State
    requires s.toSet < s.n == |s.mem.own| == |s.mem.seg| == |s.mem.size| == |s.mem.buf|
    requires |msg| <= |s.mem.buf[s.toSet]|
  {
    var t := s.(msg := msg, l := |msg|, mem := Gathered(s.mem, s.toSet, msg));
    if s.mem.own[s.toSet] then t.(rejected := s.rejected + [msg])
    else
      t.(mem := HandedOver(t.mem, s.toSet, |msg|), toSet := Next(s.n, s.toSet), accepted := s.accepted + [msg],
         tbus := false, dma := if s.tbus then Polled(s.dma) else s.dma)
  }

  /** From the OWN test to the return, accepted. */
  lemma HandAlone(path: seq<State>, disciplined: bool) returns (longer: seq<State>)
    requires Path(path, disciplined)
    requires var s := path[|path| - 1]; Wf(s) && s.pc.TestOwn? && !s.mem.own[s.toSet]
    ensures Path(longer, disciplined) && longer[0] == path[0] && AllCalls(longer) == AllCalls(path)
    ensures var s := path[|path| - 1];
      longer[|longer| - 1] ==
        s.(pc := Idle, mem := HandedOver(s.mem, s.toSet, |s.msg|), toSet := Next(s.n, s.toSet),
           accepted := s.accepted + [s.msg], tbus := false, dma := if s.tbus then Polled(s.dma) else s.dma)
  {
    var s := path[|path| - 1];
    var m1 := s.mem.(size := s.mem.size[s.toSet := |s.msg| % TBS1]);
    var m2 := m1.(seg := m1.seg[s.toSet := true]);
    longer := Go(path, s.(pc := SetSize), disciplined);
    longer := Go(longer, s.(pc := SetSegments, mem := m1), disciplined);
    longer := Go(longer, s.(pc := SetOwn, mem := m2), disciplined);
    var t := s.(pc := TestTbus, mem := HandedOver(s.mem, s.toSet, |s.msg|), accepted := s.accepted + [s.msg]);
    longer := Go(longer, t, disciplined);
    longer := WakeAlone(longer, disciplined);
    var u := longer[|longer| - 1];
    longer := Go(longer, u.(pc := Idle, toSet := Next(u.n, u.toSet)), disciplined);
  }

  /** From the flag test to the cursor move: a flag that was up is cleared, a sleeping DMA woken. */
  lemma WakeAlone(path: seq<State>, disciplined: bool) returns (longer: seq<State>)
    requires Path(path, disciplined)
    requires var s := path[|path| - 1];
      Wf(s) && (s.pc.TestTbus? || (s.pc.ClearTbus? && s.tbus) || (s.pc.Poll? && !s.tbus))
    ensures Path(longer, disciplined) && longer[0] == path[0] && AllCalls(longer) == AllCalls(path)
    ensures var s := path[|path| - 1];
      longer[|longer| - 1] ==
        s.(pc := Advance, tbus := false, dma := if s.tbus || s.pc.Poll? then Polled(s.dma) else s.dma)
  {
    longer := path;
    var s := path[|path| - 1];
    if s.pc.TestTbus? {
      longer := Go(longer, s.(pc := if s.tbus then ClearTbus else Advance), disciplined);
    }
    if s.tbus {
      longer := Go(longer, s.(pc := Poll, tbus := false), disciplined);
    }
    if s.tbus || s.pc.Poll? {
      longer := Go(longer, s.(pc := Advance, tbus := false, dma := Polled(s.dma)), disciplined);
    }
  }

  /** A whole call. */
  lemma CallAlone(path: seq<State>, msg: Frame, disciplined: bool) returns (longer: seq<State>)
    requires Path(path, disciplined)
    requires var s := path[|path| - 1];
      Wf(s) && s.pc.Idle? && |msg| <= s.cap && (disciplined ==> !s.mem.own[s.toSet])
    ensures Path(longer, disciplined) && longer[0] == path[0] && AllCalls(longer) == AllCalls(path) + 1
    ensures longer[|longer| - 1] == AfterCall(path[|path| - 1], msg)
  {
    var s := path[|path| - 1];
    longer := GatherAlone(path, msg, disciplined);
    var t := longer[|longer| - 1];
    if s.mem.own[s.toSet] {
      longer := Go(longer, t.(pc := Idle, rejected := s.rejected + [msg]), disciplined);
    } else {
      longer := HandAlone(longer, disciplined);
    }
  }

  /** The DMA on its own reads on to the end of the frame. */
  lemma ReadAlone(path: seq<State>, disciplined: bool) returns (longer: seq<State>)
    requires Path(path, disciplined)
    requires var s := path[|path| - 1]; Wf(s) && s.dma.Reading? && |s.dma.cur| <= s.mem.size[s.send] <= s.cap
    ensures Path(longer, disciplined) && longer[0] == path[0] && AllCalls(longer) == AllCalls(path)
    ensures var s := path[|path| - 1];
      longer[|longer| - 1] ==
        s.(dma := Reading(s.dma.cur + s.mem.buf[s.send][|s.dma.cur|..s.mem.size[s.send]]))
  {
    longer := path;
    var s := path[|path| - 1];
    var cur, b, size := s.dma.cur, s.mem.buf[s.send], s.mem.size[s.send];
    var k := |cur|;
    assert cur + b[|cur|..k] == cur;
    while k < size
      invariant |cur| <= k <= size && Path(longer, disciplined) && longer[0] == path[0]
      invariant AllCalls(longer) == AllCalls(path)
      invariant longer[|longer| - 1] == s.(dma := Reading(cur + b[|cur|..k]))
    {
      assert cur + b[|cur|..k] + [b[k]] == cur + b[|cur|..k + 1];
      longer := Go(longer, s.(dma := Reading(cur + b[|cur|..k + 1])), disciplined);
      k := k + 1;
    }
  }

  /** The DMA on its own sends the frame it is at: what it has read, then the rest as it stands. */
  lemma SendAlone(path: seq<State>, disciplined: bool) returns (longer: seq<State>)
    requires Path(path, disciplined)
    requires var s := path[|path| - 1];
      Wf(s) && s.mem.own[s.send] && !s.dma.Suspended? && Progress(s.dma) <= s.mem.size[s.send] <= s.cap
    ensures Path(longer, disciplined) && longer[0] == path[0] && AllCalls(longer) == AllCalls(path)
    ensures var s := path[|path| - 1];
      var cur := if s.dma.Reading? then s.dma.cur else [];
      longer[|longer| - 1] ==
        s.(mem := Owned(s.mem, s.send, false), send := Next(s.n, s.send), dma := Fetch,
           sent := s.sent + [cur + s.mem.buf[s.send][|cur|..s.mem.size[s.send]]])
  {
    longer := path;
    var s := path[|path| - 1];
    if s.dma.Fetch? {
      longer := Go(longer, s.(dma := Reading([])), disciplined);
    }
    longer := ReadAlone(longer, disciplined);
    longer := Go(longer, Finished(longer[|longer| - 1]), disciplined);
  }

  /** The other half of `NoLostWakeup`: from such a state the CPU, left alone, reaches the poll demand,
    * and the DMA looks at its descriptor again. */
  lemma WakeupArrives(s: State, disciplined: bool) returns (path: seq<State>)
    requires Reachable(s, disciplined) && s.dma.Suspended? && Wf(s) && s.mem.own[s.send]
    ensures Path(path, disciplined) && path[0] == s
    ensures path[|path| - 1] == s.(pc := Advance, tbus := false, dma := Fetch)
  {
    ReachableInv(s, disciplined);
    path := WakeAlone([s], disciplined);
  }

  // ---------------------------------------------------------------- when a further call does no harm

  /** The bytes sent so far are the accepted frames, in order. */
  ghost predicate SentAsAccepted(s: State) {
    |s.sent| <= |s.accepted| && s.sent == s.accepted[..|s.sent|]
  }

  /** At most one call, starting now or later, interleaved with the DMA in any way and for any time. */
  ghost predicate OneCall(path: seq<State>) {
    Path(path, false) && path[0].pc.Idle? && AllCalls(path) <= 1
  }

  lemma DmaKeepsHarmless(s: State, t: State)
    requires Inv(s) && s.pc.Idle? && Harmless(s) && DmaStep(s, t) && Wf(t)
    ensures Harmless(t) && t.pc.Idle?
  {
    assert At(s.n, s.send, 0) == s.send;
    if s.mem.own[s.toSet] {
      OwnedHeadIsFull(s);
    }
  }

  /** A call that starts while it is harmless leaves every pending frame as it was, whatever the DMA does. */
  lemma {:induction false} OneCallKeeps(path: seq<State>, i: nat)
    requires OneCall(path) && Inv(path[0]) && ContentInv(path[0]) && Harmless(path[0]) && i < |path|
    ensures Inv(path[i]) && ContentInv(path[i])
    ensures Calls(path, i) == 0 ==> path[i].pc.Idle? && Harmless(path[i])
  {
    if i == 0 {
    } else {
      OneCallKeeps(path, i - 1);
      var s, t := path[i - 1], path[i];
      assert Step(s, path[i - 1 + 1], false);
      CallsMonotone(path, i, |path| - 1);
      if DmaStep(s, t) {
        DmaKeepsInv(s, t);
        if Calls(path, i) == 0 { DmaKeepsHarmless(s, t); }
      } else {
        CpuKeepsContent(s, t);
      }
    }
  }

  /** Otherwise there is a call, and a way for it to interleave, after which the DMA has sent wrong bytes;
    * the call itself is refused. */
  lemma CallHarms(s: State) returns (path: seq<State>)
    requires Inv(s) && ContentInv(s) && s.pc.Idle? && !Harmless(s)
    ensures OneCall(path) && path[0] == s
    ensures var t := path[|path| - 1];
      !SentAsAccepted(t) && t.accepted == s.accepted && |t.rejected| == |s.rejected| + 1
  {
    OwnedHeadIsFull(s);
    assert At(s.n, s.send, 0) == s.send;
    var f, k := Queue(s)[0], Progress(s.dma);
    assert s.mem.size[At(s.n, s.send, 0)] == |f|;
    var msg := f[..k] + [f[k] ^ 1];
    path := CallAlone([s], msg, false);
    path := SendAlone(path, false);
    var t := path[|path| - 1];
    Flipped(f[k]);
    assert Gathered(s.mem, s.toSet, msg).buf[s.send][k] == msg[k];
    assert t.sent[|s.sent|][k] == msg[k];
    assert s.accepted[|s.sent|] == f;
  }

  lemma Flipped(b: Byte)
    ensures b ^ 1 != b
  {
  }

  /** The copy comes before the OWN test. So, of all the calls that could be made in a state the driver can
    * reach while its callers wait for free descriptors, every one leaves the bytes sent the accepted
    * frames, however it interleaves with the DMA, exactly if the head descriptor is the CPU's or the DMA
    * has already read the whole frame in it. */
  lemma HarmlessIff(s: State)
    requires Reachable(s, true) && s.pc.Idle?
    ensures Wf(s)
    ensures (forall path | OneCall(path) && path[0] == s :: SentAsAccepted(path[|path| - 1])) <==> Harmless(s)
  {
    ReachableInv(s, true);
    if Harmless(s) {
      forall path | OneCall(path) && path[0] == s
        ensures SentAsAccepted(path[|path| - 1])
      {
        OneCallKeeps(path, |path| - 1);
      }
    } else {
      var path := CallHarms(s);
    }
  }

  /** What a caller can check: with the head descriptor the CPU's, no call does harm. */
  lemma HarmlessIfHeadIsCpus(s: State, path: seq<State>)
    requires Reachable(s, true) && s.pc.Idle? && Wf(s) && !s.mem.own[s.toSet]
    requires OneCall(path) && path[0] == s
    ensures SentAsAccepted(path[|path| - 1])
  {
    HarmlessIff(s);
  }

  /** The state after power-up. */
  function PowerUp(n: nat, cap: nat): State {
    State(n, cap, Memory(seq(n, i => false), seq(n, i => false), seq(n, i => 0), seq(n, i => seq(cap, j => 0))),
          0, Idle, [], 0, false, Fetch, 0, [], [], [])
  }

  /** `k` calls in a row, each finding its descriptor free, while the DMA does not get to run. */
  lemma FillAlone(n: nat, cap: nat, k: nat) returns (trace: seq<State>)
    requires 0 < cap < TBS1 && 0 < n && k <= n
    ensures Run(trace, true)
    ensures var s := trace[|trace| - 1];
      && s.n == n && s.cap == cap && s.pc.Idle? && !s.tbus && s.dma.Fetch? && s.sent == []
      && |s.accepted| == k && forall i | 0 <= i < k :: s.accepted[i] == [0]
  {
    trace := [PowerUp(n, cap)];
    var i := 0;
    while i < k
      invariant i <= k && Run(trace, true)
      invariant var s := trace[|trace| - 1];
        && s.n == n && s.cap == cap && s.pc.Idle? && !s.tbus && s.dma.Fetch? && s.sent == []
        && |s.accepted| == i && forall j | 0 <= j < i :: s.accepted[j] == [0]
    {
      var s := trace[|trace| - 1];
      ReachableInv(s, true);
      assert s.toSet == At(n, s.send, i);
      trace := CallAlone(trace, [0], true);
      i := i + 1;
    }
  }

  /** Without the discipline wrong bytes do get sent, on a ring of any size: all descriptors taken, a further
    * call is refused, and the DMA sends what that call left in the first buffer. */
  lemma RefusedCallCorrupts(n: nat, cap: nat) returns (s: State, path: seq<State>)
    requires 0 < cap < TBS1 && 0 < n
    ensures Reachable(s, true) && s.n == n && s.cap == cap && s.pc.Idle?
    ensures OneCall(path) && path[0] == s
    ensures var t := path[|path| - 1];
      !SentAsAccepted(t) && t.accepted == s.accepted && |t.rejected| == |s.rejected| + 1
  {
    var trace := FillAlone(n, cap, n);
    s := trace[|trace| - 1];
    ReachableInv(s, true);
    assert At(n, s.send, n) == At(n, s.send, 0) == s.send && Queue(s)[0] == [0];
    path := CallHarms(s);
  }
}
