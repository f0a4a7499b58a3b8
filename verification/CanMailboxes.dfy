/** The three transmit mailboxes of bxCAN over whole runs: any sequence of `CAN_Transmit` calls and
  * hardware completions.
  */
module CanMailboxes {
  import opened CanFrame

  const NO_MAILBOX: nat := 4

  datatype Status = Failed | Ok | Pending

  // ---------------------------------------------------------------- the status register

  function Tme(k: nat): bv32 {
    if k == 0 then 0x0400_0000 else if k == 1 then 0x0800_0000 else 0x1000_0000
  }

  function Rqcp(k: nat): bv32 {
    if k == 0 then 0x0000_0001 else if k == 1 then 0x0000_0100 else 0x0001_0000
  }

  function Txok(k: nat): bv32 {
    if k == 0 then 0x0000_0002 else if k == 1 then 0x0000_0200 else 0x0002_0000
  }

  /** The bits of TSR about one mailbox: empty, request completed, transmission ok. */
  datatype Flags = Flags(empty: bool, completed: bool, ok: bool)

  function FlagsOf(tsr: bv32, k: nat): Flags {
    Flags(tsr & Tme(k) != 0, tsr & Rqcp(k) != 0, tsr & Txok(k) != 0)
  }

  /** What the three bits mean; a combination the hardware does not produce reads as failed. */
  function Meaning(f: Flags): Status {
    if f == Flags(false, false, false) then Pending
    else if f == Flags(true, true, true) then Ok
    else Failed
  }

  /** The same said of the whole words: ok with all three bits set, pending with none. */
  lemma MeaningOfWord(tsr: bv32)
    ensures Meaning(FlagsOf(tsr, 0)) ==
      if tsr & 0x0400_0003 == 0 then Pending else if tsr & 0x0400_0003 == 0x0400_0003 then Ok else Failed
    ensures Meaning(FlagsOf(tsr, 1)) ==
      if tsr & 0x0800_0300 == 0 then Pending else if tsr & 0x0800_0300 == 0x0800_0300 then Ok else Failed
    ensures Meaning(FlagsOf(tsr, 2)) ==
      if tsr & 0x1003_0000 == 0 then Pending else if tsr & 0x1003_0000 == 0x1003_0000 then Ok else Failed
  {
  }

  /** `CAN_TransmitStatus`. */
  method TransmitStatus(tsr: bv32, k: nat) returns (status: Status)
    ensures k == 0 ==>
        && (status == Ok <==> tsr & 0x0400_0003 == 0x0400_0003) && (status == Pending <==> tsr & 0x0400_0003 == 0)
    ensures k == 1 ==>
        && (status == Ok <==> tsr & 0x0800_0300 == 0x0800_0300) && (status == Pending <==> tsr & 0x0800_0300 == 0)
    ensures k == 2 ==>
        && (status == Ok <==> tsr & 0x1003_0000 == 0x1003_0000) && (status == Pending <==> tsr & 0x1003_0000 == 0)
    ensures k >= 3 ==> status == Pending
    ensures k < 3 ==> status == Meaning(FlagsOf(tsr, k))
  {
    MeaningOfWord(tsr);
    var state: bv32;
    if k == 0 {
      state := tsr & (0x1 | 0x2 | 0x0400_0000);
    } else if k == 1 {
      state := tsr & (0x100 | 0x200 | 0x0800_0000);
    } else if k == 2 {
      state := tsr & (0x1_0000 | 0x2_0000 | 0x1000_0000);
    } else {
      state := 0;  // CAN_TxStatus_Failed
    }
    if state == 0 {
      status := Pending;
    } else if state == 0x0400_0001 || state == 0x0800_0100 || state == 0x1001_0000 {
      status := Failed;
    } else if state == 0x0400_0003 || state == 0x0800_0300 || state == 0x1003_0000 {
      status := Ok;
    } else {
      status := Failed;
    }
  }

  /** The mailbox that `CAN_Transmit` takes. */
  function Choose(tsr: bv32): nat {
    if FlagsOf(tsr, 0).empty then 0
    else if FlagsOf(tsr, 1).empty then 1
    else if FlagsOf(tsr, 2).empty then 2
    else NO_MAILBOX
  }

  lemma TmeBits(tsr: bv32)
    ensures tsr & 0x0400_0000 == 0x0400_0000 <==> FlagsOf(tsr, 0).empty
    ensures tsr & 0x0800_0000 == 0x0800_0000 <==> FlagsOf(tsr, 1).empty
    ensures tsr & 0x1000_0000 == 0x1000_0000 <==> FlagsOf(tsr, 2).empty
  {
  }

  /** The first half of `CAN_Transmit`. */
  method Select(tsr: bv32) returns (k: nat)
    ensures k == Choose(tsr)
    ensures k == if tsr & 0x0400_0000 != 0 then 0 else if tsr & 0x0800_0000 != 0 then 1
      else if tsr & 0x1000_0000 != 0 then 2 else 4
  {
    TmeBits(tsr);
    if tsr & 0x0400_0000 == 0x0400_0000 {
      k := 0;
    } else if tsr & 0x0800_0000 == 0x0800_0000 {
      k := 1;
    } else if tsr & 0x1000_0000 == 0x1000_0000 {
      k := 2;
    } else {
      k := NO_MAILBOX;
    }
  }

  class Can {
    var tsr: bv32
    const box: seq<TxMailbox>

    ghost predicate Valid() {
      |box| == 3 && box[0] != box[1] && box[0] != box[2] && box[1] != box[2]
    }

    /** `CAN_Transmit`. */
    method Transmit(m: TxMsg) returns (k: nat)
      requires Valid() && |m.data| == 8
      modifies box
      ensures k == Choose(tsr)
      ensures k == if tsr & 0x0400_0000 != 0 then 0 else if tsr & 0x0800_0000 != 0 then 1
        else if tsr & 0x1000_0000 != 0 then 2 else 4
      ensures forall i | 0 <= i < 3 ::
          box[i].Contents() == if i == k then Filled(old(box[i].Contents()), m) else old(box[i].Contents())
    {
      k := Select(tsr);
      if k != NO_MAILBOX {
        box[k].Fill(m);
      }
    }
  }

  // ---------------------------------------------------------------- runs

  /** What a mailbox was last given, and what became of it. */
  datatype Slot = Unused | Busy(msg: Message) | Done(msg: Message, ok: bool)

  datatype Result = Result(msg: Message, ok: bool)

  datatype State = State(
    tsr: bv32,
    box: seq<Mailbox>,
    slot: seq<Slot>,                  // history, per mailbox
    accepted: seq<seq<Message>>,      // history, per mailbox: messages `CAN_Transmit` took
    finished: seq<seq<Result>>)       // history, per mailbox: what the hardware read out and sent

  datatype Event = Transmit(m: TxMsg) | Complete(k: nat, ok: bool)

  ghost predicate Wf(s: State) { |s.box| == |s.slot| == |s.accepted| == |s.finished| == 3 }

  ghost predicate Init(s: State) {
    && Wf(s)
    && forall k: nat | k < 3 ::
         FlagsOf(s.tsr, k) == Flags(true, false, false) && s.slot[k] == Unused && s.accepted[k] == []
           && s.finished[k] == []
  }

  /** The hardware changes the bits of mailbox `k` to `f`; those of the others stay, and the rest of
    * TSR (arbitration lost, error, abort, code, lowest priority) is unconstrained. */
  ghost predicate TsrChanges(before: bv32, after: bv32, k: nat, f: Flags) {
    forall i: nat | i < 3 :: FlagsOf(after, i) == if i == k then f else FlagsOf(before, i)
  }

  /** A call of `CAN_Transmit`; setting TXRQ makes the hardware clear the three bits. */
  ghost predicate TransmitStep(s: State, t: State, m: TxMsg)
    requires Wf(s) && |m.data| == 8
  {
    var k := Choose(s.tsr);
    if k == NO_MAILBOX then t == s
    else
      && TsrChanges(s.tsr, t.tsr, k, Flags(false, false, false))
      && t == State(t.tsr, s.box[k := Filled(s.box[k], m)], s.slot[k := Busy(MessageOf(m))],
                    s.accepted[k := s.accepted[k] + [MessageOf(m)]], s.finished)
  }

  /** The hardware is done with the message in mailbox `k`, as the registers hold it. */
  ghost predicate CompleteStep(s: State, t: State, k: nat, ok: bool)
    requires Wf(s)
  {
    && k < 3 && !FlagsOf(s.tsr, k).empty && !s.slot[k].Unused?
    && TsrChanges(s.tsr, t.tsr, k, Flags(true, true, ok))
    && t == State(t.tsr, s.box[k := s.box[k].(ir := s.box[k].ir & !TXRQ)], s.slot[k := Done(s.slot[k].msg, ok)],
                  s.accepted, s.finished[k := s.finished[k] + [Result(Decoded(s.box[k]), ok)]])
  }

  ghost predicate Step(s: State, t: State, e: Event)
    requires Wf(s)
  {
    match e
    case Transmit(m) => ValidMsg(m) && TransmitStep(s, t, m)
    case Complete(k, ok) => CompleteStep(s, t, k, ok)
  }

  ghost predicate Run(trace: seq<State>, events: seq<Event>) {
    && |trace| == |events| + 1 && Init(trace[0])
    && forall i | 0 <= i < |events| :: Wf(trace[i]) && Step(trace[i], trace[i + 1], events[i])
  }

  ghost predicate Reachable(s: State) {
    exists trace, events :: Run(trace, events) && trace[|trace| - 1] == s
  }

  // ---------------------------------------------------------------- the invariant

  /** The first `|finished|` accepted messages, in order, are what the hardware sent. */
  ghost predicate SentAsAccepted(accepted: seq<Message>, finished: seq<Result>) {
    |finished| <= |accepted| && forall j | 0 <= j < |finished| :: finished[j].msg == accepted[j]
  }

  ghost predicate SlotInv(f: Flags, r: Mailbox, slot: Slot, accepted: seq<Message>, finished: seq<Result>) {
    && SentAsAccepted(accepted, finished)
    && match slot
       case Unused => f == Flags(true, false, false) && accepted == [] && finished == []
       case Busy(msg) =>
         && f == Flags(false, false, false) && Decoded(r) == msg
         && |accepted| == |finished| + 1 && accepted[|accepted| - 1] == msg
       case Done(msg, ok) =>
         && f == Flags(true, true, ok) && |accepted| == |finished| > 0
         && finished[|finished| - 1] == Result(msg, ok)
  }

  ghost predicate Inv(s: State) {
    && Wf(s)
    && forall k: nat | k < 3 :: SlotInv(FlagsOf(s.tsr, k), s.box[k], s.slot[k], s.accepted[k], s.finished[k])
  }

  lemma ChooseIsEmpty(tsr: bv32)
    ensures var k := Choose(tsr);
      if k < 3 then FlagsOf(tsr, k).empty else k == NO_MAILBOX && forall i: nat | i < 3 :: !FlagsOf(tsr, i).empty
    ensures forall i: nat | i < Choose(tsr) && i < 3 :: !FlagsOf(tsr, i).empty
  {
  }

  lemma TransmitKeepsInv(s: State, t: State, m: TxMsg)
    requires Inv(s) && ValidMsg(m) && TransmitStep(s, t, m)
    ensures Inv(t)
  {
    var k := Choose(s.tsr);
    ChooseIsEmpty(s.tsr);
    if k < 3 {
      FilledHolds(s.box[k], m);
      forall i: nat | i < 3
        ensures SlotInv(FlagsOf(t.tsr, i), t.box[i], t.slot[i], t.accepted[i], t.finished[i])
      {
        assert SlotInv(FlagsOf(s.tsr, i), s.box[i], s.slot[i], s.accepted[i], s.finished[i]);
      }
    }
  }

  lemma CompleteKeepsInv(s: State, t: State, k: nat, ok: bool)
    requires Inv(s) && CompleteStep(s, t, k, ok)
    ensures Inv(t)
  {
    forall i: nat | i < 3
      ensures SlotInv(FlagsOf(t.tsr, i), t.box[i], t.slot[i], t.accepted[i], t.finished[i])
    {
      assert SlotInv(FlagsOf(s.tsr, i), s.box[i], s.slot[i], s.accepted[i], s.finished[i]);
    }
  }

  lemma {:induction false} RunKeepsInv(trace: seq<State>, events: seq<Event>, i: nat)
    requires Run(trace, events) && i < |trace|
    ensures Inv(trace[i])
  {
    if i == 0 {
    } else {
      RunKeepsInv(trace, events, i - 1);
      assert Step(trace[i - 1], trace[i - 1 + 1], events[i - 1]);
      match events[i - 1]
      case Transmit(m) => TransmitKeepsInv(trace[i - 1], trace[i], m);
      case Complete(k, ok) => CompleteKeepsInv(trace[i - 1], trace[i], k, ok);
    }
  }

  lemma ReachableInv(s: State)
    requires Reachable(s)
    ensures Inv(s)
  {
    var trace, events :| Run(trace, events) && trace[|trace| - 1] == s;
    RunKeepsInv(trace, events, |trace| - 1);
  }

  // ---------------------------------------------------------------- theorems about every run

  /** Allocation: the lowest mailbox without a pending message; none exactly when all three are busy. */
  lemma LowestFree(s: State)
    requires Reachable(s)
    ensures Wf(s)
    ensures Choose(s.tsr) == NO_MAILBOX <==> s.slot[0].Busy? && s.slot[1].Busy? && s.slot[2].Busy?
    ensures Choose(s.tsr) != NO_MAILBOX ==>
        Choose(s.tsr) < 3 && !s.slot[Choose(s.tsr)].Busy? && forall i | 0 <= i < Choose(s.tsr) :: s.slot[i].Busy?
  {
    ReachableInv(s);
    ChooseIsEmpty(s.tsr);
    assert forall k: nat | k < 3 ::
        SlotInv(FlagsOf(s.tsr, k), s.box[k], s.slot[k], s.accepted[k], s.finished[k]) ==>
        (s.slot[k].Busy? <==> !FlagsOf(s.tsr, k).empty);
  }

  /** A pending message stays in its registers until the hardware is done with it, whatever is sent
    * meanwhile. */
  lemma PendingUntouched(s: State, t: State, e: Event, k: nat)
    requires Reachable(s) && Wf(s) && Step(s, t, e) && k < 3 && s.slot[k].Busy?
    ensures Wf(t)
    ensures (e.Complete? && e.k == k) || (t.box[k] == s.box[k] && t.slot[k] == s.slot[k]
        && Decoded(t.box[k]) == s.slot[k].msg)
  {
    LowestFree(s);
    ReachableInv(s);
    assert SlotInv(FlagsOf(s.tsr, k), s.box[k], s.slot[k], s.accepted[k], s.finished[k]);
  }

  /** `CAN_TransmitStatus` speaks of the message that the mailbox last accepted. */
  lemma StatusOfLast(s: State, k: nat)
    requires Reachable(s) && k < 3
    ensures Wf(s)
    ensures Meaning(FlagsOf(s.tsr, k)) == Pending <==> s.slot[k].Busy?
    ensures Meaning(FlagsOf(s.tsr, k)) == Ok <==> s.slot[k].Done? && s.slot[k].ok
    ensures Meaning(FlagsOf(s.tsr, k)) == Failed <==> s.slot[k].Unused? || (s.slot[k].Done? && !s.slot[k].ok)
    ensures s.slot[k].Unused? <==> s.accepted[k] == []
    ensures s.accepted[k] != [] ==> s.slot[k].msg == s.accepted[k][|s.accepted[k]| - 1]
  {
    ReachableInv(s);
    assert SlotInv(FlagsOf(s.tsr, k), s.box[k], s.slot[k], s.accepted[k], s.finished[k]);
  }

  /** Nothing is lost, altered or sent twice: what a mailbox accepted is, in order, what the hardware
    * read out of its registers, followed by the message still pending, if there is one. */
  lemma MessagesConserved(s: State, k: nat)
    requires Reachable(s) && k < 3
    ensures Wf(s) && |s.accepted[k]| == |s.finished[k]| + if s.slot[k].Busy? then 1 else 0
    ensures forall j | 0 <= j < |s.finished[k]| :: s.finished[k][j].msg == s.accepted[k][j]
    ensures s.slot[k].Busy? ==> Decoded(s.box[k]) == s.accepted[k][|s.accepted[k]| - 1]
  {
    ReachableInv(s);
    assert SlotInv(FlagsOf(s.tsr, k), s.box[k], s.slot[k], s.accepted[k], s.finished[k]);
  }
}
