/** The mode handshakes of bxCAN against an arbitrary hardware: nothing is known about what the reads of
  * MSR return.
  */
module CanHandshake {

  const TIMEOUT: nat := 0xFFFF

  const INAK: bv32 := 1
  const SLAK: bv32 := 2
  const MODE_MASK: bv32 := 3

  /** MCR, bit by bit; `rest` is what the driver never touches. */
  datatype Mcr = Mcr(inrq: bool, sleep: bool, txfp: bool, rflm: bool, nart: bool, awum: bool, abom: bool, ttcm: bool,
                     rest: bv32)

  // ---------------------------------------------------------------- waiting

  /** Read number `i` of MSR shows `value` under `mask`. */
  predicate Shows(msr: nat -> bv32, i: nat, mask: bv32, value: bv32) { msr(i) & mask == value }

  /** The read at which a wait ends that starts with read `from`: the first that shows the state, but
    * `last` at the latest. */
  function WaitEnd(msr: nat -> bv32, from: nat, last: nat, mask: bv32, value: bv32): (e: nat)
    requires from <= last
    ensures from <= e <= last
    ensures forall i: nat | from <= i < e :: !Shows(msr, i, mask, value)
    ensures e < last ==> Shows(msr, e, mask, value)
    decreases last - from
  {
    if from == last || Shows(msr, from, mask, value) then from else WaitEnd(msr, from + 1, last, mask, value)
  }

  /** The read that decides: the one after the wait has ended, not the one that ended it. The counter
    * allows 0xFFFF increments, hence as many further reads. */
  function Deciding(msr: nat -> bv32, from: nat, mask: bv32, value: bv32): (i: nat)
    ensures from < i <= from + TIMEOUT + 1
  {
    WaitEnd(msr, from, from + TIMEOUT, mask, value) + 1
  }

  predicate Acknowledged(msr: nat -> bv32, from: nat, mask: bv32, value: bv32) {
    Shows(msr, Deciding(msr, from, mask, value), mask, value)
  }

  /** Hardware that takes on the state at read `from + d` and stays in it is acknowledged exactly if
    * `d` is at most 0x10000. */
  lemma AcknowledgedInTime(msr: nat -> bv32, from: nat, mask: bv32, value: bv32, d: nat)
    requires forall i: nat | from <= i :: msr(i) & mask == value <==> from + d <= i
    ensures Acknowledged(msr, from, mask, value) <==> d <= 0x1_0000
  {
    var e := WaitEnd(msr, from, from + TIMEOUT, mask, value);
    assert Shows(msr, from + d, mask, value);
  }

  /** A state that is shown by one read only is not acknowledged, unless that read is the deciding one
    * of a wait that ran out. */
  lemma GlitchIsNotEnough(msr: nat -> bv32, from: nat, mask: bv32, value: bv32, d: nat)
    requires forall i: nat | from <= i :: msr(i) & mask == value <==> i == from + d
    ensures Acknowledged(msr, from, mask, value) <==> d == 0x1_0000
  {
    var e := WaitEnd(msr, from, from + TIMEOUT, mask, value);
    assert Shows(msr, from + d, mask, value);
  }

  // ---------------------------------------------------------------- configuration words

  datatype Config = Config(ttcm: bool, abom: bool, awum: bool, nart: bool, rflm: bool, txfp: bool,
                           mode: bv8, sjw: bv8, bs1: bv8, bs2: bv8, prescaler: bv16)

  /** What `assert_param` demands. */
  predicate ValidConfig(c: Config) {
    c.mode <= 3 && c.sjw <= 3 && c.bs1 <= 15 && c.bs2 <= 7 && 1 <= c.prescaler <= 1024
  }

  function Btr(c: Config): bv32 {
    (c.mode as bv32 << 30) | (c.sjw as bv32 << 24) | (c.bs1 as bv32 << 16) | (c.bs2 as bv32 << 20)
    | (c.prescaler as bv32 - 1)
  }

  /** The five fields of BTR do not overlap: each can be read back. */
  lemma BtrFields(c: Config)
    requires ValidConfig(c)
    ensures var b := Btr(c);
      && b >> 30 == c.mode as bv32 && (b >> 24) & 0x3F == c.sjw as bv32
      && (b >> 16) & 0xF == c.bs1 as bv32 && (b >> 20) & 0xF == c.bs2 as bv32
      && (b & 0xFFFF) + 1 == c.prescaler as bv32
  {
  }

  // ---------------------------------------------------------------- the cell

  datatype Mode = Initialization | Normal | Sleep | Other(code: nat)

  class Cell {
    var mcr: Mcr
    var btr: bv32
    const msr: nat -> bv32  // what the successive reads of MSR return
    var polls: nat          // how many reads so far

    /** Reads MSR and compares. */
    method Shown(mask: bv32, value: bv32) returns (shown: bool)
      modifies this`polls
      ensures shown == Shows(msr, old(polls), mask, value) && polls == old(polls) + 1
    {
      shown := Shows(msr, polls, mask, value);
      polls := polls + 1;
    }

    /** A wait loop with its counter, and the read that checks what came of it. */
    method Await(mask: bv32, value: bv32) returns (ok: bool)
      modifies this`polls
      ensures ok == Acknowledged(msr, old(polls), mask, value)
      ensures polls == Deciding(msr, old(polls), mask, value) + 1
    {
      var spent := 0;
      var shown := Shown(mask, value);
      while !shown && spent != TIMEOUT
        invariant spent <= TIMEOUT && polls == old(polls) + spent + 1
        invariant shown == Shows(msr, old(polls) + spent, mask, value)
        invariant WaitEnd(msr, old(polls) + spent, old(polls) + TIMEOUT, mask, value)
               == WaitEnd(msr, old(polls), old(polls) + TIMEOUT, mask, value)
        decreases TIMEOUT - spent
      {
        spent := spent + 1;
        shown := Shown(mask, value);
      }
      ok := Shown(mask, value);
    }

    /** The option bits. */
    method Configure(c: Config)
      modifies this`mcr
      ensures mcr == Mcr(old(mcr).inrq, old(mcr).sleep, c.txfp, c.rflm, c.nart, c.awum, c.abom, c.ttcm, old(mcr).rest)
    {
      if c.ttcm { mcr := mcr.(ttcm := true); } else { mcr := mcr.(ttcm := false); }
      if c.abom { mcr := mcr.(abom := true); } else { mcr := mcr.(abom := false); }
      if c.awum { mcr := mcr.(awum := true); } else { mcr := mcr.(awum := false); }
      if c.nart { mcr := mcr.(nart := true); } else { mcr := mcr.(nart := false); }
      if c.rflm { mcr := mcr.(rflm := true); } else { mcr := mcr.(rflm := false); }
      if c.txfp { mcr := mcr.(txfp := true); } else { mcr := mcr.(txfp := false); }
    }

    /** `CAN_Init`. If the cell does not enter initialisation, only the two request bits have changed;
      * if it does but fails to leave, the configuration has been written all the same. */
    method Init(c: Config) returns (success: bool)
      requires ValidConfig(c)
      modifies this`mcr, this`btr, this`polls
      ensures var entry := Deciding(msr, old(polls), 1, 1);
        if !Acknowledged(msr, old(polls), 1, 1) then
          && !success && btr == old(btr) && mcr == old(mcr).(sleep := false, inrq := true)
          && polls == entry + 1
        else
          && success == Acknowledged(msr, entry + 1, 1, 0)
          && btr == Btr(c)
          && mcr == Mcr(false, false, c.txfp, c.rflm, c.nart, c.awum, c.abom, c.ttcm, old(mcr).rest)
          && polls == Deciding(msr, entry + 1, 1, 0) + 1
    {
      mcr := mcr.(sleep := false);
      mcr := mcr.(inrq := true);
      var entered := Await(INAK, INAK);
      if !entered {
        success := false;
      } else {
        Configure(c);
        btr := Btr(c);
        mcr := mcr.(inrq := false);
        success := Await(INAK, 0);
      }
    }

    /** `CAN_OperatingModeRequest`. */
    method OperatingModeRequest(mode: Mode) returns (success: bool)
      modifies this`mcr, this`polls
      ensures mode.Other? ==> !success && mcr == old(mcr) && polls == old(polls)
      ensures var shown := if mode.Initialization? then 1 else if mode.Sleep? then 2 else 0;
        !mode.Other? ==>
          && success == Acknowledged(msr, old(polls), 3, shown)
          && polls == Deciding(msr, old(polls), 3, shown) + 1
          && mcr == old(mcr).(inrq := mode.Initialization?, sleep := mode.Sleep?)
    {
      match mode
      case Initialization =>
        mcr := mcr.(sleep := false, inrq := true);
        success := Await(MODE_MASK, INAK);
      case Normal =>
        mcr := mcr.(sleep := false, inrq := false);
        success := Await(MODE_MASK, 0);
      case Sleep =>
        mcr := mcr.(inrq := false, sleep := true);
        success := Await(MODE_MASK, SLAK);
      case Other(_) =>
        success := false;
    }

    /** `CAN_WakeUp`. */
    method WakeUp() returns (ok: bool)
      modifies this`mcr, this`polls
      ensures mcr == old(mcr).(sleep := false)
      ensures ok == Acknowledged(msr, old(polls), 2, 0)
      ensures polls == Deciding(msr, old(polls), 2, 0) + 1
    {
      mcr := mcr.(sleep := false);
      ok := Await(SLAK, 0);
    }
  }
}
