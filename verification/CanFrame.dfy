/** CAN messages in the mailbox registers of bxCAN: what `CAN_Transmit` writes and what `CAN_Receive`
  * reads (CAN Specification 2.0, Part B, section 3.2.1).
  */
module CanFrame {
  import opened Words

  const ID_STANDARD: bv8 := 0
  const ID_EXTENDED: bv8 := 4
  const RTR_DATA: bv8 := 0
  const RTR_REMOTE: bv8 := 2
  const TXRQ: bv32 := 1

  /** `CanTxMsg`. */
  datatype TxMsg = TxMsg(stdId: bv32, extId: bv32, ide: bv8, rtr: bv8, dlc: bv8, data: seq<Byte>)

  /** What `assert_param` demands of a message. */
  predicate ValidMsg(m: TxMsg) {
    && (m.ide == ID_STANDARD || m.ide == ID_EXTENDED)
    && (m.rtr == RTR_DATA || m.rtr == RTR_REMOTE)
    && m.dlc <= 8 && |m.data| == 8
    && (if m.ide == ID_STANDARD then m.stdId <= 0x7FF else m.extId <= 0x1FFF_FFFF)
  }

  /** A transmit mailbox. A receive mailbox has the same layout. */
  datatype Mailbox = Mailbox(ir: bv32, dtr: bv32, dlr: bv32, dhr: bv32)

  /** A message as the bus sees it. */
  datatype Message = Message(extended: bool, id: bv32, remote: bool, dlc: bv8, data: seq<Byte>)

  function MessageOf(m: TxMsg): Message {
    Message(m.ide != ID_STANDARD, if m.ide == ID_STANDARD then m.stdId else m.extId, m.rtr != RTR_DATA, m.dlc, m.data)
  }

  // ---------------------------------------------------------------- writing a mailbox

  function Word(b0: Byte, b1: Byte, b2: Byte, b3: Byte): bv32 {
    (b3 as bv32 << 24) | (b2 as bv32 << 16) | (b1 as bv32 << 8) | b0 as bv32
  }

  function IdBits(m: TxMsg): bv32 {
    if m.ide == ID_STANDARD then (m.stdId << 21) | m.rtr as bv32
    else (m.extId << 3) | m.ide as bv32 | m.rtr as bv32
  }

  function WithDlc(was: bv32, dlc: bv8): bv32 { (was & 0xFFFF_FFF0) | (dlc & 0x0F) as bv32 }

  /** The mailbox after `CAN_Transmit` has filled it; `was` is what it held before. */
  function Filled(was: Mailbox, m: TxMsg): Mailbox
    requires |m.data| == 8
  {
    Mailbox((was.ir & TXRQ) | IdBits(m) | TXRQ,
            WithDlc(was.dtr, m.dlc),
            Word(m.data[0], m.data[1], m.data[2], m.data[3]),
            Word(m.data[4], m.data[5], m.data[6], m.data[7]))
  }

  /** The registers of one transmit mailbox. */
  class TxMailbox {
    var tir: bv32
    var tdtr: bv32
    var tdlr: bv32
    var tdhr: bv32

    function Contents(): Mailbox
      reads this
    {
      Mailbox(tir, tdtr, tdlr, tdhr)
    }

    method SetId(m: TxMsg)
      modifies this`tir
      ensures tir == old(tir) | IdBits(m)
    {
      if m.ide == ID_STANDARD {
        tir := tir | ((m.stdId << 21) | m.rtr as bv32);
      } else {
        tir := tir | ((m.extId << 3) | m.ide as bv32 | m.rtr as bv32);
      }
    }

    method SetDlc(dlc: bv8)
      modifies this`tdtr
      ensures tdtr == WithDlc(old(tdtr), dlc)
    {
      var low := dlc & 0x0F;
      var cleared := tdtr & 0xFFFF_FFF0;
      tdtr := cleared;
      tdtr := cleared | low as bv32;
    }

    /** The part of `CAN_Transmit` that fills the chosen mailbox. */
    method Fill(m: TxMsg)
      requires |m.data| == 8
      modifies this
      ensures Contents() == Filled(old(Contents()), m)
    {
      tir := tir & TXRQ;
      SetId(m);
      SetDlc(m.dlc);
      tdlr := Word(m.data[0], m.data[1], m.data[2], m.data[3]);
      tdhr := Word(m.data[4], m.data[5], m.data[6], m.data[7]);
      tir := tir | TXRQ;
    }
  }

  // ---------------------------------------------------------------- reading a mailbox

  function Low(w: bv32): Byte { (w & 0xFF) as bv8 }

  /** The eight data bytes of a mailbox. */
  function Data(r: Mailbox): (d: seq<Byte>)
    ensures |d| == 8
  {
    [Low(r.dlr), Low(r.dlr >> 8), Low(r.dlr >> 16), Low(r.dlr >> 24),
     Low(r.dhr), Low(r.dhr >> 8), Low(r.dhr >> 16), Low(r.dhr >> 24)]
  }

  predicate Extended(ir: bv32) { ir & 4 != 0 }

  function Id(ir: bv32): bv32 { if Extended(ir) then 0x1FFF_FFFF & (ir >> 3) else 0x7FF & (ir >> 21) }

  predicate Remote(ir: bv32) { ir & 2 != 0 }

  function Dlc(dtr: bv32): bv8 { (dtr & 0x0F) as bv8 }

  /** The message that the registers of a mailbox hold. */
  function Decoded(r: Mailbox): Message {
    Message(Extended(r.ir), Id(r.ir), Remote(r.ir), Dlc(r.dtr), Data(r))
  }

  /** `CanRxMsg`. */
  class RxMessage {
    var stdId: bv32
    var extId: bv32
    var ide: bv8
    var rtr: bv8
    var dlc: bv8
    var data: seq<Byte>
    var fmi: bv8

    /** What a reader of the filled structure finds. */
    function Read(): Message
      reads this
    {
      Message(ide != ID_STANDARD, if ide == ID_STANDARD then stdId else extId, rtr != RTR_DATA, dlc, data)
    }

    /** The identifier field of the other format keeps what it held. */
    method SetId(ir: bv32)
      modifies this`ide, this`stdId, this`extId
      ensures ide == if Extended(ir) then ID_EXTENDED else ID_STANDARD
      ensures if Extended(ir) then extId == Id(ir) && stdId == old(stdId) else stdId == Id(ir) && extId == old(extId)
    {
      var flag := 4 & ir;
      ide := flag as bv8;
      if ide == ID_STANDARD {
        stdId := 0x7FF & (ir >> 21);
      } else {
        extId := 0x1FFF_FFFF & (ir >> 3);
      }
    }

    method SetRtr(ir: bv32)
      modifies this`rtr
      ensures rtr == if Remote(ir) then RTR_REMOTE else RTR_DATA
    {
      var flag := 2 & ir;
      rtr := flag as bv8;
    }

    method SetBody(dtr: bv32, bytes: seq<Byte>)
      modifies this`dlc, this`fmi, this`data
      ensures dlc == Dlc(dtr) && fmi == Low(dtr >> 8) && data == bytes
    {
      dlc := (dtr & 0x0F) as bv8;
      fmi := Low(dtr >> 8);
      data := bytes;
    }
  }

  /** A receive FIFO: its output mailbox and the register with the release bit. */
  class Fifo {
    var output: Mailbox
    var rfr: bv32

    method Release()
      modifies this`rfr
      ensures rfr == old(rfr) | 0x20
    {
      rfr := rfr | 0x20;
    }

    /** `CAN_Receive`. */
    method Receive(message: RxMessage)
      modifies message, this`rfr
      ensures message.Read() == Decoded(output)
      ensures message.ide == ID_STANDARD ==> message.extId == old(message.extId)
      ensures message.ide != ID_STANDARD ==> message.stdId == old(message.stdId)
      ensures message.fmi == Low(output.dtr >> 8)
      ensures rfr == old(rfr) | 0x20
    {
      message.SetId(output.ir);
      message.SetRtr(output.ir);
      message.SetBody(output.dtr, Data(output));
      Release();
    }
  }

  // ---------------------------------------------------------------- the round trip

  lemma WordBytes(b0: Byte, b1: Byte, b2: Byte, b3: Byte)
    ensures var w := Word(b0, b1, b2, b3);
      Low(w) == b0 && Low(w >> 8) == b1 && Low(w >> 16) == b2 && Low(w >> 24) == b3
  {
  }

  lemma IdRoundTrip(m: TxMsg, was: bv32)
    requires ValidMsg(m)
    ensures var ir := (was & TXRQ) | IdBits(m) | TXRQ;
      && (ir & 4 != 0 <==> m.ide != ID_STANDARD)
      && (ir & 2 != 0 <==> m.rtr != RTR_DATA)
      && (m.ide == ID_STANDARD ==> 0x7FF & (ir >> 21) == m.stdId)
      && (m.ide != ID_STANDARD ==> 0x1FFF_FFFF & (ir >> 3) == m.extId)
  {
  }

  lemma DlcRoundTrip(dlc: bv8, was: bv32)
    requires dlc <= 0x0F
    ensures Dlc(WithDlc(was, dlc)) == dlc
  {
  }

  /** Whatever a mailbox held before, filling it with a valid message makes it hold that message. */
  lemma FilledHolds(was: Mailbox, m: TxMsg)
    requires ValidMsg(m)
    ensures Decoded(Filled(was, m)) == MessageOf(m)
  {
    IdRoundTrip(m, was.ir);
    DlcRoundTrip(m.dlc, was.dtr);
    DataRoundTrip(m.data, Filled(was, m));
  }

  /** Bytes 0 to 3 are read from the low data register, 4 to 7 from the high one. */
  lemma DataRoundTrip(data: seq<Byte>, r: Mailbox)
    requires |data| == 8
    requires r.dlr == Word(data[0], data[1], data[2], data[3]) && r.dhr == Word(data[4], data[5], data[6], data[7])
    ensures Data(r) == data
  {
    WordBytes(data[0], data[1], data[2], data[3]);
    WordBytes(data[4], data[5], data[6], data[7]);
  }

  /** Where the identifier register has what: the identifier at bit 21 or at bit 3, IDE, RTR, TXRQ. */
  lemma FilledId(was: Mailbox, m: TxMsg)
    requires ValidMsg(m)
    ensures var ir := Filled(was, m).ir;
      && (m.ide == 0 ==> ir >> 21 == m.stdId && ir & 0x001F_FFFC == 0)
      && (m.ide != 0 ==> ir >> 3 == m.extId && ir & 4 == 4)
      && (ir & 2 == if m.rtr == 0 then 0 else 2) && ir & 1 == 1
  {
  }

  /** A data register has its first byte lowest. */
  lemma FilledWord(b0: Byte, b1: Byte, b2: Byte, b3: Byte)
    ensures var w := Word(b0, b1, b2, b3);
      && w & 0xFF == b0 as bv32 && (w >> 8) & 0xFF == b1 as bv32
      && (w >> 16) & 0xFF == b2 as bv32 && w >> 24 == b3 as bv32
  {
  }

  /** The length code is in the low four bits of its register. */
  lemma FilledDlc(was: bv32, dlc: bv8)
    ensures var w := WithDlc(was, dlc); w & 0xF == (dlc & 0xF) as bv32 && w & 0xFFFF_FFF0 == was & 0xFFFF_FFF0
  {
  }

  /** Data bytes of a frame with data length code `dlc`: at most eight. */
  function Count(dlc: bv8): nat {
    if dlc == 0 then 0 else if dlc == 1 then 1 else if dlc == 2 then 2 else if dlc == 3 then 3
    else if dlc == 4 then 4 else if dlc == 5 then 5 else if dlc == 6 then 6 else if dlc == 7 then 7 else 8
  }

  lemma CountIsCode(dlc: bv8)
    ensures Count(dlc) == if dlc <= 8 then dlc as int else 8
  {
  }

  /** Data bytes that a message puts on the bus; a remote frame has none. */
  function Carries(m: Message): nat { if m.remote then 0 else Count(m.dlc) }

  /** The bits of an identifier register in use: IDE, RTR, and the identifier of its format. */
  function IdMask(ir: bv32): bv32 { if Extended(ir) then 0xFFFF_FFFE else 0xFFE0_0006 }

  /** What the bus carries from a transmit mailbox to a receive mailbox: identifier, IDE, RTR and DLC
    * fields and the data bytes. All else in the receive registers (bit 0, the other format's identifier
    * bits, filter match index, time stamp, further data bytes) is the receiver's own. */
  ghost predicate CarriedOver(sent: Mailbox, got: Mailbox) {
    && got.ir & IdMask(sent.ir) == sent.ir & IdMask(sent.ir)
    && got.dtr & 0x0F == sent.dtr & 0x0F
    && forall i | 0 <= i < Carries(Decoded(sent)) :: Data(got)[i] == Data(sent)[i]
  }

  /** As far as the frame goes, two messages agree. */
  ghost predicate SameFrame(r: Message, s: Message) {
    && r.extended == s.extended && r.id == s.id && r.remote == s.remote && r.dlc == s.dlc
    && |r.data| == |s.data| == 8
    && forall i | 0 <= i < Carries(s) :: r.data[i] == s.data[i]
  }

  lemma CarriedIsSameFrame(sent: Mailbox, got: Mailbox)
    requires CarriedOver(sent, got)
    ensures SameFrame(Decoded(got), Decoded(sent))
  {
    SameId(sent.ir, got.ir);
    SameDlc(sent.dtr, got.dtr);
  }

  /** The round trip. For every valid message, whatever was in the transmit mailbox before and whatever
    * else the receive registers hold, the decoded message is the one sent: same format, identifier,
    * RTR and DLC, and every data byte the frame carries; a data frame of eight bytes comes back whole. */
  lemma RoundTrip(m: TxMsg, was: Mailbox, got: Mailbox)
    requires ValidMsg(m) && CarriedOver(Filled(was, m), got)
    ensures SameFrame(Decoded(got), MessageOf(m))
    ensures m.rtr == RTR_DATA && m.dlc == 8 ==> Decoded(got) == MessageOf(m)
  {
    CarriedIsSameFrame(Filled(was, m), got);
    FilledHolds(was, m);
    if m.rtr == RTR_DATA && m.dlc == 8 {
      SameFrameWhole(Decoded(got), MessageOf(m));
    }
  }

  lemma SameFrameWhole(r: Message, s: Message)
    requires SameFrame(r, s) && !s.remote && s.dlc == 8
    ensures r == s
  {
    assert r.data == s.data;
  }

  lemma SameId(a: bv32, b: bv32)
    requires b & IdMask(a) == a & IdMask(a)
    ensures Extended(a) == Extended(b) && Remote(a) == Remote(b) && Id(a) == Id(b)
  {
  }

  lemma SameDlc(a: bv32, b: bv32)
    requires a & 0x0F == b & 0x0F
    ensures Dlc(a) == Dlc(b)
  {
  }

  lemma StandardIdBits(was: bv32, id: bv32, rtr: bv8)
    requires rtr == RTR_DATA || rtr == RTR_REMOTE
    ensures var ir := (was & TXRQ) | ((id << 21) | rtr as bv32) | TXRQ;
      ir & 4 == 0 && 0x7FF & (ir >> 21) == 0x7FF & id && (0x7FF & id == id <==> id <= 0x7FF)
  {
  }

  /** The demands on a message are needed: a standard identifier survives exactly if it has 11 bits. */
  lemma StandardIdSurvivesIff(was: Mailbox, m: TxMsg)
    requires m.ide == ID_STANDARD && (m.rtr == RTR_DATA || m.rtr == RTR_REMOTE) && |m.data| == 8
    ensures var r := Decoded(Filled(was, m)); !r.extended && (r.id == m.stdId <==> m.stdId <= 0x7FF)
  {
    StandardIdBits(was.ir, m.stdId, m.rtr);
  }
}
