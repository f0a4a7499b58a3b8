/** `GPIO_Init` and `GPIO_EXTILineConfig`: the pin loops over packed mode nibbles as array updates. */
module GpioPort {
  import opened Words

  // ---------------------------------------------------------------- nibbles and bits

  function Nibble(x: bv32, k: bv32): bv32
    requires k <= 7
  {
    (x >> (4 * k)) & 0xF
  }

  predicate Bit(x: bv32, k: bv32)
    requires k <= 15
  {
    (x >> k) & 1 == 1
  }

  /** The test as the loops write it. */
  lemma BitTest(x: bv32, k: bv32)
    requires k <= 15
    ensures x & (1 << k) == 1 << k <==> Bit(x, k)
  {
  }

  lemma PutNibble(x: bv32, k: bv32, v: bv32, j: bv32)
    requires k <= 7 && j <= 7 && v <= 0xF
    ensures Nibble(Put(x, 0xF, 4 * k, v), j) == if j == k then v else Nibble(x, j)
  {
  }

  lemma SetBit(x: bv32, k: bv32, j: bv32)
    requires k <= 15 && j <= 15
    ensures Bit(x | (1 << k), j) <==> j == k || Bit(x, j)
  {
  }

  lemma ClearBit(x: bv32, k: bv32, j: bv32)
    requires k <= 15 && j <= 15
    ensures Bit(x & !(1 << k), j) <==> j != k && Bit(x, j)
  {
  }

  lemma OrBit(x: bv32, y: bv32, k: bv32)
    requires k <= 15
    ensures Bit(x | y, k) <==> Bit(x, k) || Bit(y, k)
  {
  }

  lemma AndBit(x: bv32, y: bv32, k: bv32)
    requires k <= 15
    ensures Bit(x & y, k) <==> Bit(x, k) && Bit(y, k)
  {
  }

  /** The first `n` nibbles, and the first `n` bits, one by one. */
  ghost function Nibbles(x: bv32, n: nat): (s: seq<bv32>)
    requires n <= 8
    ensures |s| == n
  {
    if n == 0 then [] else
      WRange(n - 1, 7);
      Nibbles(x, n - 1) + [Nibble(x, W(n - 1))]
  }

  ghost function Bits(x: bv32, n: nat): (s: seq<bool>)
    requires n <= 16
    ensures |s| == n
  {
    if n == 0 then [] else
      WRange(n - 1, 15);
      Bits(x, n - 1) + [Bit(x, W(n - 1))]
  }

  lemma {:induction false} NibblesAt(x: bv32, n: nat, i: nat)
    requires i < n <= 8
    ensures W(i) <= 7 && Nibbles(x, n)[i] == Nibble(x, W(i))
  {
    if i < n - 1 {
      NibblesAt(x, n - 1, i);
    } else {
      WRange(i, 7);
    }
  }

  lemma {:induction false} BitsAt(x: bv32, n: nat, i: nat)
    requires i < n <= 16
    ensures W(i) <= 15 && Bits(x, n)[i] == Bit(x, W(i))
  {
    if i < n - 1 {
      BitsAt(x, n - 1, i);
    } else {
      WRange(i, 15);
    }
  }

  /** Entry by entry, the bits of a word. */
  lemma NibbleBits(x: bv32)
    ensures var s := Nibbles(x, 8);
      && s[0] == x & 0xF && s[1] == (x >> 4) & 0xF && s[2] == (x >> 8) & 0xF
      && s[3] == (x >> 12) & 0xF && s[4] == (x >> 16) & 0xF && s[5] == (x >> 20) & 0xF
      && s[6] == (x >> 24) & 0xF && s[7] == (x >> 28) & 0xF
  {
    forall i: nat | i < 8 {
      NibblesAt(x, 8, i);
    }
  }

  lemma BitBits(x: bv32)
    ensures var s := Bits(x, 16);
      && s[0] == (x & 0x1 != 0) && s[1] == (x & 0x2 != 0) && s[2] == (x & 0x4 != 0) && s[3] == (x & 0x8 != 0)
      && s[4] == (x & 0x10 != 0) && s[5] == (x & 0x20 != 0) && s[6] == (x & 0x40 != 0) && s[7] == (x & 0x80 != 0)
      && s[8] == (x & 0x100 != 0) && s[9] == (x & 0x200 != 0) && s[10] == (x & 0x400 != 0) && s[11] == (x & 0x800 != 0)
      && s[12] == (x & 0x1000 != 0) && s[13] == (x & 0x2000 != 0)
      && s[14] == (x & 0x4000 != 0) && s[15] == (x & 0x8000 != 0)
  {
    forall i: nat | i < 16 {
      BitsAt(x, 16, i);
    }
  }

  lemma PutNibblesSame(x: bv32, k: nat, v: bv32)
    requires k < 8 && v <= 0xF
    ensures W(k) <= 7 && Nibbles(Put(x, 0xF, 4 * W(k), v), 8)[k] == v
  {
    WRange(k, 7);
    NibblesAt(Put(x, 0xF, 4 * W(k), v), 8, k);
    PutNibble(x, W(k), v, W(k));
  }

  lemma PutNibblesOther(x: bv32, k: nat, v: bv32, i: nat)
    requires k < 8 && i < 8 && i != k && v <= 0xF
    ensures W(k) <= 7 && Nibbles(Put(x, 0xF, 4 * W(k), v), 8)[i] == Nibbles(x, 8)[i]
  {
    WRange(k, 7);
    NibblesAt(x, 8, i);
    NibblesAt(Put(x, 0xF, 4 * W(k), v), 8, i);
    WInjective(i, k);
    PutNibble(x, W(k), v, W(i));
  }

  /** Read-modify-write of one nibble is an update of the array. */
  lemma PutNibbles(x: bv32, k: nat, v: bv32)
    requires k < 8 && v <= 0xF
    ensures W(k) <= 7 && Nibbles(Put(x, 0xF, 4 * W(k), v), 8) == Nibbles(x, 8)[k := v]
  {
    PutNibblesSame(x, k, v);
    var was, now := Nibbles(x, 8)[k := v], Nibbles(Put(x, 0xF, 4 * W(k), v), 8);
    forall i: nat | i < 8
      ensures now[i] == was[i]
    {
      if i != k {
        PutNibblesOther(x, k, v, i);
      }
    }
  }

  /** A write of one bit to BSRR, to BRR. */
  function Raised(x: bv32, k: bv32): bv32
    requires k <= 15
  {
    x | (1 << k)
  }

  function Lowered(x: bv32, k: bv32): bv32
    requires k <= 15
  {
    x & !(1 << k)
  }

  lemma SameBitAt(x: bv32, y: bv32, i: nat)
    requires i < 16 && W(i) <= 15 && Bit(x, W(i)) == Bit(y, W(i))
    ensures Bits(x, 16)[i] == Bits(y, 16)[i]
  {
    BitsAt(x, 16, i);
    BitsAt(y, 16, i);
  }

  lemma RaisedOtherBit(x: bv32, k: bv32, j: bv32)
    requires k <= 15 && j <= 15 && j != k
    ensures Bit(Raised(x, k), j) == Bit(x, j) && Bit(Lowered(x, k), j) == Bit(x, j)
  {
    SetBit(x, k, j);
    ClearBit(x, k, j);
  }

  lemma RaisedOther(x: bv32, a: bv32, i: nat)
    requires a <= 15 && i < 16 && a != W(i)
    ensures Bits(Raised(x, a), 16)[i] == Bits(x, 16)[i]
  {
    WRange(i, 15);
    RaisedOtherBit(x, a, W(i));
    SameBitAt(Raised(x, a), x, i);
  }

  lemma LoweredOther(x: bv32, a: bv32, i: nat)
    requires a <= 15 && i < 16 && a != W(i)
    ensures Bits(Lowered(x, a), 16)[i] == Bits(x, 16)[i]
  {
    WRange(i, 15);
    RaisedOtherBit(x, a, W(i));
    SameBitAt(Lowered(x, a), x, i);
  }

  lemma RaisedSame(x: bv32, k: nat)
    requires k < 16
    ensures W(k) <= 15 && Bits(Raised(x, W(k)), 16)[k]
  {
    WRange(k, 15);
    BitsAt(Raised(x, W(k)), 16, k);
    SetBit(x, W(k), W(k));
  }

  lemma LoweredSame(x: bv32, k: nat)
    requires k < 16
    ensures W(k) <= 15 && !Bits(Lowered(x, W(k)), 16)[k]
  {
    WRange(k, 15);
    BitsAt(Lowered(x, W(k)), 16, k);
    ClearBit(x, W(k), W(k));
  }

  lemma RaiseBit(x: bv32, k: nat)
    requires k < 16
    ensures W(k) <= 15 && Bits(Raised(x, W(k)), 16) == Bits(x, 16)[k := true]
  {
    RaisedSame(x, k);
    var was, now := Bits(x, 16)[k := true], Bits(Raised(x, W(k)), 16);
    forall i: nat | i < 16
      ensures now[i] == was[i]
    {
      if i != k {
        WInjective(i, k);
        RaisedOther(x, W(k), i);
      }
    }
  }

  lemma LowerBit(x: bv32, k: nat)
    requires k < 16
    ensures W(k) <= 15 && Bits(Lowered(x, W(k)), 16) == Bits(x, 16)[k := false]
  {
    LoweredSame(x, k);
    var was, now := Bits(x, 16)[k := false], Bits(Lowered(x, W(k)), 16);
    forall i: nat | i < 16
      ensures now[i] == was[i]
    {
      if i != k {
        WInjective(i, k);
        LoweredOther(x, W(k), i);
      }
    }
  }

  /** The set of pins that two masks select together. */
  lemma UnionOfMasks(x: bv32, y: bv32, i: nat)
    requires i < 16
    ensures Bits(x | y, 16)[i] == (Bits(x, 16)[i] || Bits(y, 16)[i])
    ensures Bits(x & y, 16)[i] == (Bits(x, 16)[i] && Bits(y, 16)[i])
  {
    WRange(i, 15);
    BitsAt(x, 16, i);
    BitsAt(y, 16, i);
    BitsAt(x | y, 16, i);
    BitsAt(x & y, 16, i);
    OrBit(x, y, W(i));
    AndBit(x, y, W(i));
  }

  // ---------------------------------------------------------------- the port as an array of pins

  const IPD: bv32 := 0x28
  const IPU: bv32 := 0x48

  /** `GPIOMode_TypeDef` and `GPIOSpeed_TypeDef`. */
  predicate ValidMode(mode: bv32) {
    || mode == 0 || mode == 0x04 || mode == IPD || mode == IPU || mode == 0x14 || mode == 0x10 || mode == 0x1C
      || mode == 0x18
  }

  predicate ValidSpeed(speed: bv32) { 1 <= speed <= 3 }

  /** The mode nibble; the speed counts for outputs only. */
  function NibbleOf(mode: bv32, speed: bv32): bv32 {
    if mode & 0x10 != 0 then (mode & 0xF) | speed else mode & 0xF
  }

  lemma NibbleFits(mode: bv32, speed: bv32)
    requires ValidMode(mode) && (mode & 0x10 != 0 ==> ValidSpeed(speed))
    ensures NibbleOf(mode, speed) <= 0xF
  {
  }

  /** What `GPIO_Init` gives each selected pin; pulled inputs also get their output bit. */
  datatype Setting = Setting(nibble: bv32, pull: Pull)

  datatype Pull = None | Down | Up

  function PullOf(mode: bv32): Pull { if mode == IPD then Down else if mode == IPU then Up else None }

  function SettingOf(mode: bv32, speed: bv32): Setting { Setting(NibbleOf(mode, speed), PullOf(mode)) }

  function Driven(levels: seq<bool>, pin: nat, pull: Pull): seq<bool>
    requires pin < |levels|
  {
    if pull.None? then levels else levels[pin := pull.Up?]
  }

  /** Mode nibble and output bit of each pin. */
  datatype View = View(nibble: seq<bv32>, level: seq<bool>)

  ghost predicate Wf(v: View) { |v.nibble| == |v.level| == 16 }

  /** The selected pins from `lo` on and below `hi` take the setting; all others keep what they have. */
  ghost function NibblesWith(was: seq<bv32>, sel: seq<bool>, lo: nat, hi: nat, s: Setting): (r: seq<bv32>)
    requires hi <= |was| <= |sel|
    ensures |r| == |was|
    ensures forall i | 0 <= i < |was| :: r[i] == if lo <= i < hi && sel[i] then s.nibble else was[i]
  {
    seq(|was|, i requires 0 <= i < |was| => if lo <= i < hi && sel[i] then s.nibble else was[i])
  }

  ghost function LevelsWith(was: seq<bool>, sel: seq<bool>, lo: nat, hi: nat, s: Setting): (r: seq<bool>)
    requires hi <= |was| <= |sel|
    ensures |r| == |was|
    ensures forall i | 0 <= i < |was| :: r[i] == if lo <= i < hi && sel[i] && !s.pull.None? then s.pull.Up? else was[i]
  {
    seq(|was|, i requires 0 <= i < |was| => if lo <= i < hi && sel[i] && !s.pull.None? then s.pull.Up? else was[i])
  }

  /** One more pin. */
  lemma WithStep(nibbles: seq<bv32>, levels: seq<bool>, sel: seq<bool>, base: nat, n: nat, s: Setting)
    requires n < |nibbles| == 8 && base + 8 <= |levels| == |sel| == 16
    ensures var low := sel[base..base + 8];
      NibblesWith(nibbles, low, 0, n + 1, s)
      == if sel[base + n] then NibblesWith(nibbles, low, 0, n, s)[n := s.nibble] else NibblesWith(nibbles, low, 0, n, s)
    ensures LevelsWith(levels, sel, base, base + (n + 1), s)
         == if sel[base + n] then Driven(LevelsWith(levels, sel, base, base + n, s), base + n, s.pull)
            else LevelsWith(levels, sel, base, base + n, s)
  {
  }

  ghost function Configured(v: View, sel: seq<bool>, s: Setting): (r: View)
    requires Wf(v) && |sel| == 16
    ensures Wf(r)
  {
    View(NibblesWith(v.nibble, sel, 0, 16, s), LevelsWith(v.level, sel, 0, 16, s))
  }

  /** What a selected pin ends with, for each of the eight modes: in the low two bits of its nibble the speed of
    * an output and 0 for an input, in the high two the configuration; and the output bit of a pulled input. */
  ghost predicate PinAs(nibble: bv32, level: bool, was: bool, mode: bv32, speed: bv32) {
    var isOutput := mode == 0x10 || mode == 0x14 || mode == 0x18 || mode == 0x1C;
    && nibble & 3 == (if isOutput then speed else 0)
    && (mode == 0x00 || mode == 0x10 ==> nibble >> 2 == 0)                  // analog; push-pull
    && (mode == 0x04 || mode == 0x14 ==> nibble >> 2 == 1)                  // floating; open drain
    && (mode == 0x28 || mode == 0x48 || mode == 0x18 ==> nibble >> 2 == 2)  // pulled; alternate push-pull
    && (mode == 0x1C ==> nibble >> 2 == 3)                                  // alternate open drain
    && level == (if mode == 0x28 then false else if mode == 0x48 then true else was)
  }

  lemma NibbleAsNamed(mode: bv32, speed: bv32, was: bool)
    requires ValidMode(mode) && (mode & 0x10 != 0 ==> ValidSpeed(speed))
    ensures var pull := PullOf(mode);
      PinAs(NibbleOf(mode, speed), if pull.None? then was else pull.Up?, was, mode, speed)
  {
  }

  lemma PinAfterInit(v: View, sel: seq<bool>, mode: bv32, speed: bv32, i: nat)
    requires Wf(v) && |sel| == 16 && i < 16 && sel[i]
    requires ValidMode(mode) && (mode & 0x10 != 0 ==> ValidSpeed(speed))
    ensures var r := Configured(v, sel, SettingOf(mode, speed));
      PinAs(r.nibble[i], r.level[i], v.level[i], mode, speed)
  {
    NibbleAsNamed(mode, speed, v.level[i]);
  }

  class Port {
    var crl: bv32
    var crh: bv32
    var odr: bv32

    ghost function Meaning(): (v: View)
      reads this
      ensures Wf(v)
    {
      View(Nibbles(crl, 8) + Nibbles(crh, 8), Bits(odr, 16))
    }

    method WriteBrr(pin: nat)
      requires pin < 16
      modifies this`odr
      ensures Bits(odr, 16) == Bits(old(odr), 16)[pin := false]
    {
      LowerBit(odr, pin);
      odr := Lowered(odr, W(pin));
    }

    method WriteBsrr(pin: nat)
      requires pin < 16
      modifies this`odr
      ensures Bits(odr, 16) == Bits(old(odr), 16)[pin := true]
    {
      RaiseBit(odr, pin);
      odr := Raised(odr, W(pin));
    }

    /** The output bit of one pin, for the two pulled input modes. */
    method Drive(pin: nat, mode: bv32)
      requires pin < 16
      modifies this`odr
      ensures Bits(odr, 16) == Driven(Bits(old(odr), 16), pin, PullOf(mode))
    {
      if mode == IPD {
        WriteBrr(pin);
      } else if mode == IPU {
        WriteBsrr(pin);
      }
    }

    /** One selected pin: its nibble, and its output bit. */
    method ConfigurePin(reg: bv32, pinpos: nat, pin: nat, mode: bv32, currentMode: bv32) returns (tmpreg: bv32)
      requires pinpos < 8 && pin < 16 && currentMode <= 0xF
      modifies this`odr
      ensures Nibbles(tmpreg, 8) == Nibbles(reg, 8)[pinpos := currentMode]
      ensures Bits(odr, 16) == Driven(Bits(old(odr), 16), pin, PullOf(mode))
    {
      tmpreg := SetNibble(reg, pinpos, currentMode);
      Drive(pin, mode);
    }

    /** One of the two loops: the eight pins from `base` on, whose nibbles are in `reg`. */
    method Half(reg: bv32, pins: bv32, base: nat, mode: bv32, speed: bv32, currentMode: bv32) returns (tmpreg: bv32)
      requires base == 0 || base == 8
      requires currentMode == NibbleOf(mode, speed) <= 0xF
      modifies this`odr
      ensures Nibbles(tmpreg, 8) == NibblesWith(Nibbles(reg, 8), Bits(pins, 16)[base..base + 8], 0, 8,
          SettingOf(mode, speed))
      ensures Bits(odr, 16) == LevelsWith(Bits(old(odr), 16), Bits(pins, 16), base, base + 8, SettingOf(mode, speed))
    {
      ghost var sel, s := Bits(pins, 16), SettingOf(mode, speed);
      tmpreg := reg;
      var pinpos := 0;
      while pinpos < 8
        invariant pinpos <= 8
        invariant Nibbles(tmpreg, 8) == NibblesWith(Nibbles(reg, 8), sel[base..base + 8], 0, pinpos, s)
        invariant Bits(odr, 16) == LevelsWith(Bits(old(odr), 16), sel, base, base + pinpos, s)
      {
        WithStep(Nibbles(reg, 8), Bits(old(odr), 16), sel, base, pinpos, s);
        var selected := Selected(pins, base + pinpos);
        if selected {
          tmpreg := ConfigurePin(tmpreg, pinpos, base + pinpos, mode, currentMode);
        }
        pinpos := pinpos + 1;
      }
    }

    /** The low pins; without any selected the loop is skipped. */
    method InitLow(pins: bv32, mode: bv32, speed: bv32, currentMode: bv32)
      requires currentMode == NibbleOf(mode, speed) <= 0xF
      modifies this`crl, this`odr
      ensures Nibbles(crl, 8) == NibblesWith(Nibbles(old(crl), 8), Bits(pins, 16)[0..8], 0, 8, SettingOf(mode, speed))
      ensures Bits(odr, 16) == LevelsWith(Bits(old(odr), 16), Bits(pins, 16), 0, 8, SettingOf(mode, speed))
    {
      var any := AnyLow(pins);
      if any {
        crl := Half(crl, pins, 0, mode, speed, currentMode);
      }
    }

    /** The high pins. */
    method InitHigh(pins: bv32, mode: bv32, speed: bv32, currentMode: bv32)
      requires currentMode == NibbleOf(mode, speed) <= 0xF
      modifies this`crh, this`odr
      ensures Nibbles(crh, 8) == NibblesWith(Nibbles(old(crh), 8), Bits(pins, 16)[8..16], 0, 8, SettingOf(mode, speed))
      ensures Bits(odr, 16) == LevelsWith(Bits(old(odr), 16), Bits(pins, 16), 8, 16, SettingOf(mode, speed))
    {
      var any := AnyHigh(pins);
      if any {
        crh := Half(crh, pins, 8, mode, speed, currentMode);
      }
    }

    /** `GPIO_Init`. */
    method Init(pins: bv32, mode: bv32, speed: bv32)
      requires ValidMode(mode) && (mode & 0x10 != 0 ==> ValidSpeed(speed)) && pins <= 0xFFFF
      modifies this
      ensures Meaning() == Configured(old(Meaning()), Bits(pins, 16), SettingOf(mode, speed))
      ensures forall i: nat | i < 16 && Bits(pins, 16)[i] ::
          PinAs(Meaning().nibble[i], Meaning().level[i], old(Meaning()).level[i], mode, speed)
    {
      ghost var was := Meaning();
      Write(pins, mode, speed);
      forall i: nat | i < 16 && Bits(pins, 16)[i] {
        PinAfterInit(was, Bits(pins, 16), mode, speed, i);
      }
    }

    method Write(pins: bv32, mode: bv32, speed: bv32)
      requires ValidMode(mode) && (mode & 0x10 != 0 ==> ValidSpeed(speed)) && pins <= 0xFFFF
      modifies this
      ensures Meaning() == Configured(old(Meaning()), Bits(pins, 16), SettingOf(mode, speed))
    {
      NibbleFits(mode, speed);
      TwoHalves(Nibbles(crl, 8), Nibbles(crh, 8), Bits(odr, 16), Bits(pins, 16), SettingOf(mode, speed));
      var currentMode := CurrentMode(mode, speed);
      InitLow(pins, mode, speed, currentMode);
      InitHigh(pins, mode, speed, currentMode);
    }
  }

  /** Which register has what: pins 0 to 7 in CRL, 8 to 15 in CRH. */
  lemma Placement(port: Port)
    ensures var v := port.Meaning();
      v.nibble[..8] == Nibbles(port.crl, 8) && v.nibble[8..] == Nibbles(port.crh, 8) && v.level == Bits(port.odr, 16)
  {
  }

  lemma TwoHalves(low: seq<bv32>, high: seq<bv32>, levels: seq<bool>, sel: seq<bool>, s: Setting)
    requires |low| == |high| == 8 && |levels| == |sel| == 16
    ensures NibblesWith(low, sel[0..8], 0, 8, s) + NibblesWith(high, sel[8..16], 0, 8, s)
        == NibblesWith(low + high, sel, 0, 16, s)
    ensures LevelsWith(LevelsWith(levels, sel, 0, 8, s), sel, 8, 16, s) == LevelsWith(levels, sel, 0, 16, s)
  {
  }

  method CurrentMode(mode: bv32, speed: bv32) returns (currentMode: bv32)
    ensures currentMode == NibbleOf(mode, speed)
  {
    currentMode := mode & 0xF;
    if mode & 0x10 != 0 {
      currentMode := currentMode | speed;
    }
  }

  method Selected(pins: bv32, pin: nat) returns (selected: bool)
    requires pin < 16
    ensures selected == Bits(pins, 16)[pin]
  {
    WRange(pin, 15);
    BitsAt(pins, 16, pin);
    BitTest(pins, W(pin));
    var pos := 1 << W(pin);
    var currentPin := pins & pos;
    selected := currentPin == pos;
  }

  lemma FourTimes(k: bv32)
    requires k <= 7
    ensures k << 2 == 4 * k
  {
  }

  lemma LowClear(pins: bv32, k: bv32)
    requires pins & 0xFF == 0 && k <= 7
    ensures !Bit(pins, k)
  {
  }

  lemma HighClear(pins: bv32, k: bv32)
    requires pins <= 0xFF && 8 <= k <= 15
    ensures !Bit(pins, k)
  {
  }

  /** Either loop may be skipped when it would select nothing. */
  lemma NoLowPins(pins: bv32)
    ensures pins & 0xFF == 0 ==> forall i | 0 <= i < 8 :: !Bits(pins, 16)[i]
  {
    if pins & 0xFF == 0 {
      forall i: nat | i < 8
        ensures !Bits(pins, 16)[i]
      {
        BitsAt(pins, 16, i);
        WRange(i, 7);
        LowClear(pins, W(i));
      }
    }
  }

  lemma NoHighPins(pins: bv32)
    ensures pins <= 0xFF ==> forall i | 8 <= i < 16 :: !Bits(pins, 16)[i]
  {
    if pins <= 0xFF {
      forall i: nat | 8 <= i < 16
        ensures !Bits(pins, 16)[i]
      {
        BitsAt(pins, 16, i);
        WRange(8, i);
        HighClear(pins, W(i));
      }
    }
  }

  method AnyLow(pins: bv32) returns (any: bool)
    ensures !any ==> forall i | 0 <= i < 8 :: !Bits(pins, 16)[i]
  {
    NoLowPins(pins);
    any := pins & 0xFF != 0;
  }

  method AnyHigh(pins: bv32) returns (any: bool)
    ensures !any ==> forall i | 8 <= i < 16 :: !Bits(pins, 16)[i]
  {
    NoHighPins(pins);
    any := pins > 0xFF;
  }

  method SetNibble(reg: bv32, k: nat, v: bv32) returns (r: bv32)
    requires k < 8 && v <= 0xF
    ensures Nibbles(r, 8) == Nibbles(reg, 8)[k := v]
  {
    PutNibbles(reg, k, v);
    FourTimes(W(k));
    var pos := W(k) << 2;
    r := Replace(reg, 0xF, pos, v);
  }

  // ---------------------------------------------------------------- laws of configuring

  lemma UnionSel(v: View, a: seq<bool>, b: seq<bool>, u: seq<bool>, s: Setting)
    requires Wf(v) && |a| == |b| == |u| == 16 && forall i | 0 <= i < 16 :: u[i] == (a[i] || b[i])
    ensures Configured(Configured(v, a, s), b, s) == Configured(v, u, s)
  {
  }

  /** Configuring two sets of pins alike, one after the other, is configuring their union. */
  lemma Union(v: View, a: bv32, b: bv32, s: Setting)
    requires Wf(v)
    ensures Configured(Configured(v, Bits(a, 16), s), Bits(b, 16), s) == Configured(v, Bits(a | b, 16), s)
  {
    forall i: nat | i < 16
      ensures Bits(a | b, 16)[i] == (Bits(a, 16)[i] || Bits(b, 16)[i])
    {
      UnionOfMasks(a, b, i);
    }
    UnionSel(v, Bits(a, 16), Bits(b, 16), Bits(a | b, 16), s);
  }

  lemma NothingSelected(i: nat)
    requires i < 16
    ensures !Bits(0, 16)[i]
  {
    BitsAt(0, 16, i);
  }

  lemma DisjointCommuteSel(v: View, a: seq<bool>, b: seq<bool>, s: Setting, t: Setting)
    requires Wf(v) && |a| == |b| == 16 && forall i | 0 <= i < 16 :: !(a[i] && b[i])
    ensures Configured(Configured(v, a, s), b, t) == Configured(Configured(v, b, t), a, s)
  {
  }

  /** Calls for disjoint sets of pins may be swapped, whatever the two settings are. */
  lemma DisjointCommute(v: View, a: bv32, b: bv32, s: Setting, t: Setting)
    requires Wf(v) && a & b == 0
    ensures Configured(Configured(v, Bits(a, 16), s), Bits(b, 16), t)
        == Configured(Configured(v, Bits(b, 16), t), Bits(a, 16), s)
  {
    forall i: nat | i < 16
      ensures !(Bits(a, 16)[i] && Bits(b, 16)[i])
    {
      UnionOfMasks(a, b, i);
      NothingSelected(i);
    }
    DisjointCommuteSel(v, Bits(a, 16), Bits(b, 16), s, t);
  }

  /** A later call for (at least) the same pins hides an earlier one, except that a setting without pull
    * leaves the output bits of an earlier pull behind. */
  lemma LaterHides(v: View, a: bv32, s: Setting, t: Setting)
    requires Wf(v)
    ensures var both, last := Configured(Configured(v, Bits(a, 16), s), Bits(a, 16), t), Configured(v, Bits(a, 16), t);
      both.nibble == last.nibble && (!t.pull.None? ==> both.level == last.level)
  {
  }

  datatype Call = Call(pins: bv32, setting: Setting)

  /** Any sequence of `GPIO_Init` calls on one port. */
  ghost function Run(v: View, calls: seq<Call>): (r: View)
    requires Wf(v)
    ensures Wf(r)
  {
    if calls == [] then v
    else
      var c := calls[|calls| - 1];
      Configured(Run(v, calls[..|calls| - 1]), Bits(c.pins, 16), c.setting)
  }

  /** The nibble of the last call that selected pin `i`. */
  ghost function LastNibble(calls: seq<Call>, i: nat, was: bv32): bv32
    requires i < 16
  {
    if calls == [] then was
    else
      var c := calls[|calls| - 1];
      if Bits(c.pins, 16)[i] then c.setting.nibble else LastNibble(calls[..|calls| - 1], i, was)
  }

  /** The level of the last call that selected pin `i` with a pull. */
  ghost function LastLevel(calls: seq<Call>, i: nat, was: bool): bool
    requires i < 16
  {
    if calls == [] then was
    else
      var c := calls[|calls| - 1];
      if Bits(c.pins, 16)[i] && !c.setting.pull.None? then c.setting.pull.Up?
      else LastLevel(calls[..|calls| - 1], i, was)
  }

  /** After any sequence of calls each pin has the mode that the last call for it gave. */
  lemma {:induction false} PinAfterRun(v: View, calls: seq<Call>, i: nat)
    requires Wf(v) && i < 16
    ensures Run(v, calls).nibble[i] == LastNibble(calls, i, v.nibble[i])
    ensures Run(v, calls).level[i] == LastLevel(calls, i, v.level[i])
  {
    if calls == [] {
    } else {
      PinAfterRun(v, calls[..|calls| - 1], i);
    }
  }

  // ---------------------------------------------------------------- external interrupt lines

  /** The four entries in use of each register. */
  ghost function Quarters(exticr: seq<bv32>): (q: seq<seq<bv32>>)
    requires |exticr| == 4
    ensures |q| == 4 && forall i | 0 <= i < 4 :: q[i] == Nibbles(exticr[i], 8)[..4]
  {
    [Nibbles(exticr[0], 8)[..4], Nibbles(exticr[1], 8)[..4], Nibbles(exticr[2], 8)[..4], Nibbles(exticr[3], 8)[..4]]
  }

  /** The port that each of the 16 lines is connected to: four to a register. */
  ghost function Lines(exticr: seq<bv32>): (r: seq<bv32>)
    requires |exticr| == 4
    ensures |r| == 16
  {
    var q := Quarters(exticr);
    q[0] + q[1] + q[2] + q[3]
  }

  /** An update in one of four quarters. */
  lemma QuarterUpdate(q: seq<seq<bv32>>, k: nat, j: nat, x: bv32)
    requires |q| == 4 && (forall i | 0 <= i < 4 :: |q[i]| == 4) && k < 4 && j < 4
    ensures var r := q[k := q[k][j := x]];
      r[0] + r[1] + r[2] + r[3] == (q[0] + q[1] + q[2] + q[3])[4 * k + j := x]
  {
  }

  lemma LinesUpdate(exticr: seq<bv32>, k: nat, j: nat, x: bv32, port: bv32)
    requires |exticr| == 4 && k < 4 && j < 4 && Nibbles(x, 8) == Nibbles(exticr[k], 8)[j := port]
    ensures Lines(exticr[k := x]) == Lines(exticr)[4 * k + j := port]
  {
    var q, r := Quarters(exticr), Quarters(exticr[k := x]);
    assert r[k] == q[k][j := port];
    assert r == q[k := q[k][j := port]];
    QuarterUpdate(q, k, j, port);
  }

  /** Four lines to a register, the first in the lowest bits. */
  lemma LinePlacement(exticr: seq<bv32>, line: nat)
    requires |exticr| == 4 && line < 16
    ensures Lines(exticr)[line] == Nibbles(exticr[line / 4], 8)[line % 4]
  {
  }

  /** `GPIO_EXTILineConfig`: one line changes its port, all others stay. */
  method ExtiLineConfig(exticr: array<bv32>, port: bv32, pin: nat)
    requires exticr.Length == 4 && port <= 6 && pin < 16
    modifies exticr
    ensures Lines(exticr[..]) == Lines(old(exticr[..]))[pin := port]
  {
    ghost var was := exticr[..];
    var x := SetNibble(exticr[pin / 4], pin % 4, port);
    LinesUpdate(was, pin / 4, pin % 4, x, port);
    exticr[pin / 4] := x;
    assert exticr[..] == was[pin / 4 := x];
  }
}
