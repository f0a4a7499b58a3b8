/** The clock tree of the connectivity-line STM32F10x: the configuration calls of the RCC driver and the
  * frequencies that `RCC_GetClocksFreq` computes from the registers.
  */
module ClockTree {
  import opened Words

  const HSI: nat := 8_000_000

  // ---------------------------------------------------------------- registers and fields

  /** The fields of CFGR and CFGR2, each in its place in the word; PPRE2 is seen where PPRE1 is. `rest` and
    * `rest2` are all the bits above, which no call here writes. */
  datatype Fields = Fields(
    sw: bv32, sws: bv32, hpre: bv32, ppre1: bv32, ppre2: bv32, adcpre: bv32, pllsrc: bv32, pllxtpre: bv32, pllmul: bv32,
    rest: bv32,
    prediv1: bv32, prediv1src: bv32, prediv2: bv32, pll2mul: bv32, pll3mul: bv32, rest2: bv32)

  function FieldsOf(cfgr: bv32, cfgr2: bv32): Fields {
    Fields(cfgr & 0x3, cfgr & 0xC, cfgr & 0xF0, cfgr & 0x700, (cfgr & 0x3800) >> 3, cfgr & 0xC000,
           cfgr & 0x1_0000, cfgr & 0x2_0000, cfgr & 0x3C_0000, cfgr & 0xFFC0_0000,
           cfgr2 & 0xF, cfgr2 & 0x1_0000, cfgr2 & 0xF0, cfgr2 & 0xF00, cfgr2 & 0xF000, cfgr2 & 0xFFFE_0000)
  }

  // ---------------------------------------------------------------- calls

  /** The configuration calls, and the hardware carrying out a switch of the system clock. */
  datatype Call =
    | Sysclk(source: bv32) | Hclk(div: bv32) | Pclk1(div: bv32) | Pclk2(div: bv32) | Adcclk(div: bv32)
    | Pll(source: bv32, mul: bv32) | Prediv1(source: bv32, div: bv32) | Prediv2(div: bv32)
    | Pll2(mul: bv32) | Pll3(mul: bv32) | Switched(sws: bv32)

  /** The arguments `assert_param` lets through. */
  predicate Named(c: Call) {
    match c
    case Sysclk(v) => v == 0 || v == 1 || v == 2
    case Hclk(v) =>
      v == 0 || v == 0x80 || v == 0x90 || v == 0xA0 || v == 0xB0 || v == 0xC0 || v == 0xD0 || v == 0xE0 || v == 0xF0
    case Pclk1(v) => v == 0 || v == 0x400 || v == 0x500 || v == 0x600 || v == 0x700
    case Pclk2(v) => v == 0 || v == 0x400 || v == 0x500 || v == 0x600 || v == 0x700
    case Adcclk(v) => v == 0 || v == 0x4000 || v == 0x8000 || v == 0xC000
    case Pll(s, m) =>
      && (s == 0 || s == 0x1_0000)
      && (m == 0x8_0000 || m == 0xC_0000 || m == 0x10_0000 || m == 0x14_0000 || m == 0x18_0000 || m == 0x1C_0000
          || m == 0x34_0000)
    case Prediv1(s, d) => (s == 0 || s == 0x1_0000) && d <= 0xF
    case Prediv2(d) => d == d & 0xF0
    case Pll2(m) =>
      || m == 0x600 || m == 0x700 || m == 0x800 || m == 0x900 || m == 0xA00 || m == 0xB00 || m == 0xC00 || m == 0xE00
      || m == 0xF00
    case Pll3(m) =>
      || m == 0x6000 || m == 0x7000 || m == 0x8000 || m == 0x9000 || m == 0xA000 || m == 0xB000 || m == 0xC000
      || m == 0xE000 || m == 0xF000
    case Switched(v) => v == 0 || v == 4 || v == 8
  }

  /** What a call means for the fields. */
  function Called(f: Fields, c: Call): Fields {
    match c
    case Sysclk(v) => f.(sw := v)
    case Hclk(v) => f.(hpre := v)
    case Pclk1(v) => f.(ppre1 := v)
    case Pclk2(v) => f.(ppre2 := v)
    case Adcclk(v) => f.(adcpre := v)
    case Pll(s, m) => f.(pllsrc := s, pllmul := m)
    case Prediv1(s, d) => f.(prediv1src := s, prediv1 := d)
    case Prediv2(d) => f.(prediv2 := d)
    case Pll2(m) => f.(pll2mul := m)
    case Pll3(m) => f.(pll3mul := m)
    case Switched(v) => f.(sws := v)
  }

  // The read-modify-write of each call, on the word it changes; `other` is the other register.

  method SysclkWord(word: bv32, source: bv32, ghost other: bv32) returns (tmpreg: bv32)
    requires Named(Sysclk(source))
    ensures FieldsOf(tmpreg, other) == Called(FieldsOf(word, other), Sysclk(source))
  {
    tmpreg := word & 0xFFFF_FFFC;
    tmpreg := tmpreg | source;
  }

  method HclkWord(word: bv32, div: bv32, ghost other: bv32) returns (tmpreg: bv32)
    requires Named(Hclk(div))
    ensures FieldsOf(tmpreg, other) == Called(FieldsOf(word, other), Hclk(div))
  {
    tmpreg := word & 0xFFFF_FF0F;
    tmpreg := tmpreg | div;
  }

  method Pclk1Word(word: bv32, div: bv32, ghost other: bv32) returns (tmpreg: bv32)
    requires Named(Pclk1(div))
    ensures FieldsOf(tmpreg, other) == Called(FieldsOf(word, other), Pclk1(div))
  {
    tmpreg := word & 0xFFFF_F8FF;
    tmpreg := tmpreg | div;
  }

  method Pclk2Word(word: bv32, div: bv32, ghost other: bv32) returns (tmpreg: bv32)
    requires Named(Pclk2(div))
    ensures FieldsOf(tmpreg, other) == Called(FieldsOf(word, other), Pclk2(div))
  {
    tmpreg := word & 0xFFFF_C7FF;
    tmpreg := tmpreg | (div << 3);
  }

  lemma AdcArgument(div: bv32)
    requires Named(Adcclk(div))
    ensures div & 0xC000 == div
  {
  }

  method AdcclkWord(word: bv32, div: bv32, ghost other: bv32) returns (tmpreg: bv32)
    requires div & 0xC000 == div
    ensures FieldsOf(tmpreg, other) == Called(FieldsOf(word, other), Adcclk(div))
  {
    tmpreg := word & 0xFFFF_3FFF;
    tmpreg := tmpreg | div;
  }

  method PllWord(word: bv32, source: bv32, mul: bv32, ghost other: bv32) returns (tmpreg: bv32)
    requires Named(Pll(source, mul))
    ensures FieldsOf(tmpreg, other) == Called(FieldsOf(word, other), Pll(source, mul))
  {
    tmpreg := word & 0xFFC2_FFFF;
    tmpreg := tmpreg | (source | mul);
  }

  method Prediv1Word(word: bv32, source: bv32, div: bv32, ghost other: bv32) returns (tmpreg: bv32)
    requires Named(Prediv1(source, div))
    ensures FieldsOf(other, tmpreg) == Called(FieldsOf(other, word), Prediv1(source, div))
  {
    tmpreg := word & !(0xF | 0x1_0000);
    tmpreg := tmpreg | (source | div);
  }

  method Prediv2Word(word: bv32, div: bv32, ghost other: bv32) returns (tmpreg: bv32)
    requires Named(Prediv2(div))
    ensures FieldsOf(other, tmpreg) == Called(FieldsOf(other, word), Prediv2(div))
  {
    tmpreg := word & !0xF0;
    tmpreg := tmpreg | div;
  }

  method Pll2Word(word: bv32, mul: bv32, ghost other: bv32) returns (tmpreg: bv32)
    requires Named(Pll2(mul))
    ensures FieldsOf(other, tmpreg) == Called(FieldsOf(other, word), Pll2(mul))
  {
    tmpreg := word & !0xF00;
    tmpreg := tmpreg | mul;
  }

  method Pll3Word(word: bv32, mul: bv32, ghost other: bv32) returns (tmpreg: bv32)
    requires Named(Pll3(mul))
    ensures FieldsOf(other, tmpreg) == Called(FieldsOf(other, word), Pll3(mul))
  {
    tmpreg := word & !0xF000;
    tmpreg := tmpreg | mul;
  }

  class Rcc {
    var cfgr: bv32
    var cfgr2: bv32

    function View(): Fields
      reads this
    {
      FieldsOf(cfgr, cfgr2)
    }

    /** `RCC_SYSCLKConfig`. */
    method SysclkConfig(source: bv32)
      requires Named(Sysclk(source))
      modifies this`cfgr
      ensures View() == Called(old(View()), Sysclk(source))
    {
      cfgr := SysclkWord(cfgr, source, cfgr2);
    }

    /** `RCC_HCLKConfig`. */
    method HclkConfig(div: bv32)
      requires Named(Hclk(div))
      modifies this`cfgr
      ensures View() == Called(old(View()), Hclk(div))
    {
      cfgr := HclkWord(cfgr, div, cfgr2);
    }

    /** `RCC_PCLK1Config`. */
    method Pclk1Config(div: bv32)
      requires Named(Pclk1(div))
      modifies this`cfgr
      ensures View() == Called(old(View()), Pclk1(div))
    {
      cfgr := Pclk1Word(cfgr, div, cfgr2);
    }

    /** `RCC_PCLK2Config`. */
    method Pclk2Config(div: bv32)
      requires Named(Pclk2(div))
      modifies this`cfgr
      ensures View() == Called(old(View()), Pclk2(div))
    {
      cfgr := Pclk2Word(cfgr, div, cfgr2);
    }

    /** `RCC_ADCCLKConfig`. */
    method AdcclkConfig(div: bv32)
      requires Named(Adcclk(div))
      modifies this`cfgr
      ensures View() == Called(old(View()), Adcclk(div))
    {
      AdcArgument(div);
      cfgr := AdcclkWord(cfgr, div, cfgr2);
    }

    /** `RCC_PLLConfig`. */
    method PllConfig(source: bv32, mul: bv32)
      requires Named(Pll(source, mul))
      modifies this`cfgr
      ensures View() == Called(old(View()), Pll(source, mul))
    {
      cfgr := PllWord(cfgr, source, mul, cfgr2);
    }

    /** `RCC_PREDIV1Config`. */
    method Prediv1Config(source: bv32, div: bv32)
      requires Named(Prediv1(source, div))
      modifies this`cfgr2
      ensures View() == Called(old(View()), Prediv1(source, div))
    {
      cfgr2 := Prediv1Word(cfgr2, source, div, cfgr);
    }

    /** `RCC_PREDIV2Config`. */
    method Prediv2Config(div: bv32)
      requires Named(Prediv2(div))
      modifies this`cfgr2
      ensures View() == Called(old(View()), Prediv2(div))
    {
      cfgr2 := Prediv2Word(cfgr2, div, cfgr);
    }

    /** `RCC_PLL2Config`. */
    method Pll2Config(mul: bv32)
      requires Named(Pll2(mul))
      modifies this`cfgr2
      ensures View() == Called(old(View()), Pll2(mul))
    {
      cfgr2 := Pll2Word(cfgr2, mul, cfgr);
    }

    /** `RCC_PLL3Config`. */
    method Pll3Config(mul: bv32)
      requires Named(Pll3(mul))
      modifies this`cfgr2
      ensures View() == Called(old(View()), Pll3(mul))
    {
      cfgr2 := Pll3Word(cfgr2, mul, cfgr);
    }

    /** Any call. */
    method Perform(c: Call)
      requires Named(c) && !c.Switched?
      modifies this
      ensures View() == Called(old(View()), c)
    {
      match c
      case Sysclk(v) => SysclkConfig(v);
      case Hclk(v) => HclkConfig(v);
      case Pclk1(v) => Pclk1Config(v);
      case Pclk2(v) => Pclk2Config(v);
      case Adcclk(v) => AdcclkConfig(v);
      case Pll(s, m) => PllConfig(s, m);
      case Prediv1(s, d) => Prediv1Config(s, d);
      case Prediv2(d) => Prediv2Config(d);
      case Pll2(m) => Pll2Config(m);
      case Pll3(m) => Pll3Config(m);
    }

    /** The numbers that `RCC_GetClocksFreq` takes from the registers. */
    method ReadSettings() returns (s: Settings)
      ensures s == SettingsOf(View())
    {
      s := Settings(
        Quarter((cfgr & 0xC) >> 2), cfgr & 0x1_0000 != 0, Digit((cfgr & 0x3C_0000) >> 18),
        cfgr2 & 0x1_0000 != 0, Digit(cfgr2 & 0xF), Digit((cfgr2 & 0xF0) >> 4), Digit((cfgr2 & 0xF00) >> 8),
        Digit((cfgr & 0xF0) >> 4), Digit((cfgr & 0x700) >> 8), Digit((cfgr & 0x3800) >> 3 >> 8),
          Quarter((cfgr & 0xC000) >> 14));
    }

    /** `RCC_GetClocksFreq`; `hse` is HSE_VALUE. */
    method GetClocksFreq(hse: nat) returns (clocks: Clocks)
      ensures clocks == Frequencies(SettingsOf(View()), hse)
    {
      var s := ReadSettings();
      var sysclk := HSI;
      if s.sws == 1 {
        sysclk := hse;
      } else if s.sws == 2 {
        sysclk := GetPll(s, hse);
      }
      var hclk := Shifted(sysclk, s.hpre);
      var pclk1 := Shifted(hclk, s.ppre1);
      var pclk2 := Shifted(hclk, s.ppre2);
      var adcclk := Divided(pclk2, s.adcpre);
      clocks := Clocks(sysclk, hclk, pclk1, pclk2, adcclk);
    }
  }

  /** The PLL's case of `RCC_GetClocksFreq`. */
  method GetPll(s: Settings, hse: nat) returns (sysclk: nat)
    ensures sysclk == PllClock(s, hse)
  {
    var mul := s.pllmul;
    if mul != 0xD {
      mul := mul + 2;
    } else {
      mul := 13 / 2;
    }
    if !s.prediv1IsEntry {
      sysclk := Wrap(Mul(HSI / 2, mul));
    } else if !s.pll2IsEntry {
      sysclk := Wrap(Mul(hse / (s.prediv1 + 1), mul));
    } else {
      sysclk := Wrap(Mul(Wrap(Mul(hse / (s.prediv2 + 1), s.pll2mul + 2)) / (s.prediv1 + 1), mul));
    }
  }

  // ---------------------------------------------------------------- frequencies

  /** The number in four bits. */
  function Digit(x: bv32): (n: nat)
    ensures n < 16
  {
    if x == 0 then 0 else if x == 1 then 1 else if x == 2 then 2 else if x == 3 then 3
    else if x == 4 then 4 else if x == 5 then 5 else if x == 6 then 6 else if x == 7 then 7
    else if x == 8 then 8 else if x == 9 then 9 else if x == 10 then 10 else if x == 11 then 11
    else if x == 12 then 12 else if x == 13 then 13 else if x == 14 then 14 else 15
  }

  /** The field values as numbers. */
  datatype Settings = Settings(
    sws: nat, prediv1IsEntry: bool, pllmul: nat, pll2IsEntry: bool, prediv1: nat, prediv2: nat, pll2mul: nat,
    hpre: nat, ppre1: nat, ppre2: nat, adcpre: nat)

  function SettingsOf(f: Fields): (s: Settings)
    ensures s.sws < 4 && s.pllmul < 16 && s.prediv1 < 16 && s.prediv2 < 16 && s.pll2mul < 16
    ensures s.hpre < 16 && s.ppre1 < 16 && s.ppre2 < 16 && s.adcpre < 4
  {
    Settings(
      Quarter(f.sws >> 2), f.pllsrc != 0, Digit(f.pllmul >> 18),
      f.prediv1src != 0, Digit(f.prediv1), Digit(f.prediv2 >> 4), Digit(f.pll2mul >> 8),
      Digit(f.hpre >> 4), Digit(f.ppre1 >> 8), Digit(f.ppre2 >> 8), Quarter(f.adcpre >> 14))
  }

  /** `APBAHBPrescTable` and `ADCPrescTable`. */
  const PRESC_TABLE: seq<nat> := [0, 0, 0, 0, 1, 2, 3, 4, 1, 2, 3, 4, 6, 7, 8, 9]
  const ADC_TABLE: seq<nat> := [2, 4, 6, 8]

  function Pow2(k: nat): (p: nat)
    ensures 0 < p
  {
    if k == 0 then 1 else 2 * Pow2(k - 1)
  }

  datatype Clocks = Clocks(sysclk: nat, hclk: nat, pclk1: nat, pclk2: nat, adcclk: nat)

  /** The factor that the code uses. */
  function Factor(field: nat): nat { if field == 0xD then 6 else field + 2 }

  function PllMul(s: Settings): nat { Factor(s.pllmul) }

  function Mul(a: nat, b: nat): nat { a * b }

  /** Unsigned arithmetic on 32 bits. */
  function Wrap(x: nat): nat { x % U32 }

  function PllClock(s: Settings, hse: nat): nat {
    if !s.prediv1IsEntry then Wrap(Mul(HSI / 2, PllMul(s)))
    else if !s.pll2IsEntry then Wrap(Mul(hse / (s.prediv1 + 1), PllMul(s)))
    else Wrap(Mul(Wrap(Mul(hse / (s.prediv2 + 1), s.pll2mul + 2)) / (s.prediv1 + 1), PllMul(s)))
  }

  function SysclkOf(s: Settings, hse: nat): nat {
    if s.sws == 1 then hse else if s.sws == 2 then PllClock(s, hse) else HSI
  }

  /** `clock >> APBAHBPrescTable[field]`. */
  function Shifted(clock: nat, field: nat): nat
    requires field < 16
  {
    clock / Pow2(PRESC_TABLE[field])
  }

  /** `clock / ADCPrescTable[field]`. */
  function Divided(clock: nat, field: nat): nat
    requires field < 4
  {
    clock / ADC_TABLE[field]
  }

  function Frequencies(s: Settings, hse: nat): Clocks
    requires s.hpre < 16 && s.ppre1 < 16 && s.ppre2 < 16 && s.adcpre < 4
  {
    var sysclk := SysclkOf(s, hse);
    var hclk := Shifted(sysclk, s.hpre);
    var pclk2 := Shifted(hclk, s.ppre2);
    Clocks(sysclk, hclk, Shifted(hclk, s.ppre1), pclk2, Divided(pclk2, s.adcpre))
  }

  // ---------------------------------------------------------------- runs

  /** Any sequence of calls, with the hardware switching the system clock in between. */
  function Run(f: Fields, calls: seq<Call>): Fields {
    if calls == [] then f else Called(Run(f, calls[..|calls| - 1]), calls[|calls| - 1])
  }

  predicate SameKind(a: Call, b: Call) {
    match a
    case Sysclk(_) => b.Sysclk?
    case Hclk(_) => b.Hclk?
    case Pclk1(_) => b.Pclk1?
    case Pclk2(_) => b.Pclk2?
    case Adcclk(_) => b.Adcclk?
    case Pll(_, _) => b.Pll?
    case Prediv1(_, _) => b.Prediv1?
    case Prediv2(_) => b.Prediv2?
    case Pll2(_) => b.Pll2?
    case Pll3(_) => b.Pll3?
    case Switched(_) => b.Switched?
  }

  /** The fields that a call writes hold what it was given: repeating it changes nothing. */
  predicate InForce(f: Fields, c: Call) { Called(f, c) == f }

  /** No later call of its kind. */
  predicate IsLast(calls: seq<Call>, j: nat) {
    j < |calls| && forall i | j < i < |calls| :: !SameKind(calls[j], calls[i])
  }

  lemma OtherKindKeeps(f: Fields, c: Call, d: Call)
    requires InForce(f, c) && !SameKind(c, d)
    ensures InForce(Called(f, d), c)
  {
  }

  lemma TakesForce(f: Fields, c: Call)
    ensures InForce(Called(f, c), c)
  {
  }

  /** After any sequence of calls, the last call of each kind is in force, whatever the others were. */
  lemma {:induction false} LastCallInForce(f: Fields, calls: seq<Call>, j: nat)
    requires IsLast(calls, j)
    ensures InForce(Run(f, calls), calls[j])
  {
    var front, c := calls[..|calls| - 1], calls[|calls| - 1];
    if j < |calls| - 1 {
      LastCallInForce(f, front, j);
      OtherKindKeeps(Run(f, front), calls[j], c);
    } else {
      TakesForce(Run(f, front), c);
    }
  }

  /** `c` is the last call of its kind. */
  ghost predicate LastIs(calls: seq<Call>, c: Call) {
    exists j: nat :: IsLast(calls, j) && calls[j] == c
  }

  /** `c` is the last call of its kind; or its fields held its values at the start, and there was none. */
  ghost predicate Chosen(f: Fields, calls: seq<Call>, c: Call) {
    LastIs(calls, c) || (InForce(f, c) && forall d | d in calls :: !SameKind(c, d))
  }

  lemma {:induction false} UntouchedStays(f: Fields, calls: seq<Call>, c: Call)
    requires InForce(f, c) && forall d | d in calls :: !SameKind(c, d)
    ensures InForce(Run(f, calls), c)
  {
    if calls == [] {
    } else {
      UntouchedStays(f, calls[..|calls| - 1], c);
      OtherKindKeeps(Run(f, calls[..|calls| - 1]), c, calls[|calls| - 1]);
    }
  }

  /** Whatever else was called, and from whatever registers: each field has what was chosen for it. */
  lemma ChosenInForce(f: Fields, calls: seq<Call>, c: Call)
    requires Chosen(f, calls, c)
    ensures InForce(Run(f, calls), c)
  {
    if LastIs(calls, c) {
      var j: nat :| IsLast(calls, j) && calls[j] == c;
      LastCallInForce(f, calls, j);
    } else {
      UntouchedStays(f, calls, c);
    }
  }

  /** The bits that no call writes: PLLXTPRE and those above the fields. */
  predicate SameOthers(f: Fields, g: Fields) {
    g.pllxtpre == f.pllxtpre && g.rest == f.rest && g.rest2 == f.rest2
  }

  lemma OthersKept(f: Fields, c: Call)
    ensures SameOthers(f, Called(f, c))
  {
  }

  /** They hold after every run what they held before it; PLLXTPRE too, whatever was chosen for the PLL. */
  lemma {:induction false} OthersSurvive(f: Fields, calls: seq<Call>)
    ensures SameOthers(f, Run(f, calls))
  {
    if calls == [] {
    } else {
      OthersSurvive(f, calls[..|calls| - 1]);
      OthersKept(Run(f, calls[..|calls| - 1]), calls[|calls| - 1]);
    }
  }

  /** Performing a sequence of calls on the registers; the hardware does nothing meanwhile. */
  method PerformAll(rcc: Rcc, calls: seq<Call>)
    requires forall c | c in calls :: Named(c) && !c.Switched?
    modifies rcc
    ensures rcc.View() == Run(old(rcc.View()), calls)
  {
    var i := 0;
    while i < |calls|
      invariant i <= |calls| && rcc.View() == Run(old(rcc.View()), calls[..i])
    {
      rcc.Perform(calls[i]);
      assert calls[..i + 1][..i] == calls[..i];
      i := i + 1;
    }
    assert calls[..i] == calls;
  }

  // ---------------------------------------------------------------- the bus clocks

  /** The divisor that an argument of `RCC_HCLKConfig` names. */
  function AhbDivisor(div: bv32): nat {
    if div == 0x80 then 2 else if div == 0x90 then 4 else if div == 0xA0 then 8 else if div == 0xB0 then 16
    else if div == 0xC0 then 64 else if div == 0xD0 then 128 else if div == 0xE0 then 256 else if div == 0xF0 then 512
    else 1
  }

  /** The divisor that an argument of `RCC_PCLK1Config` or `RCC_PCLK2Config` names. */
  function ApbDivisor(div: bv32): nat {
    if div == 0x400 then 2 else if div == 0x500 then 4 else if div == 0x600 then 8 else if div == 0x700 then 16 else 1
  }

  /** The divisor that an argument of `RCC_ADCCLKConfig` names. */
  function AdcDivisor(div: bv32): nat {
    if div == 0x4000 then 4 else if div == 0x8000 then 6 else if div == 0xC000 then 8 else 2
  }

  lemma AhbTable(f: Fields)
    requires Named(Hclk(f.hpre))
    ensures Pow2(PRESC_TABLE[SettingsOf(f).hpre]) == AhbDivisor(f.hpre)
  {
    AhbDigit(f.hpre);
    assert Pow2(1) == 2 && Pow2(2) == 4 && Pow2(3) == 8 && Pow2(4) == 16;
    assert Pow2(6) == 64 && Pow2(7) == 128 && Pow2(8) == 256 && Pow2(9) == 512;
  }

  lemma AhbDigit(div: bv32)
    requires Named(Hclk(div))
    ensures Digit(div >> 4) == if div == 0 then 0 else if div == 0x80 then 8 else if div == 0x90 then 9
        else if div == 0xA0 then 10
      else if div == 0xB0 then 11 else if div == 0xC0 then 12 else if div == 0xD0 then 13
        else if div == 0xE0 then 14 else 15
  {
  }

  lemma Apb1Table(f: Fields)
    requires Named(Pclk1(f.ppre1))
    ensures Pow2(PRESC_TABLE[SettingsOf(f).ppre1]) == ApbDivisor(f.ppre1)
  {
  }

  lemma Apb2Table(f: Fields)
    requires Named(Pclk2(f.ppre2))
    ensures Pow2(PRESC_TABLE[SettingsOf(f).ppre2]) == ApbDivisor(f.ppre2)
  {
  }

  lemma AdcTable(f: Fields)
    requires Named(Adcclk(f.adcpre))
    ensures ADC_TABLE[SettingsOf(f).adcpre] == AdcDivisor(f.adcpre)
  {
  }

  lemma Scale(a: int, b: int, k: nat)
    requires a <= b
    ensures a * k <= b * k
  {
  }

  lemma Unique(d: int, k: int, e: int)
    requires d * k == e && -d < e < d
    ensures k == 0
  {
    assert 1 <= k ==> d <= d * k;
    assert k <= -1 ==> d * k <= -d;
  }

  lemma Quotient(x: nat, d: nat, q: nat, r: nat)
    requires x == d * q + r && r < d
    ensures x / d == q
  {
    var e: int, k: int := x % d, x / d;
    assert d * (q - k) == e - r;
    Unique(d, q - k, e - r);
  }

  /** Rounding down twice is rounding down once. */
  lemma DivDiv(x: nat, a: nat, b: nat)
    requires 0 < a && 0 < b
    ensures 0 < a * b && x / a / b == x / (a * b)
  {
    var q, r := x / a, x % a;
    var p, t := q / b, q % b;
    Digits(x, q, a, b, p, t, r);
    Quotient(x, a * b, p, a * t + r);
  }

  lemma Digits(x: nat, q: nat, a: nat, b: nat, p: nat, t: nat, r: nat)
    requires x == a * q + r && q == b * p + t && r < a && t < b
    ensures 0 < a * b && 0 <= a * t + r < a * b && x == (a * b) * p + (a * t + r)
  {
    Scale(0, t, a);
    Scale(t, b - 1, a);
    Less(a, b);
    Nested(a, b, p, t);
  }

  lemma Less(a: int, b: int)
    ensures (b - 1) * a == a * b - a
  {
  }

  lemma Nested(a: int, b: int, p: int, t: int)
    ensures a * (b * p + t) == (a * b) * p + a * t
  {
  }

  /** After any sequence of calls every bus clock is one floor division of SYSCLK, by the product of the
    * divisors last chosen along its path. */
  lemma BusClocks(f: Fields, calls: seq<Call>, hse: nat, ahb: bv32, apb1: bv32, apb2: bv32, adc: bv32)
    requires Chosen(f, calls, Hclk(ahb)) && Chosen(f, calls, Pclk1(apb1)) && Chosen(f, calls, Pclk2(apb2))
        && Chosen(f, calls, Adcclk(adc))
    requires Named(Hclk(ahb)) && Named(Pclk1(apb1)) && Named(Pclk2(apb2)) && Named(Adcclk(adc))
    ensures OnPaths(Frequencies(SettingsOf(Run(f, calls)), hse),
                    AhbDivisor(ahb), ApbDivisor(apb1), ApbDivisor(apb2), AdcDivisor(adc))
  {
    ChosenInForce(f, calls, Hclk(ahb));
    ChosenInForce(f, calls, Pclk1(apb1));
    ChosenInForce(f, calls, Pclk2(apb2));
    ChosenInForce(f, calls, Adcclk(adc));
    FieldClocks(Run(f, calls), hse);
  }

  ghost predicate OnPaths(c: Clocks, ahb: nat, apb1: nat, apb2: nat, adc: nat) {
    && 0 < ahb && 0 < ahb * apb1 && 0 < ahb * apb2 && 0 < ahb * apb2 * adc
    && c.hclk == c.sysclk / ahb
    && c.pclk1 == c.sysclk / (ahb * apb1)
    && c.pclk2 == c.sysclk / (ahb * apb2)
    && c.adcclk == c.sysclk / (ahb * apb2 * adc)
  }

  lemma FieldClocks(g: Fields, hse: nat)
    requires Named(Hclk(g.hpre)) && Named(Pclk1(g.ppre1)) && Named(Pclk2(g.ppre2)) && Named(Adcclk(g.adcpre))
    ensures OnPaths(Frequencies(SettingsOf(g), hse),
                    AhbDivisor(g.hpre), ApbDivisor(g.ppre1), ApbDivisor(g.ppre2), AdcDivisor(g.adcpre))
  {
    AhbTable(g);
    Apb1Table(g);
    Apb2Table(g);
    AdcTable(g);
    PathClocks(SettingsOf(g), hse, AhbDivisor(g.hpre), ApbDivisor(g.ppre1), ApbDivisor(g.ppre2), AdcDivisor(g.adcpre));
  }

  lemma PathClocks(s: Settings, hse: nat, ahb: nat, apb1: nat, apb2: nat, adc: nat)
    requires s.hpre < 16 && s.ppre1 < 16 && s.ppre2 < 16 && s.adcpre < 4
    requires Pow2(PRESC_TABLE[s.hpre]) == ahb && Pow2(PRESC_TABLE[s.ppre1]) == apb1
    requires Pow2(PRESC_TABLE[s.ppre2]) == apb2 && ADC_TABLE[s.adcpre] == adc
    ensures OnPaths(Frequencies(s, hse), ahb, apb1, apb2, adc)
  {
    var sysclk := SysclkOf(s, hse);
    DivDiv(sysclk, ahb, apb1);
    DivDiv(sysclk, ahb, apb2);
    DivDiv(sysclk, ahb * apb2, adc);
  }

  // ---------------------------------------------------------------- the PLL

  const HSE_MAX: nat := 25_000_000

  /** Two truncating divisions on the way from the crystal to the PLL output: how far the result may fall
    * short of the exact H * m2 * m / (p1 * p2). */
  lemma PllBound(hse: nat, p2: nat, m2: nat, p1: nat, m: nat)
    requires 0 < p1 && 0 < p2 && 0 < m2 && 0 < m
    ensures var c := Mul(Mul(hse / p2, m2) / p1, m);
      c * p1 * p2 <= hse * m2 * m < c * p1 * p2 + m * p2 * (m2 + p1)
  {
    var am := Mul(hse / p2, m2);
    LossBound(hse / p2, p2, hse % p2, am / p1, p1, am % p1, m2, m);
  }

  /** The one truncation when PREDIV1 is fed straight from HSE. */
  lemma PllBoundFromHse(hse: nat, p1: nat, m: nat)
    requires 0 < p1 && 0 < m
    ensures var c := Mul(hse / p1, m); c * p1 <= hse * m < c * p1 + m * p1
  {
    OneLoss(hse / p1, p1, hse % p1, m);
  }

  lemma OneLoss(q: nat, p1: nat, lost: nat, m: nat)
    requires lost < p1 && 0 < m
    ensures q * m * p1 <= (q * p1 + lost) * m < q * m * p1 + m * p1
  {
    assert (q * p1 + lost) * m == q * m * p1 + lost * m;
    LossScaled(lost, p1, m);
  }

  /** The same with the quotients and remainders named. */
  lemma LossBound(a: nat, p2: nat, lost2: nat, b: nat, p1: nat, lost1: nat, m2: nat, m: nat)
    requires a * m2 == b * p1 + lost1 && lost1 < p1 && lost2 < p2 && 0 < m && 0 < m2
    ensures b * m * p1 * p2 <= (a * p2 + lost2) * m2 * m < b * m * p1 * p2 + m * p2 * (m2 + p1)
  {
    PllRing(a, p2, lost2, b, p1, lost1, m2, m);
    LossRange(lost2, p2, lost1, p1, m2);
    LossScaled(lost2 * m2 + lost1 * p2, p2 * (m2 + p1), m);
    Turned(p2, m2 + p1, m);
  }

  lemma LossScaled(loss: int, most: int, m: nat)
    requires 0 <= loss <= most - 1 && 0 < m
    ensures 0 <= loss * m < most * m
  {
    Scale(0, loss, m);
    Scale(loss, most - 1, m);
    assert (most - 1) * m == most * m - m;
  }

  lemma Turned(x: int, y: int, m: int)
    ensures x * y * m == m * x * y
  {
  }

  lemma LossRange(lost2: nat, p2: nat, lost1: nat, p1: nat, m2: nat)
    requires lost1 < p1 && lost2 < p2 && 0 < m2
    ensures 0 <= lost2 * m2 + lost1 * p2 <= p2 * (m2 + p1) - 1
  {
    Scale(0, lost2, m2);
    Scale(0, lost1, p2);
    Scale(lost2, p2 - 1, m2);
    Scale(lost1, p1 - 1, p2);
    assert (p2 - 1) * m2 + (p1 - 1) * p2 == p2 * (m2 + p1) - m2 - p2;
  }

  /** What the divisions lose, multiplied out. */
  lemma PllRing(a: nat, p2: nat, lost2: nat, b: nat, p1: nat, lost1: nat, m2: nat, m: nat)
    requires a * m2 == b * p1 + lost1
    ensures (a * p2 + lost2) * m2 * m == b * m * p1 * p2 + (lost2 * m2 + lost1 * p2) * m
  {
    calc {
      (a * p2 + lost2) * m2 * m;
      (a * m2 * p2 + lost2 * m2) * m;
      ((b * p1 + lost1) * p2 + lost2 * m2) * m;
      b * m * p1 * p2 + (lost2 * m2 + lost1 * p2) * m;
    }
  }

  lemma ProductAtMost(a: nat, b: nat, x: nat, y: nat)
    requires a <= x && b <= y
    ensures Mul(a, b) <= Mul(x, y)
  {
    Scale(a, x, b);
    Scale(b, y, x);
  }

  lemma QuotientAtMost(a: nat, d: nat)
    requires 0 < d
    ensures a / d <= a
  {
    assert a == d * (a / d) + a % d;
    Scale(1, d, a / d);
  }

  /** Dividing first and multiplying then stays below the product of the bounds. */
  lemma DividedProduct(x: nat, d: nat, k: nat, bound: nat, most: nat)
    requires x <= bound && 0 < d && k <= most
    ensures Mul(x / d, k) <= Mul(bound, most)
  {
    QuotientAtMost(x, d);
    ProductAtMost(x / d, k, bound, most);
  }

  /** The PLL output as computed, without the wrap-around. */
  function PllExact(s: Settings, hse: nat): nat {
    if !s.prediv1IsEntry then Mul(HSI / 2, PllMul(s))
    else if !s.pll2IsEntry then Mul(hse / (s.prediv1 + 1), PllMul(s))
    else Mul(Mul(hse / (s.prediv2 + 1), s.pll2mul + 2) / (s.prediv1 + 1), PllMul(s))
  }

  lemma WrapSmall(x: nat)
    requires x < U32
    ensures Wrap(x) == x
  {
  }

  /** With a crystal of at most 25 MHz and a PLL factor that the calls can choose, nothing wraps. */
  lemma PllNeverWraps(s: Settings, hse: nat)
    requires hse <= 25_000_000 && PllMul(s) <= 9 && s.pll2mul < 16
    ensures PllClock(s, hse) == PllExact(s, hse)
  {
    var m := PllMul(s);
    if !s.prediv1IsEntry {
      ProductAtMost(HSI / 2, m, HSI / 2, 9);
      WrapSmall(Mul(HSI / 2, m));
    } else if !s.pll2IsEntry {
      DividedProduct(hse, s.prediv1 + 1, m, HSE_MAX, 9);
      WrapSmall(Mul(hse / (s.prediv1 + 1), m));
    } else {
      DividedProduct(hse, s.prediv2 + 1, s.pll2mul + 2, HSE_MAX, 17);
      Pll2NeverWraps(Mul(hse / (s.prediv2 + 1), s.pll2mul + 2), s.prediv1 + 1, m);
    }
  }

  lemma Pll2NeverWraps(x: nat, p1: nat, m: nat)
    requires x <= 17 * HSE_MAX && 0 < p1 && m <= 9
    ensures Wrap(x) == x && Wrap(Mul(x / p1, m)) == Mul(x / p1, m)
  {
    DividedProduct(x, p1, m, 17 * HSE_MAX, 9);
    WrapSmall(x);
    WrapSmall(Mul(x / p1, m));
  }

  lemma PllDigit(source: bv32, mul: bv32)
    requires Named(Pll(source, mul))
    ensures Digit(mul >> 18) == if mul == 0x34_0000 then 13 else PllNamedTwice(mul) / 2 - 2
  {
  }

  /** The reported PLL output `c` has not wrapped and, fed through PREDIV1, differs from the exact quotient of
    * the factors used by less than the truncations explain: one straight from HSE, two from PLL2. */
  ghost predicate PllReport(c: nat, s: Settings, hse: nat) {
    var p1, p2, m2, m := s.prediv1 + 1, s.prediv2 + 1, s.pll2mul + 2, PllMul(s);
    && c == PllExact(s, hse)
    && (s.prediv1IsEntry && !s.pll2IsEntry ==> c * p1 <= hse * m < c * p1 + m * p1)
    && (s.prediv1IsEntry && s.pll2IsEntry ==> c * p1 * p2 <= hse * m2 * m < c * p1 * p2 + m * p2 * (m2 + p1))
  }

  lemma PllOfSettings(s: Settings, hse: nat)
    requires hse <= HSE_MAX && s.sws == 2 && 4 <= PllMul(s) <= 9 && s.pll2mul < 16
    ensures PllReport(SysclkOf(s, hse), s, hse)
  {
    PllNeverWraps(s, hse);
    PllBoundFromHse(hse, s.prediv1 + 1, PllMul(s));
    PllBound(hse, s.prediv2 + 1, s.pll2mul + 2, s.prediv1 + 1, PllMul(s));
  }

  ghost predicate PllReported(g: Fields, hse: nat) {
    PllReport(SysclkOf(SettingsOf(g), hse), SettingsOf(g), hse)
  }

  lemma PllOfFields(g: Fields, hse: nat, source: bv32, mul: bv32)
    requires hse <= HSE_MAX && g.sws == 8 && g.pllmul == mul && Named(Pll(source, mul))
    ensures PllReported(g, hse)
  {
    PllSettings(g, source, mul);
    PllOfSettings(SettingsOf(g), hse);
  }

  /** After any sequence of calls that leaves the PLL as system clock. */
  lemma PllAfterRun(f: Fields, calls: seq<Call>, hse: nat, source: bv32, mul: bv32)
    requires hse <= 25_000_000
    requires Chosen(f, calls, Switched(8)) && Named(Pll(source, mul)) && Chosen(f, calls, Pll(source, mul))
    ensures PllReported(Run(f, calls), hse)
    ensures Frequencies(SettingsOf(Run(f, calls)), hse).sysclk == SysclkOf(SettingsOf(Run(f, calls)), hse)
  {
    ChosenInForce(f, calls, Switched(8));
    ChosenInForce(f, calls, Pll(source, mul));
    PllOfFields(Run(f, calls), hse, source, mul);
  }

  lemma PllSettings(g: Fields, source: bv32, mul: bv32)
    requires g.sws == 8 && g.pllmul == mul && Named(Pll(source, mul))
    ensures SettingsOf(g).sws == 2 && 4 <= PllMul(SettingsOf(g)) <= 9
  {
    PllIsSource(g);
    FactorRange(source, mul);
    FactorOf(g, mul);
  }

  lemma PllIsSource(g: Fields)
    requires g.sws == 8
    ensures SettingsOf(g).sws == 2
  {
  }

  lemma FactorRange(source: bv32, mul: bv32)
    requires Named(Pll(source, mul))
    ensures 4 <= Factor(Digit(mul >> 18)) <= 9
  {
    PllDigit(source, mul);
  }

  lemma FactorOf(g: Fields, mul: bv32)
    requires g.pllmul == mul
    ensures PllMul(SettingsOf(g)) == Factor(Digit(mul >> 18))
  {
  }

  /** Twice the factor that an argument of `RCC_PLLConfig` names; one of them names 6.5. */
  function PllNamedTwice(mul: bv32): nat {
    if mul == 0x8_0000 then 8 else if mul == 0xC_0000 then 10 else if mul == 0x10_0000 then 12
    else if mul == 0x14_0000 then 14 else if mul == 0x18_0000 then 16 else if mul == 0x1C_0000 then 18 else 13
  }

  /** The factor that an argument of `RCC_PLL2Config` names. */
  function Pll2Named(mul: bv32): nat {
    if mul == 0x600 then 8 else if mul == 0x700 then 9 else if mul == 0x800 then 10 else if mul == 0x900 then 11
    else if mul == 0xA00 then 12 else if mul == 0xB00 then 13 else if mul == 0xC00 then 14 else if mul == 0xE00 then 16
    else 20
  }

  /** The code computes with the factor that was asked for, except for PLLMul_6_5, which counts as 6. */
  lemma PllFactorAsNamedIff(f: Fields, calls: seq<Call>, source: bv32, mul: bv32)
    requires Named(Pll(source, mul)) && Chosen(f, calls, Pll(source, mul))
    ensures 2 * PllMul(SettingsOf(Run(f, calls))) == PllNamedTwice(mul) <==> mul != 0x34_0000
  {
    ChosenInForce(f, calls, Pll(source, mul));
    PllNumber(Run(f, calls), source, mul);
    PllUsedAsNamed(mul);
  }

  lemma PllUsedAsNamed(mul: bv32)
    ensures 2 * PllUsed(mul) == PllNamedTwice(mul) <==>
      || mul == 0x8_0000 || mul == 0xC_0000 || mul == 0x10_0000 || mul == 0x14_0000 || mul == 0x18_0000
      || mul == 0x1C_0000
  {
  }

  /** So does it for PLL2, except for PLL2Mul_20, which counts as 17. */
  lemma Pll2FactorAsNamedIff(f: Fields, calls: seq<Call>, mul: bv32)
    requires Named(Pll2(mul)) && Chosen(f, calls, Pll2(mul))
    ensures SettingsOf(Run(f, calls)).pll2mul + 2 == Pll2Named(mul) <==> mul != 0xF00
    ensures mul == 0xF00 ==> SettingsOf(Run(f, calls)).pll2mul + 2 == 17
  {
    ChosenInForce(f, calls, Pll2(mul));
    Pll2Setting(Run(f, calls), mul);
  }

  lemma Pll2Digit(mul: bv32)
    requires Named(Pll2(mul))
    ensures Digit(mul >> 8) + 2 == Pll2Named(mul) <==> mul != 0xF00
    ensures mul == 0xF00 ==> Digit(mul >> 8) + 2 == 17
  {
  }

  lemma Pll2Setting(f: Fields, mul: bv32)
    requires Named(Pll2(mul)) && f.pll2mul == mul
    ensures SettingsOf(f).pll2mul + 2 == Pll2Named(mul) <==> mul != 0xF00
    ensures mul == 0xF00 ==> SettingsOf(f).pll2mul + 2 == 17
  {
    Pll2Digit(mul);
  }

  // ---------------------------------------------------------------- the frequencies in the words of the calls

  /** The divisor that an argument of `RCC_PREDIV1Config` names. */
  function Prediv1Divisor(div: bv32): (n: nat)
    ensures 1 <= n <= 16
  {
    if div == 0 then 1 else if div == 1 then 2 else if div == 2 then 3 else if div == 3 then 4
    else if div == 4 then 5 else if div == 5 then 6 else if div == 6 then 7 else if div == 7 then 8
    else if div == 8 then 9 else if div == 9 then 10 else if div == 0xA then 11 else if div == 0xB then 12
    else if div == 0xC then 13 else if div == 0xD then 14 else if div == 0xE then 15 else 16
  }

  /** The divisor that an argument of `RCC_PREDIV2Config` names. */
  function Prediv2Divisor(div: bv32): (n: nat)
    ensures 1 <= n <= 16
  {
    if div == 0 then 1 else if div == 0x10 then 2 else if div == 0x20 then 3 else if div == 0x30 then 4
    else if div == 0x40 then 5 else if div == 0x50 then 6 else if div == 0x60 then 7 else if div == 0x70 then 8
    else if div == 0x80 then 9 else if div == 0x90 then 10 else if div == 0xA0 then 11 else if div == 0xB0 then 12
    else if div == 0xC0 then 13 else if div == 0xD0 then 14 else if div == 0xE0 then 15 else 16
  }

  /** The factors that the code counts for an argument of `RCC_PLLConfig`, of `RCC_PLL2Config`. */
  function PllUsed(mul: bv32): (n: nat)
    ensures n <= 9
  {
    if mul == 0x8_0000 then 4 else if mul == 0xC_0000 then 5 else if mul == 0x10_0000 then 6
    else if mul == 0x14_0000 then 7 else if mul == 0x18_0000 then 8 else if mul == 0x1C_0000 then 9 else 6
  }

  function Pll2Used(mul: bv32): nat { if mul == 0xF00 then 17 else Pll2Named(mul) }

  // Field by field, the number that the code takes from an argument.

  lemma SwitchNumber(g: Fields, sws: bv32)
    requires g.sws == sws && Named(Switched(sws))
    ensures SettingsOf(g).sws == if sws == 0 then 0 else if sws == 4 then 1 else 2
  {
  }

  lemma PllFactor(source: bv32, mul: bv32)
    requires Named(Pll(source, mul))
    ensures Factor(Digit(mul >> 18)) == PllUsed(mul)
  {
  }

  lemma PllNumber(g: Fields, source: bv32, mul: bv32)
    requires g.pllmul == mul && Named(Pll(source, mul))
    ensures PllMul(SettingsOf(g)) == PllUsed(mul)
  {
    PllFactor(source, mul);
    FactorOf(g, mul);
  }

  lemma Prediv1Digit(div: bv32)
    requires div <= 0xF
    ensures Digit(div) + 1 == Prediv1Divisor(div)
  {
  }

  lemma Prediv1Number(g: Fields, div: bv32)
    requires g.prediv1 == div && div <= 0xF
    ensures SettingsOf(g).prediv1 + 1 == Prediv1Divisor(div)
  {
    Prediv1Digit(div);
  }

  lemma Prediv2Digit(div: bv32)
    requires div == div & 0xF0
    ensures Digit(div >> 4) + 1 == Prediv2Divisor(div)
  {
  }

  lemma Prediv2Number(g: Fields, div: bv32)
    requires g.prediv2 == div && div == div & 0xF0
    ensures SettingsOf(g).prediv2 + 1 == Prediv2Divisor(div)
  {
    Prediv2Digit(div);
  }

  lemma Pll2Number(g: Fields, mul: bv32)
    requires g.pll2mul == mul && Named(Pll2(mul))
    ensures SettingsOf(g).pll2mul + 2 == Pll2Used(mul)
  {
    Pll2Setting(g, mul);
  }

  lemma EntryFlags(g: Fields)
    ensures SettingsOf(g).prediv1IsEntry <==> g.pllsrc != 0
    ensures SettingsOf(g).pll2IsEntry <==> g.prediv1src != 0
  {
  }

  // The system clock in numbers.

  lemma FromHsi(s: Settings, hse: nat, m: nat)
    requires s.sws == 2 && !s.prediv1IsEntry && PllMul(s) == m <= 9
    ensures SysclkOf(s, hse) == 4_000_000 * m
  {
  }

  lemma FromHse(s: Settings, hse: nat, m: nat, p1: nat)
    requires s.sws == 2 && s.prediv1IsEntry && !s.pll2IsEntry && PllMul(s) == m && s.prediv1 + 1 == p1
    ensures SysclkOf(s, hse) == hse / p1 * m % 0x1_0000_0000
  {
  }

  /** Two divisions and two multiplications in turn, on 32 bits. */
  function Through(hse: nat, p2: nat, m2: nat, p1: nat, m: nat): nat
    requires 0 < p2 && 0 < p1
  {
    hse / p2 * m2 % 0x1_0000_0000 / p1 * m % 0x1_0000_0000
  }

  predicate ThroughPll2(s: Settings, m: nat, p1: nat, m2: nat, p2: nat) {
    && s.sws == 2 && s.prediv1IsEntry && s.pll2IsEntry && PllMul(s) == m && s.prediv1 + 1 == p1
    && s.pll2mul + 2 == m2 && s.prediv2 + 1 == p2
  }

  lemma FromPll2(s: Settings, hse: nat, m: nat, p1: nat, m2: nat, p2: nat)
    requires ThroughPll2(s, m, p1, m2, p2)
    ensures SysclkOf(s, hse) == Through(hse, p2, m2, p1, m)
  {
  }

  /** What `RCC_GetClocksFreq` gives after a sequence of calls. */
  function Reported(f: Fields, calls: seq<Call>, hse: nat): Clocks { Frequencies(SettingsOf(Run(f, calls)), hse) }

  method ReadAfter(rcc: Rcc, hse: nat, ghost f: Fields, ghost calls: seq<Call>) returns (clocks: Clocks)
    requires rcc.View() == Run(f, calls)
    ensures clocks == Reported(f, calls, hse)
  {
    clocks := rcc.GetClocksFreq(hse);
  }

  lemma SysclkInternal(f: Fields, calls: seq<Call>, hse: nat)
    requires Chosen(f, calls, Switched(0))
    ensures Reported(f, calls, hse).sysclk == 8_000_000
  {
    ChosenInForce(f, calls, Switched(0));
    SwitchNumber(Run(f, calls), 0);
  }

  /** The reserved switch status counts as the internal oscillator, too. */
  lemma SysclkReserved(g: Fields, hse: nat)
    requires g.sws == 0xC
    ensures Frequencies(SettingsOf(g), hse).sysclk == 8_000_000
  {
  }

  lemma SysclkCrystal(f: Fields, calls: seq<Call>, hse: nat)
    requires Chosen(f, calls, Switched(4))
    ensures Reported(f, calls, hse).sysclk == hse
  {
    ChosenInForce(f, calls, Switched(4));
    SwitchNumber(Run(f, calls), 4);
  }

  lemma SysclkPllFromHsi(f: Fields, calls: seq<Call>, hse: nat, mul: bv32)
    requires Named(Pll(0, mul))
    requires Chosen(f, calls, Switched(8)) && Chosen(f, calls, Pll(0, mul))
    ensures Reported(f, calls, hse).sysclk == 4_000_000 * PllUsed(mul)
  {
    var g := Run(f, calls);
    ChosenInForce(f, calls, Switched(8));
    ChosenInForce(f, calls, Pll(0, mul));
    SwitchNumber(g, 8);
    PllNumber(g, 0, mul);
    EntryFlags(g);
    FromHsi(SettingsOf(g), hse, PllUsed(mul));
  }

  lemma SysclkPllFromHse(f: Fields, calls: seq<Call>, hse: nat, mul: bv32, div: bv32)
    requires Named(Pll(0x1_0000, mul)) && Named(Prediv1(0, div))
    requires Chosen(f, calls, Switched(8)) && Chosen(f, calls, Pll(0x1_0000, mul)) && Chosen(f, calls, Prediv1(0, div))
    ensures Reported(f, calls, hse).sysclk == hse / Prediv1Divisor(div) * PllUsed(mul) % 0x1_0000_0000
  {
    var g := Run(f, calls);
    ChosenInForce(f, calls, Switched(8));
    ChosenInForce(f, calls, Pll(0x1_0000, mul));
    ChosenInForce(f, calls, Prediv1(0, div));
    SwitchNumber(g, 8);
    PllNumber(g, 0x1_0000, mul);
    Prediv1Number(g, div);
    EntryFlags(g);
    FromHse(SettingsOf(g), hse, PllUsed(mul), Prediv1Divisor(div));
  }

  lemma PllNumbers(g: Fields, mul: bv32, div: bv32)
    requires g.sws == 8 && g.pllsrc == 0x1_0000 && g.pllmul == mul && Named(Pll(0x1_0000, mul))
    requires g.prediv1 == div && div <= 0xF
    ensures var s := SettingsOf(g);
      s.sws == 2 && s.prediv1IsEntry && PllMul(s) == PllUsed(mul) && s.prediv1 + 1 == Prediv1Divisor(div)
  {
    SwitchNumber(g, 8);
    PllNumber(g, 0x1_0000, mul);
    Prediv1Number(g, div);
    EntryFlags(g);
  }

  lemma Pll2Numbers(g: Fields, mul2: bv32, div2: bv32)
    requires g.prediv1src == 0x1_0000
    requires g.pll2mul == mul2 && Named(Pll2(mul2)) && g.prediv2 == div2 && div2 == div2 & 0xF0
    ensures var s := SettingsOf(g);
      s.pll2IsEntry && s.pll2mul + 2 == Pll2Used(mul2) && s.prediv2 + 1 == Prediv2Divisor(div2)
  {
    Pll2Number(g, mul2);
    Prediv2Number(g, div2);
    EntryFlags(g);
  }

  /** The PLL behind PREDIV1 behind PLL2 behind PREDIV2. */
  lemma Pll2Path(g: Fields, mul: bv32, div: bv32, mul2: bv32, div2: bv32)
    requires g.sws == 8 && g.pllsrc == 0x1_0000 && g.pllmul == mul && Named(Pll(0x1_0000, mul))
    requires g.prediv1src == 0x1_0000 && g.prediv1 == div && div <= 0xF
    requires g.pll2mul == mul2 && Named(Pll2(mul2)) && g.prediv2 == div2 && div2 == div2 & 0xF0
    ensures ThroughPll2(SettingsOf(g), PllUsed(mul), Prediv1Divisor(div), Pll2Used(mul2), Prediv2Divisor(div2))
  {
    PllNumbers(g, mul, div);
    Pll2Numbers(g, mul2, div2);
  }

  lemma SysclkPllFromPll2(f: Fields, calls: seq<Call>, hse: nat, mul: bv32, div: bv32, mul2: bv32, div2: bv32)
    requires Named(Pll(0x1_0000, mul)) && Named(Prediv1(0x1_0000, div)) && Named(Pll2(mul2)) && Named(Prediv2(div2))
    requires Chosen(f, calls, Switched(8)) && Chosen(f, calls, Pll(0x1_0000, mul))
    requires Chosen(f, calls, Prediv1(0x1_0000, div)) && Chosen(f, calls, Pll2(mul2)) && Chosen(f, calls, Prediv2(div2))
    ensures Reported(f, calls, hse).sysclk ==
      Through(hse, Prediv2Divisor(div2), Pll2Used(mul2), Prediv1Divisor(div), PllUsed(mul))
  {
    ChosenInForce(f, calls, Switched(8));
    ChosenInForce(f, calls, Pll(0x1_0000, mul));
    ChosenInForce(f, calls, Prediv1(0x1_0000, div));
    ChosenInForce(f, calls, Pll2(mul2));
    ChosenInForce(f, calls, Prediv2(div2));
    Pll2Path(Run(f, calls), mul, div, mul2, div2);
    FromPll2(SettingsOf(Run(f, calls)), hse, PllUsed(mul), Prediv1Divisor(div), Pll2Used(mul2), Prediv2Divisor(div2));
  }

  lemma BoardFields()
    ensures FieldsOf(0x001D_040A, 0x0001_0644)
        == Fields(2, 8, 0, 0x400, 0, 0, 0x1_0000, 0, 0x1C_0000, 0, 4, 0x1_0000, 0x40, 0x600, 0, 0)
  {
  }

  lemma BoardSettings()
    ensures SettingsOf(Fields(2, 8, 0, 0x400, 0, 0, 0x1_0000, 0, 0x1C_0000, 0, 4, 0x1_0000, 0x40, 0x600, 0, 0))
        == Settings(2, true, 7, true, 4, 4, 6, 0, 4, 0, 0)
  {
  }

  /** The registers as the start-up code leaves them, with the crystal of the board. */
  lemma Board()
    ensures Frequencies(SettingsOf(FieldsOf(0x001D_040A, 0x0001_0644)), 25_000_000)
        == Clocks(72_000_000, 72_000_000, 36_000_000, 72_000_000, 36_000_000)
  {
    BoardFields();
    BoardSettings();
    BoardClocks();
  }

  lemma BoardClocks()
    ensures Frequencies(Settings(2, true, 7, true, 4, 4, 6, 0, 4, 0, 0), 25_000_000)
        == Clocks(72_000_000, 72_000_000, 36_000_000, 72_000_000, 36_000_000)
  {
    BoardPll();
    assert PRESC_TABLE[0] == 0 && PRESC_TABLE[4] == 1 && ADC_TABLE[0] == 2;
    assert Pow2(0) == 1 && Pow2(1) == 2;
  }

  lemma BoardPll()
    ensures PllClock(Settings(2, true, 7, true, 4, 4, 6, 0, 4, 0, 0), 25_000_000) == 72_000_000
  {
    assert Mul(5_000_000, 8) == 40_000_000 && Mul(8_000_000, 9) == 72_000_000;
  }
}
