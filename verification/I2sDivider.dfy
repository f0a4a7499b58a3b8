/** `I2S_Init`: the audio clock divider and the two registers it writes. */
module I2sDivider {
  import opened Words
  import Rcc = ClockTree

  const FREQ_DEFAULT: nat := 2

  /** `I2S_InitTypeDef`. */
  datatype Config = Config(mode: bv16, standard: bv16, format: bv16, mclk: bool, freq: nat, cpol: bv16)

  /** What `assert_param` demands. */
  predicate ValidConfig(c: Config) {
    && (c.mode == 0 || c.mode == 0x100 || c.mode == 0x200 || c.mode == 0x300)
    && (c.standard == 0 || c.standard == 0x10 || c.standard == 0x20 || c.standard == 0x30 || c.standard == 0xB0)
    && (c.format == 0 || c.format == 1 || c.format == 3 || c.format == 5)
    && (c.cpol == 0 || c.cpol == 8)
    && (8000 <= c.freq <= 192000 || c.freq == FREQ_DEFAULT)
  }

  // ---------------------------------------------------------------- the source clock

  /** The multiplier for a value of the PLL3MUL field. */
  function Pll3Mul(field: nat): nat {
    if 5 < field < 15 then field + 2 else if field == 15 then 20 else field
  }

  /** The factor that an argument of `RCC_PLL3Config` names. */
  function Pll3Named(mul: bv32): nat {
    if mul == 0x6000 then 8 else if mul == 0x7000 then 9 else if mul == 0x8000 then 10 else if mul == 0x9000 then 11
    else if mul == 0xA000 then 12 else if mul == 0xB000 then 13 else if mul == 0xC000 then 14
      else if mul == 0xE000 then 16
    else 20
  }

  /** Here, unlike for PLL2 in `RCC_GetClocksFreq`, every nameable factor is the one used, 20 included. */
  lemma Pll3FactorAsNamed(f: Rcc.Fields, calls: seq<Rcc.Call>, mul: bv32)
    requires Rcc.Named(Rcc.Pll3(mul)) && Rcc.Chosen(f, calls, Rcc.Pll3(mul))
    ensures Pll3Mul(Rcc.Digit(Rcc.Run(f, calls).pll3mul >> 12)) == Pll3Named(mul)
  {
    Rcc.ChosenInForce(f, calls, Rcc.Pll3(mul));
    Pll3Digit(mul);
  }

  lemma Pll3Digit(mul: bv32)
    requires Rcc.Named(Rcc.Pll3(mul))
    ensures Pll3Mul(Rcc.Digit(mul >> 12)) == Pll3Named(mul)
  {
  }

  function Source(fromPll3: bool, prediv2: nat, pll3: nat, hse: nat, sysclk: nat): nat {
    if fromPll3 then Rcc.Wrap(Rcc.Mul(hse / (prediv2 + 1), Pll3Mul(pll3)) * 2) else sysclk
  }

  /** The start of the computation; `srcMask` is the source bit of the peripheral in CFGR2, `sysclk` what
    * `RCC_GetClocksFreq` reports. */
  method SourceClock(cfgr2: bv32, srcMask: bv32, hse: nat, sysclk: nat) returns (source: nat)
    ensures source == Source(cfgr2 & srcMask != 0, Rcc.Digit((cfgr2 & 0xF0) >> 4), Rcc.Digit((cfgr2 & 0xF000) >> 12),
        hse, sysclk)
  {
    if cfgr2 & srcMask != 0 {
      var tmp := Rcc.Digit((cfgr2 & 0xF000) >> 12);
      if tmp > 5 && tmp < 15 {
        tmp := tmp + 2;
      } else {
        if tmp == 15 {
          tmp := 20;
        }
      }
      source := Rcc.Digit((cfgr2 & 0xF0) >> 4) + 1;
      source := Rcc.Wrap(Rcc.Mul(hse / source, tmp) * 2);
    } else {
      source := sysclk;
    }
  }

  lemma Prediv2OfRun(f: Rcc.Fields, calls: seq<Rcc.Call>, div: bv32)
    requires Rcc.Named(Rcc.Prediv2(div)) && Rcc.Chosen(f, calls, Rcc.Prediv2(div))
    ensures Rcc.Digit(Rcc.Run(f, calls).prediv2 >> 4) + 1 == Rcc.Prediv2Divisor(div)
  {
    Rcc.ChosenInForce(f, calls, Rcc.Prediv2(div));
    Rcc.Prediv2Digit(div);
  }

  lemma Pll3Path(f: Rcc.Fields, calls: seq<Rcc.Call>, mul: bv32, div: bv32)
    requires Rcc.Named(Rcc.Pll3(mul)) && Rcc.Chosen(f, calls, Rcc.Pll3(mul))
    requires Rcc.Named(Rcc.Prediv2(div)) && Rcc.Chosen(f, calls, Rcc.Prediv2(div))
    ensures var g := Rcc.Run(f, calls);
      && Rcc.Digit(g.prediv2 >> 4) + 1 == Rcc.Prediv2Divisor(div)
      && Pll3Mul(Rcc.Digit(g.pll3mul >> 12)) == Pll3Named(mul)
  {
    Pll3FactorAsNamed(f, calls, mul);
    Prediv2OfRun(f, calls, div);
  }

  lemma Pll3Source(prediv2: nat, pll3: nat, hse: nat, sysclk: nat, p2: nat, m: nat)
    requires prediv2 + 1 == p2 && Pll3Mul(pll3) == m
    ensures Source(true, prediv2, pll3, hse, sysclk) == hse / p2 * m * 2 % 0x1_0000_0000
  {
  }

  /** After any sequence of calls, with PLL3 as source: the crystal divided and multiplied by what the arguments
    * of `RCC_PREDIV2Config` and `RCC_PLL3Config` name, and doubled. `prediv2` and `pll3` are the fields read. */
  lemma Pll3AfterRun(f: Rcc.Fields, calls: seq<Rcc.Call>, mul: bv32, div: bv32, hse: nat, sysclk: nat,
                     prediv2: nat, pll3: nat, p2: nat, m: nat)
    requires Rcc.Named(Rcc.Pll3(mul)) && Rcc.Chosen(f, calls, Rcc.Pll3(mul)) && m == Pll3Named(mul)
    requires Rcc.Named(Rcc.Prediv2(div)) && Rcc.Chosen(f, calls, Rcc.Prediv2(div)) && p2 == Rcc.Prediv2Divisor(div)
    requires prediv2 == Rcc.Digit(Rcc.Run(f, calls).prediv2 >> 4)
    requires pll3 == Rcc.Digit(Rcc.Run(f, calls).pll3mul >> 12)
    ensures Source(true, prediv2, pll3, hse, sysclk) == hse / p2 * m * 2 % 0x1_0000_0000
  {
    Pll3Path(f, calls, mul, div);
    Pll3Source(prediv2, pll3, hse, sysclk, p2, m);
  }

  // ---------------------------------------------------------------- the divider

  /** The clock that is divided down to the audio frequency. */
  function Ticks(source: nat, mclk: bool, format: bv16): nat {
    if mclk then source / 256 else if format == 0 then source / 32 else source / 64
  }

  /** Ten times the ratio, with 5 added for rounding. */
  function Tenfold(s: nat, freq: nat): nat
    requires 0 < freq
  {
    s * 10 / freq + 5
  }

  /** The divider as computed, with the cast to 16 bits. */
  function Divider(s: nat, freq: nat): nat
    requires 0 < freq
  {
    Tenfold(s, freq) % U16 / 10
  }

  datatype Prescaler = Prescaler(div: nat, odd: nat)

  /** The pair that the register takes for divider `d`; out of range, the default. */
  function Written(d: nat): Prescaler {
    if 4 <= d <= 511 then Prescaler(d / 2, d % 2) else Prescaler(2, 0)
  }

  method ComputePrescaler(source: nat, c: Config) returns (p: Prescaler)
    requires 0 < c.freq
    ensures p == if c.freq == 2 then Prescaler(2, 0)
        else Written(Divider(Ticks(source, c.mclk, c.format), c.freq))
  {
    var div, odd := 2, 0;
    if c.freq != FREQ_DEFAULT {
      var packetLength := if c.format == 0 then 1 else 2;
      var tmp;
      if c.mclk {
        tmp := Tenfold(source / 256, c.freq) % U16;
      } else {
        tmp := Tenfold(source / (32 * packetLength), c.freq) % U16;
      }
      tmp := tmp / 10;
      odd := tmp % 2;
      div := (tmp - odd) / 2;
    }
    if div < 2 || div > 0xFF {
      div, odd := 2, 0;
    }
    p := Prescaler(div, odd);
  }

  /** The divider the hardware uses for what was written. */
  function Effective(p: Prescaler): nat { 2 * p.div + p.odd }

  /** The register keeps exactly the dividers from 4 to 511. */
  lemma KeptIff(d: nat)
    ensures Effective(Written(d)) == d <==> 4 <= d <= 511
    ensures !(4 <= d <= 511) ==> Effective(Written(d)) == 4
    ensures 2 <= Written(d).div <= 255 && Written(d).odd <= 1
  {
  }

  /** `d` is the nearest whole number to s / freq, and the larger of two equally near ones. */
  ghost predicate Nearest(d: nat, s: nat, freq: nat) {
    2 * (d * freq) - 2 * s <= freq && 2 * s - 2 * (d * freq) < freq
  }

  lemma NearestUnique(d: nat, e: nat, s: nat, freq: nat)
    requires 0 < freq && Nearest(d, s, freq) && Nearest(e, s, freq)
    ensures d == e
  {
    Rcc.Unique(freq, d - e, (d - e) * freq);
  }

  /** Rounding by "times ten, plus five, by ten" in whole numbers is rounding of the true ratio. */
  lemma TenfoldRounds(s: nat, freq: nat)
    requires 0 < freq
    ensures Nearest(Tenfold(s, freq) / 10, s, freq)
  {
    var q, r := s * 10 / freq, s * 10 % freq;
    var d, e := (q + 5) / 10, (q + 5) % 10;
    assert s * 10 == freq * q + r && q + 5 == 10 * d + e;
    RoundingRing(s, freq, q, r, d, e);
  }

  lemma RoundingRing(s: nat, freq: nat, q: nat, r: nat, d: nat, e: nat)
    requires s * 10 == freq * q + r && r < freq && q + 5 == 10 * d + e && e < 10
    ensures Nearest(d, s, freq)
  {
    Distribute(freq, q, d, e);
    Rcc.Scale(e, 9, freq);
    Rcc.Scale(0, e, freq);
    RoundingLine(s, freq, d * freq, e * freq, r);
  }

  lemma RoundingLine(s: int, freq: int, x: int, y: int, r: int)
    requires s * 10 == 10 * x + y - 5 * freq + r && 0 <= y <= 9 * freq && 0 <= r < freq
    ensures 2 * x - 2 * s <= freq && 2 * s - 2 * x < freq
  {
  }

  lemma Distribute(freq: nat, q: nat, d: nat, e: nat)
    requires q + 5 == 10 * d + e
    ensures freq * q == 10 * (d * freq) + e * freq - 5 * freq
  {
    assert q == 10 * d + e - 5;
  }

  /** The cast to 16 bits cuts the divider short exactly when there is something to cut. */
  lemma CastHarmlessIff(x: nat)
    ensures x % U16 / 10 == x / 10 <==> x < U16
  {
  }

  /** The computed divider is the nearest whole number exactly when the cast to 16 bits cuts nothing off. */
  lemma NearestIff(s: nat, freq: nat)
    requires 0 < freq
    ensures Nearest(Divider(s, freq), s, freq) <==> s * 10 / freq + 5 < 0x1_0000
  {
    TenfoldRounds(s, freq);
    CastHarmlessIff(Tenfold(s, freq));
    if Nearest(Divider(s, freq), s, freq) {
      NearestUnique(Divider(s, freq), Tenfold(s, freq) / 10, s, freq);
    }
  }

  /** No clock of at most 1 GHz gets there, at any audio frequency that can be asked for. */
  lemma NoCutBelowGigahertz(source: nat, c: Config)
    requires source <= 1_000_000_000 && ValidConfig(c) && c.freq != FREQ_DEFAULT
    ensures Tenfold(Ticks(source, c.mclk, c.format), c.freq) < U16
  {
    TicksBound(source, c.mclk, c.format);
    FewTicks(Ticks(source, c.mclk, c.format), c.freq);
  }

  lemma TicksBound(source: nat, mclk: bool, format: bv16)
    requires source <= 1_000_000_000
    ensures Ticks(source, mclk, format) <= 31_250_000
  {
  }

  lemma FewTicks(s: nat, freq: nat)
    requires s <= 31_250_000 && 8000 <= freq
    ensures Tenfold(s, freq) < U16
  {
    var q := s * 10 / freq;
    assert s * 10 == freq * q + s * 10 % freq;
    Rcc.Scale(8000, freq, q);
  }

  /** PLL3 with a crystal of at most 25 MHz stays within that, and does not wrap. */
  lemma Pll3BelowGigahertz(prediv2: nat, pll3: nat, hse: nat, sysclk: nat)
    requires hse <= 25_000_000 && pll3 < 16
    ensures Source(true, prediv2, pll3, hse, sysclk) == hse / (prediv2 + 1) * Pll3Mul(pll3) * 2 <= 1_000_000_000
  {
    Rcc.DividedProduct(hse, prediv2 + 1, Pll3Mul(pll3), Rcc.HSE_MAX, 20);
  }

  /** So for all real clocks: what is written divides by the nearest whole number, if that is between 4 and
    * 511, and by 4 otherwise. */
  lemma WrittenIsNearestOrFour(source: nat, c: Config)
    requires source <= 1_000_000_000 && ValidConfig(c) && c.freq != FREQ_DEFAULT
    ensures var s := if c.mclk then source / 256 else if c.format == 0 then source / 32 else source / 64;
      var e := Effective(Written(Divider(Ticks(source, c.mclk, c.format), c.freq)));
      && (Nearest(e, s, c.freq) || e == 4)
      && (forall d: nat | Nearest(d, s, c.freq) :: e == if 4 <= d <= 511 then d else 4)
  {
    var s := Ticks(source, c.mclk, c.format);
    NoCutBelowGigahertz(source, c);
    NearestIff(s, c.freq);
    KeptIff(Divider(s, c.freq));
    forall d: nat | Nearest(d, s, c.freq)
      ensures d == Divider(s, c.freq)
    {
      NearestUnique(d, Divider(s, c.freq), s, c.freq);
    }
  }

  // ---------------------------------------------------------------- the registers

  /** I2SPR: the divider, the odd bit above it, the master clock bit above that. */
  function Pr(p: Prescaler, mclk: bool): nat { p.div + 0x100 * p.odd + if mclk then 0x200 else 0 }

  lemma PrFields(d: nat, mclk: bool)
    ensures var w := Pr(Written(d), mclk);
      Prescaler(w % 0x100, w / 0x100 % 2) == Written(d) && (w / 0x200 % 2 == 1 <==> mclk) && w < 0x400
  {
  }

  function Cfgr(was: bv16, c: Config): bv16 {
    (was & 0xF040) | 0x0800 | c.mode | c.standard | c.format | c.cpol
  }

  /** The fields of I2SCFGR: each choice can be read back, the I2S mode is selected and not yet enabled, and
    * the reserved bits stay. */
  lemma CfgrFields(was: bv16, c: Config)
    requires ValidConfig(c)
    ensures var w := Cfgr(was, c);
      && w & 0x300 == c.mode && w & 0xB0 == c.standard && w & 0x7 == c.format && w & 0x8 == c.cpol
      && w & 0x0C00 == 0x0800 && w & 0xF040 == was & 0xF040
  {
  }

  class Spi {
    var i2scfgr: bv16
    var i2spr: nat

    /** `I2S_Init`. */
    method Init(c: Config, cfgr2: bv32, srcMask: bv32, hse: nat, sysclk: nat)
      requires ValidConfig(c)
      modifies this
      ensures i2scfgr == Cfgr(old(i2scfgr), c)
      ensures var s := Source(cfgr2 & srcMask != 0, Rcc.Digit((cfgr2 & 0xF0) >> 4),
          Rcc.Digit((cfgr2 & 0xF000) >> 12), hse, sysclk);
        i2spr == Pr(if c.freq == FREQ_DEFAULT then Prescaler(2, 0)
          else Written(Divider(Ticks(s, c.mclk, c.format), c.freq)), c.mclk)
    {
      ClearThenSet(c);
      i2spr := 2;
      var source := SourceClock(cfgr2, srcMask, hse, sysclk);
      var p := ComputePrescaler(source, c);
      i2spr := Pr(p, c.mclk);
    }

    method ClearThenSet(c: Config)
      modifies this`i2scfgr
      ensures i2scfgr == Cfgr(old(i2scfgr), c)
    {
      var tmpreg := i2scfgr & 0xF040;
      i2scfgr := tmpreg;
      tmpreg := tmpreg | 0x0800 | c.mode | c.standard | c.format | c.cpol;
      i2scfgr := tmpreg;
    }
  }
}
