/** The packed sequencer and sample-time registers of the ADC as arrays. */
module AdcSequencer {
  import opened Words

  // ---------------------------------------------------------------- packed words

  /** Entry `k` of a word of five-bit entries (SQRx, JSQR) and of one of three-bit entries (SMPRx). */
  function Five(x: bv32, k: bv32): bv32
    requires k <= 5
  {
    (x >> (5 * k)) & 0x1F
  }

  function Three(x: bv32, k: bv32): bv32
    requires k <= 9
  {
    (x >> (3 * k)) & 0x7
  }

  lemma PutFive(x: bv32, k: bv32, v: bv32, j: bv32)
    requires k <= 5 && j <= 5 && v <= 0x1F
    ensures Five(Put(x, 0x1F, 5 * k, v), j) == if j == k then v else Five(x, j)
  {
  }

  lemma PutThree(x: bv32, k: bv32, v: bv32, j: bv32)
    requires k <= 9 && j <= 9 && v <= 0x7
    ensures Three(Put(x, 0x7, 3 * k, v), j) == if j == k then v else Three(x, j)
  {
  }

  // ---------------------------------------------------------------- words as arrays

  /** The first `n` entries of a word, entry by entry. */
  ghost function Fives(x: bv32, n: nat): (s: seq<bv32>)
    requires n <= 6
    ensures |s| == n
  {
    if n == 0 then [] else
      WRange(n - 1, 5);
      Fives(x, n - 1) + [Five(x, W(n - 1))]
  }

  ghost function Threes(x: bv32, n: nat): (s: seq<bv32>)
    requires n <= 10
    ensures |s| == n
  {
    if n == 0 then [] else
      WRange(n - 1, 9);
      Threes(x, n - 1) + [Three(x, W(n - 1))]
  }

  lemma {:induction false} FivesAt(x: bv32, n: nat, i: nat)
    requires i < n <= 6
    ensures W(i) <= 5 && Fives(x, n)[i] == Five(x, W(i))
  {
    if i < n - 1 {
      FivesAt(x, n - 1, i);
    } else {
      WRange(i, 5);
    }
  }

  lemma {:induction false} ThreesAt(x: bv32, n: nat, i: nat)
    requires i < n <= 10
    ensures W(i) <= 9 && Threes(x, n)[i] == Three(x, W(i))
  {
    if i < n - 1 {
      ThreesAt(x, n - 1, i);
    } else {
      WRange(i, 9);
    }
  }

  /** Entry by entry, the bits of a word. */
  lemma FiveBits(x: bv32)
    ensures var s := Fives(x, 6);
      && s[0] == x & 0x1F && s[1] == (x >> 5) & 0x1F
      && s[2] == (x >> 10) & 0x1F && s[3] == (x >> 15) & 0x1F
      && s[4] == (x >> 20) & 0x1F && s[5] == (x >> 25) & 0x1F
  {
    forall i: nat | i < 6 {
      FivesAt(x, 6, i);
    }
  }

  lemma ThreeBits(x: bv32)
    ensures var s := Threes(x, 10);
      && s[0] == x & 0x7 && s[1] == (x >> 3) & 0x7
      && s[2] == (x >> 6) & 0x7 && s[3] == (x >> 9) & 0x7
      && s[4] == (x >> 12) & 0x7 && s[5] == (x >> 15) & 0x7
      && s[6] == (x >> 18) & 0x7 && s[7] == (x >> 21) & 0x7
      && s[8] == (x >> 24) & 0x7 && s[9] == (x >> 27) & 0x7
  {
    forall i: nat | i < 10 {
      ThreesAt(x, 10, i);
    }
  }

  lemma PutFivesSame(x: bv32, n: nat, k: nat, v: bv32)
    requires k < n <= 6 && v <= 0x1F
    ensures W(k) <= 5 && Fives(Put(x, 0x1F, 5 * W(k), v), n)[k] == v
  {
    WRange(k, 5);
    FivesAt(Put(x, 0x1F, 5 * W(k), v), n, k);
    PutFive(x, W(k), v, W(k));
  }

  lemma PutFivesElsewhere(x: bv32, n: nat, k: bv32, v: bv32, i: nat)
    requires i < n <= 6 && k <= 5 && k != W(i) && v <= 0x1F
    ensures Fives(Put(x, 0x1F, 5 * k, v), n)[i] == Fives(x, n)[i]
  {
    WRange(i, 5);
    FivesAt(x, n, i);
    FivesAt(Put(x, 0x1F, 5 * k, v), n, i);
    PutFive(x, k, v, W(i));
  }

  lemma PutFivesOther(x: bv32, n: nat, k: nat, v: bv32, i: nat)
    requires k < n <= 6 && i < n && i != k && v <= 0x1F
    ensures W(k) <= 5 && Fives(Put(x, 0x1F, 5 * W(k), v), n)[i] == Fives(x, n)[i]
  {
    WRange(k, 5);
    WInjective(i, k);
    PutFivesElsewhere(x, n, W(k), v, i);
  }

  /** Read-modify-write of one entry is an update of the array. */
  lemma PutFives(x: bv32, n: nat, k: nat, v: bv32)
    requires k < n <= 6 && v <= 0x1F
    ensures W(k) <= 5 && Fives(Put(x, 0x1F, 5 * W(k), v), n) == Fives(x, n)[k := v]
  {
    PutFivesSame(x, n, k, v);
    var was, now := Fives(x, n)[k := v], Fives(Put(x, 0x1F, 5 * W(k), v), n);
    forall i: nat | i < n
      ensures now[i] == was[i]
    {
      if i != k {
        PutFivesOther(x, n, k, v, i);
      }
    }
  }

  lemma PutThreesSame(x: bv32, n: nat, k: nat, v: bv32)
    requires k < n <= 10 && v <= 0x7
    ensures W(k) <= 9 && Threes(Put(x, 0x7, 3 * W(k), v), n)[k] == v
  {
    WRange(k, 9);
    ThreesAt(Put(x, 0x7, 3 * W(k), v), n, k);
    PutThree(x, W(k), v, W(k));
  }

  lemma PutThreesElsewhere(x: bv32, n: nat, k: bv32, v: bv32, i: nat)
    requires i < n <= 10 && k <= 9 && k != W(i) && v <= 0x7
    ensures Threes(Put(x, 0x7, 3 * k, v), n)[i] == Threes(x, n)[i]
  {
    WRange(i, 9);
    ThreesAt(x, n, i);
    ThreesAt(Put(x, 0x7, 3 * k, v), n, i);
    PutThree(x, k, v, W(i));
  }

  lemma PutThreesOther(x: bv32, n: nat, k: nat, v: bv32, i: nat)
    requires k < n <= 10 && i < n && i != k && v <= 0x7
    ensures W(k) <= 9 && Threes(Put(x, 0x7, 3 * W(k), v), n)[i] == Threes(x, n)[i]
  {
    WRange(k, 9);
    WInjective(i, k);
    PutThreesElsewhere(x, n, W(k), v, i);
  }

  lemma PutThrees(x: bv32, n: nat, k: nat, v: bv32)
    requires k < n <= 10 && v <= 0x7
    ensures W(k) <= 9 && Threes(Put(x, 0x7, 3 * W(k), v), n) == Threes(x, n)[k := v]
  {
    PutThreesSame(x, n, k, v);
    var was, now := Threes(x, n)[k := v], Threes(Put(x, 0x7, 3 * W(k), v), n);
    forall i: nat | i < n
      ensures now[i] == was[i]
    {
      if i != k {
        PutThreesOther(x, n, k, v, i);
      }
    }
  }

  // ---------------------------------------------------------------- the lengths

  /** SQR1 shares its word with L, JSQR with JL; both hold the sequence length minus one. */
  function L(sqr1: bv32): bv32 { (sqr1 >> 20) & 0xF }

  function Jl(jsqr: bv32): bv32 { (jsqr & 0x0030_0000) >> 20 }

  function WithL(sqr1: bv32, l: bv32): bv32 { (sqr1 & 0xFF0F_FFFF) | (l << 20) }

  function WithJl(jsqr: bv32, l: bv32): bv32 { (jsqr & 0xFFCF_FFFF) | (l << 20) }

  lemma LBits(x: bv32, l: bv32, k: bv32)
    requires l <= 0xF && k <= 3
    ensures L(WithL(x, l)) == l && Five(WithL(x, l), k) == Five(x, k)
  {
  }

  lemma JlBits(x: bv32, l: bv32, k: bv32)
    requires l <= 3 && k <= 3
    ensures Jl(WithJl(x, l)) == l && Five(WithJl(x, l), k) == Five(x, k)
  {
  }

  lemma PutKeepsL(x: bv32, k: bv32, v: bv32)
    requires k <= 3 && v <= 0x1F
    ensures L(Put(x, 0x1F, 5 * k, v)) == L(x)
  {
  }

  /** Writing the length moves no rank. */
  lemma LKeepsRanks(x: bv32, l: bv32)
    requires l <= 0xF
    ensures L(WithL(x, l)) == l && Fives(WithL(x, l), 4) == Fives(x, 4)
  {
    LBits(x, l, 0);
    forall i: nat | i < 4
      ensures Fives(WithL(x, l), 4)[i] == Fives(x, 4)[i]
    {
      WRange(i, 3);
      FivesAt(x, 4, i);
      FivesAt(WithL(x, l), 4, i);
      LBits(x, l, W(i));
    }
  }

  lemma JlKeepsSlots(x: bv32, l: bv32)
    requires l <= 3
    ensures Jl(WithJl(x, l)) == l && Fives(WithJl(x, l), 4) == Fives(x, 4)
  {
    JlBits(x, l, 0);
    forall i: nat | i < 4
      ensures Fives(WithJl(x, l), 4)[i] == Fives(x, 4)[i]
    {
      WRange(i, 3);
      FivesAt(x, 4, i);
      FivesAt(WithJl(x, l), 4, i);
      JlBits(x, l, W(i));
    }
  }

  method LWord(word: bv32, l: bv32) returns (tmpreg1: bv32)
    ensures tmpreg1 == WithL(word, l)
  {
    tmpreg1 := word & 0xFF0F_FFFF;
    tmpreg1 := tmpreg1 | (l << 20);
  }

  method JlWord(word: bv32, l: bv32) returns (tmpreg1: bv32)
    ensures tmpreg1 == WithJl(word, l)
  {
    tmpreg1 := word & 0xFFCF_FFFF;
    tmpreg1 := tmpreg1 | (l << 20);
  }

  /** The injected channel config may aim above the four slots: at 4 it hits JL, at 5 or 6 nothing in use. */
  lemma PutAbove(x: bv32, k: bv32, v: bv32, j: bv32)
    requires 4 <= k <= 6 && v <= 0x1F && j <= 3
    ensures Five(Put(x, 0x1F, 5 * k, v), j) == Five(x, j)
    ensures Jl(Put(x, 0x1F, 5 * k, v)) == if k == 4 then v & 3 else Jl(x)
  {
  }

  lemma PutKeepsJl(x: bv32, k: bv32, v: bv32)
    requires k <= 3 && v <= 0x1F
    ensures Jl(Put(x, 0x1F, 5 * k, v)) == Jl(x)
  {
  }

  lemma PutSlots(x: bv32, k: nat, v: bv32)
    requires k <= 6 && v <= 0x1F
    ensures W(k) <= 6
    ensures Fives(Put(x, 0x1F, 5 * W(k), v), 4) == if k <= 3 then Fives(x, 4)[k := v] else Fives(x, 4)
    ensures Jl(Put(x, 0x1F, 5 * W(k), v)) == if k == 4 then v & 3 else Jl(x)
  {
    if k <= 3 {
      WRange(k, 3);
      PutFives(x, 4, k, v);
      PutKeepsJl(x, W(k), v);
    } else {
      PutSlotsAbove(x, k, v);
    }
  }

  lemma PutSlotsAbove(x: bv32, k: nat, v: bv32)
    requires 4 <= k <= 6 && v <= 0x1F
    ensures W(k) <= 6
    ensures Fives(Put(x, 0x1F, 5 * W(k), v), 4) == Fives(x, 4)
    ensures Jl(Put(x, 0x1F, 5 * W(k), v)) == if k == 4 then v & 3 else Jl(x)
  {
    PutAbove(x, W(k), v, 0);
    forall i: nat | i < 4
      ensures Fives(Put(x, 0x1F, 5 * W(k), v), 4)[i] == Fives(x, 4)[i]
    {
      WRange(i, 3);
      FivesAt(x, 4, i);
      FivesAt(Put(x, 0x1F, 5 * W(k), v), 4, i);
      PutAbove(x, W(k), v, W(i));
    }
  }

  // ---------------------------------------------------------------- the control registers

  /** The fields of CR1 and CR2 that `ADC_Init` writes: DUALMOD, SCAN, EXTSEL, ALIGN, CONT. */
  datatype Setup = Setup(mode: bv32, scan: bv32, trigger: bv32, align: bv32, continuous: bv32)

  function SetupOf(cr1: bv32, cr2: bv32): Setup {
    Setup(cr1 & 0xF_0000, (cr1 & 0x100) >> 8, cr2 & 0xE_0000, cr2 & 0x800, (cr2 & 0x2) >> 1)
  }

  /** All other bits. */
  function Others(cr1: bv32, cr2: bv32): (bv32, bv32) { (cr1 & 0xFFF0_FEFF, cr2 & 0xFFF1_F7FD) }

  predicate ValidSetup(s: Setup) {
    && s.mode == s.mode & 0xF_0000 && s.mode <= 0x9_0000 && s.scan <= 1
    && s.trigger == s.trigger & 0xE_0000 && s.align == s.align & 0x800 && s.continuous <= 1
  }

  method Cr1Word(word: bv32, mode: bv32, scan: bv32, ghost cr2: bv32) returns (tmpreg1: bv32)
    requires mode == mode & 0xF_0000 && scan <= 1
    ensures SetupOf(tmpreg1, cr2) == SetupOf(word, cr2).(mode := mode, scan := scan)
    ensures Others(tmpreg1, cr2) == Others(word, cr2)
  {
    tmpreg1 := word & 0xFFF0_FEFF;
    tmpreg1 := tmpreg1 | (mode | (scan << 8));
  }

  method Cr2Word(word: bv32, trigger: bv32, align: bv32, continuous: bv32, ghost cr1: bv32) returns (tmpreg1: bv32)
    requires trigger == trigger & 0xE_0000 && align == align & 0x800 && continuous <= 1
    ensures SetupOf(cr1, tmpreg1) ==
      SetupOf(cr1, word).(trigger := trigger, align := align, continuous := continuous)
    ensures Others(cr1, tmpreg1) == Others(cr1, word)
  {
    tmpreg1 := word & 0xFFF1_F7FD;
    tmpreg1 := tmpreg1 | (align | trigger | (continuous << 1));
  }

  method ControlWords(cr1: bv32, cr2: bv32, setup: Setup) returns (word1: bv32, word2: bv32)
    requires ValidSetup(setup)
    ensures SetupOf(word1, word2) == setup && Others(word1, word2) == Others(cr1, cr2)
  {
    word1 := Cr1Word(cr1, setup.mode, setup.scan, cr2);
    word2 := Cr2Word(cr2, setup.trigger, setup.align, setup.continuous, word1);
  }

  // ---------------------------------------------------------------- what the registers mean

  /** Channel of rank 1..16 (at 0..15), length minus one, sample time of channel 0..17, channels of the four
    * injected slots, injected length minus one; the fields of the control registers, and their other bits.
    * The hardware converts the last JL + 1 slots: injected rank r is slot r + 2 - JL. */
  datatype View = View(channel: seq<bv32>, l: bv32, sample: seq<bv32>, slot: seq<bv32>, jl: nat,
                       setup: Setup, others: (bv32, bv32))

  ghost predicate Wf(v: View) { |v.channel| == 16 && |v.sample| == 18 && |v.slot| == 4 && v.jl <= 3 }

  datatype Call =
    | Init(n: nat, setup: Setup)
    | Regular(channel: nat, rank: nat, time: bv32)
    | Injected(channel: nat, rank: nat, time: bv32)
    | InjectedLength(n: nat)

  /** The arguments `assert_param` lets through. */
  predicate Valid(c: Call) {
    match c
    case Init(n, setup) => 1 <= n <= 16 && ValidSetup(setup)
    case Regular(channel, rank, time) => channel <= 17 && 1 <= rank <= 16 && time <= 7
    case Injected(channel, rank, time) => channel <= 17 && 1 <= rank <= 4 && time <= 7
    case InjectedLength(n) => 1 <= n <= 4
  }

  /** The slot at which `ADC_InjectedChannelConfig` aims; a slot only if the rank is within the length. */
  function SlotOf(rank: nat, jl: nat): (k: nat)
    requires 1 <= rank <= 4 && jl <= 3
    ensures k <= 6 && (k <= 3 <==> rank <= jl + 1)
  {
    (rank + 3) - (jl + 1)
  }

  ghost function RegularCalled(v: View, channel: nat, rank: nat, time: bv32): (r: View)
    requires Wf(v) && channel <= 17 && 1 <= rank <= 16
    ensures Wf(r)
  {
    v.(channel := v.channel[rank - 1 := W(channel)], sample := v.sample[channel := time])
  }

  ghost function InjectedCalled(v: View, channel: nat, rank: nat, time: bv32): (r: View)
    requires Wf(v) && channel <= 17 && 1 <= rank <= 4
    ensures Wf(r)
  {
    var k := SlotOf(rank, v.jl);
    v.(sample := v.sample[channel := time],
       slot := if k <= 3 then v.slot[k := W(channel)] else v.slot,
       jl := if k == 4 then channel % 4 else v.jl)
  }

  ghost function InitCalled(v: View, n: nat, setup: Setup): (r: View)
    requires Wf(v) && 1 <= n <= 16
    ensures Wf(r)
  {
    v.(l := W(n - 1), setup := setup)
  }

  /** What a call means. */
  ghost function Called(v: View, c: Call): (r: View)
    requires Valid(c) && Wf(v)
    ensures Wf(r)
  {
    match c
    case Init(n, setup) => InitCalled(v, n, setup)
    case Regular(channel, rank, time) => RegularCalled(v, channel, rank, time)
    case Injected(channel, rank, time) => InjectedCalled(v, channel, rank, time)
    case InjectedLength(n) => v.(jl := n - 1)
  }

  class Adc {
    var cr1: bv32
    var cr2: bv32
    var sqr1: bv32
    var sqr2: bv32
    var sqr3: bv32
    var smpr1: bv32
    var smpr2: bv32
    var jsqr: bv32

    ghost function Channels(): seq<bv32>
      reads `sqr1, `sqr2, `sqr3
    {
      Fives(sqr3, 6) + Fives(sqr2, 6) + Fives(sqr1, 4)
    }

    ghost function Samples(): seq<bv32>
      reads `smpr1, `smpr2
    {
      Threes(smpr2, 10) + Threes(smpr1, 8)
    }

    ghost function Meaning(): (v: View)
      reads this
      ensures Wf(v)
    {
      View(Channels(), L(sqr1), Samples(), Fives(jsqr, 4), Quarter(Jl(jsqr)), SetupOf(cr1, cr2), Others(cr1, cr2))
    }

    /** `ADC_Init`. */
    method Init(n: nat, setup: Setup)
      requires Valid(Call.Init(n, setup))
      modifies this`cr1, this`cr2, this`sqr1
      ensures Meaning() == Called(old(Meaning()), Call.Init(n, setup))
    {
      Configure(setup);
      SetLength(n);
    }

    method Configure(setup: Setup)
      requires ValidSetup(setup)
      modifies this`cr1, this`cr2
      ensures Meaning() == old(Meaning()).(setup := setup)
    {
      cr1, cr2 := ControlWords(cr1, cr2, setup);
    }

    method SetLength(n: nat)
      requires 1 <= n <= 16
      modifies this`sqr1
      ensures Meaning() == old(Meaning()).(l := W(n - 1))
    {
      WRange(n - 1, 15);
      SetL(W(n - 1));
    }

    method SetL(l: bv32)
      requires l <= 0xF
      modifies this`sqr1
      ensures L(sqr1) == l && Fives(sqr1, 4) == Fives(old(sqr1), 4)
    {
      LKeepsRanks(sqr1, l);
      sqr1 := LWord(sqr1, l);
    }

    method SetSmpr1(k: nat, time: bv32)
      requires k < 8 && time <= 7
      modifies this`smpr1
      ensures Threes(smpr1, 8) == Threes(old(smpr1), 8)[k := time]
    {
      PutThrees(smpr1, 8, k, time);
      smpr1 := Replace(smpr1, 0x7, 3 * W(k), time);
    }

    method SetSmpr2(k: nat, time: bv32)
      requires k < 10 && time <= 7
      modifies this`smpr2
      ensures Threes(smpr2, 10) == Threes(old(smpr2), 10)[k := time]
    {
      PutThrees(smpr2, 10, k, time);
      smpr2 := Replace(smpr2, 0x7, 3 * W(k), time);
    }

    method SetSample(channel: nat, time: bv32)
      requires channel <= 17 && time <= 7
      modifies this`smpr1, this`smpr2
      ensures Samples() == old(Samples())[channel := time]
    {
      if channel > 9 {
        SetSmpr1(channel - 10, time);
      } else {
        SetSmpr2(channel, time);
      }
    }

    method SetSqr3(k: nat, channel: bv32)
      requires k < 6 && channel <= 17
      modifies this`sqr3
      ensures Fives(sqr3, 6) == Fives(old(sqr3), 6)[k := channel]
    {
      PutFives(sqr3, 6, k, channel);
      sqr3 := Replace(sqr3, 0x1F, 5 * W(k), channel);
    }

    method SetSqr2(k: nat, channel: bv32)
      requires k < 6 && channel <= 17
      modifies this`sqr2
      ensures Fives(sqr2, 6) == Fives(old(sqr2), 6)[k := channel]
    {
      PutFives(sqr2, 6, k, channel);
      sqr2 := Replace(sqr2, 0x1F, 5 * W(k), channel);
    }

    method SetSqr1(k: nat, channel: bv32)
      requires k < 4 && channel <= 17
      modifies this`sqr1
      ensures Fives(sqr1, 4) == Fives(old(sqr1), 4)[k := channel] && L(sqr1) == L(old(sqr1))
    {
      PutFives(sqr1, 4, k, channel);
      WRange(k, 3);
      PutKeepsL(sqr1, W(k), channel);
      sqr1 := Replace(sqr1, 0x1F, 5 * W(k), channel);
    }

    method SetRank(channel: bv32, rank: nat)
      requires channel <= 17 && 1 <= rank <= 16
      modifies this`sqr1, this`sqr2, this`sqr3
      ensures Channels() == old(Channels())[rank - 1 := channel]
      ensures L(sqr1) == L(old(sqr1))
    {
      if rank < 7 {
        SetSqr3(rank - 1, channel);
      } else if rank < 13 {
        SetSqr2(rank - 7, channel);
      } else {
        SetSqr1(rank - 13, channel);
      }
    }

    method SetRankTo(channel: nat, rank: nat)
      requires channel <= 17 && 1 <= rank <= 16
      modifies this`sqr1, this`sqr2, this`sqr3
      ensures Meaning() == old(Meaning()).(channel := old(Meaning()).channel[rank - 1 := W(channel)])
    {
      WRange(channel, 17);
      SetRank(W(channel), rank);
    }

    /** `ADC_RegularChannelConfig`. */
    method RegularChannelConfig(channel: nat, rank: nat, time: bv32)
      requires Valid(Regular(channel, rank, time))
      modifies this`sqr1, this`sqr2, this`sqr3, this`smpr1, this`smpr2
      ensures Meaning() == Called(old(Meaning()), Regular(channel, rank, time))
    {
      SetSample(channel, time);
      SetRankTo(channel, rank);
    }

    method SetJsqr(k: nat, channel: bv32)
      requires k <= 6 && channel <= 17
      modifies this`jsqr
      ensures Fives(jsqr, 4) == (if k <= 3 then Fives(old(jsqr), 4)[k := channel] else Fives(old(jsqr), 4))
      ensures Jl(jsqr) == if k == 4 then channel & 3 else Jl(old(jsqr))
    {
      PutSlots(jsqr, k, channel);
      jsqr := Replace(jsqr, 0x1F, 5 * W(k), channel);
    }

    method SetSlot(channel: nat, rank: nat)
      requires channel <= 17 && 1 <= rank <= 4
      modifies this`jsqr
      ensures var k := SlotOf(rank, Quarter(Jl(old(jsqr))));
        && Fives(jsqr, 4) == (if k <= 3 then Fives(old(jsqr), 4)[k := W(channel)] else Fives(old(jsqr), 4))
        && Quarter(Jl(jsqr)) == if k == 4 then channel % 4 else Quarter(Jl(old(jsqr)))
    {
      WRange(channel, 17);
      LowBits(channel);
      var tmpreg3 := Quarter(Jl(jsqr));
      SetJsqr((rank + 3) - (tmpreg3 + 1), W(channel));
    }

    /** `ADC_InjectedChannelConfig`. */
    method InjectedChannelConfig(channel: nat, rank: nat, time: bv32)
      requires Valid(Injected(channel, rank, time))
      modifies this`jsqr, this`smpr1, this`smpr2
      ensures Meaning() == Called(old(Meaning()), Injected(channel, rank, time))
    {
      SetSample(channel, time);
      SetSlot(channel, rank);
    }

    method SetJl(l: bv32)
      requires l <= 3
      modifies this`jsqr
      ensures Jl(jsqr) == l && Fives(jsqr, 4) == Fives(old(jsqr), 4)
    {
      JlKeepsSlots(jsqr, l);
      jsqr := JlWord(jsqr, l);
    }

    /** `ADC_InjectedSequencerLengthConfig`. */
    method InjectedSequencerLengthConfig(n: nat)
      requires Valid(InjectedLength(n))
      modifies this`jsqr
      ensures Meaning() == Called(old(Meaning()), InjectedLength(n))
    {
      WRange(n - 1, 3);
      SetJl(W(n - 1));
    }

    /** Any call. */
    method Perform(c: Call)
      requires Valid(c)
      modifies this
      ensures Meaning() == Called(old(Meaning()), c)
    {
      match c
      case Init(n, setup) => Init(n, setup);
      case Regular(channel, rank, time) => RegularChannelConfig(channel, rank, time);
      case Injected(channel, rank, time) => InjectedChannelConfig(channel, rank, time);
      case InjectedLength(n) => InjectedSequencerLengthConfig(n);
    }
  }

  /** Which register has what: ranks 1 to 6 in SQR3, 7 to 12 in SQR2, 13 to 16 in SQR1, under the length; the
    * sample times of channels 0 to 9 in SMPR2, of 10 to 17 in SMPR1; the slots in JSQR, under its length. */
  lemma Placement(adc: Adc)
    ensures var v := adc.Meaning();
      && v.channel[..6] == Fives(adc.sqr3, 6) && v.channel[6..12] == Fives(adc.sqr2, 6)
      && v.channel[12..] == Fives(adc.sqr1, 4) && v.l == (adc.sqr1 >> 20) & 0xF
      && v.sample[..10] == Threes(adc.smpr2, 10) && v.sample[10..] == Threes(adc.smpr1, 8)
      && v.slot == Fives(adc.jsqr, 4) && v.jl == Quarter((adc.jsqr & 0x0030_0000) >> 20)
  {
  }

  lemma LowBits(channel: nat)
    requires channel <= 17
    ensures Quarter(W(channel) & 3) == channel % 4
  {
  }

  // ---------------------------------------------------------------- runs

  ghost predicate AllValid(calls: seq<Call>) { forall c | c in calls :: Valid(c) }

  /** Any sequence of calls. */
  ghost function Run(v: View, calls: seq<Call>): (r: View)
    requires AllValid(calls) && Wf(v)
    ensures Wf(r)
  {
    if calls == [] then v else Called(Run(v, calls[..|calls| - 1]), calls[|calls| - 1])
  }

  lemma RunOneMore(v: View, calls: seq<Call>, i: nat)
    requires AllValid(calls) && Wf(v) && i < |calls|
    ensures AllValid(calls[..i]) && AllValid(calls[..i + 1]) && Valid(calls[i])
    ensures Run(v, calls[..i + 1]) == Called(Run(v, calls[..i]), calls[i])
  {
    assert calls[..i + 1][..i] == calls[..i];
    assert calls[i] in calls;
  }

  method PerformAll(adc: Adc, calls: seq<Call>)
    requires AllValid(calls)
    modifies adc
    ensures adc.Meaning() == Run(old(adc.Meaning()), calls)
  {
    var i := 0;
    while i < |calls|
      invariant i <= |calls| && adc.Meaning() == Run(old(adc.Meaning()), calls[..i])
    {
      RunOneMore(old(adc.Meaning()), calls, i);
      adc.Perform(calls[i]);
      i := i + 1;
    }
    assert calls[..i] == calls;
  }

  /** The channel last chosen for a regular rank, or `was`. */
  function LastChannel(calls: seq<Call>, rank: nat, was: bv32): bv32 {
    if calls == [] then was
    else
      var c := calls[|calls| - 1];
      if c.Regular? && c.rank == rank then W(c.channel) else LastChannel(calls[..|calls| - 1], rank, was)
  }

  /** The sample time last chosen for a channel, regular or injected, or `was`. */
  function LastSample(calls: seq<Call>, channel: nat, was: bv32): bv32 {
    if calls == [] then was
    else
      var c := calls[|calls| - 1];
      if (c.Regular? || c.Injected?) && c.channel == channel then c.time
        else LastSample(calls[..|calls| - 1], channel, was)
  }

  /** The length field last chosen, or `was`. */
  function LastL(calls: seq<Call>, was: bv32): bv32
    requires AllValid(calls)
  {
    if calls == [] then was
    else
      var c := calls[|calls| - 1];
      assert Valid(c);
      if c.Init? then W(c.n - 1) else LastL(calls[..|calls| - 1], was)
  }

  /** The control setting last chosen, or `was`. */
  function LastSetup(calls: seq<Call>, was: Setup): Setup {
    if calls == [] then was
    else
      var c := calls[|calls| - 1];
      if c.Init? then c.setup else LastSetup(calls[..|calls| - 1], was)
  }

  lemma RegularStep(v: View, c: Call, rank: nat, channel: nat)
    requires Valid(c) && Wf(v) && 1 <= rank <= 16 && channel <= 17
    ensures var r := Called(v, c);
      && r.channel[rank - 1] == (if c.Regular? && c.rank == rank then W(c.channel) else v.channel[rank - 1])
      && r.sample[channel] ==
           (if (c.Regular? || c.Injected?) && c.channel == channel then c.time else v.sample[channel])
      && r.l == (if c.Init? then W(c.n - 1) else v.l)
      && r.setup == (if c.Init? then c.setup else v.setup) && r.others == v.others
  {
  }

  /** After any sequence of calls, every rank has the channel last chosen for it, every channel the sample
    * time, the sequence the length, and the control registers the setting; nothing else moves any of them. */
  lemma {:induction false} RegularAfterRun(v: View, calls: seq<Call>, rank: nat, channel: nat)
    requires AllValid(calls) && Wf(v) && 1 <= rank <= 16 && channel <= 17
    ensures var r := Run(v, calls);
      && r.channel[rank - 1] == LastChannel(calls, rank, v.channel[rank - 1])
      && r.sample[channel] == LastSample(calls, channel, v.sample[channel])
      && r.l == LastL(calls, v.l)
      && r.setup == LastSetup(calls, v.setup) && r.others == v.others
  {
    if calls == [] {
    } else {
      var front, c := calls[..|calls| - 1], calls[|calls| - 1];
      RegularAfterRun(v, front, rank, channel);
      assert Valid(c);
      RegularStep(Run(v, front), c, rank, channel);
    }
  }

  /** The channel last chosen for an injected rank, or `was`. */
  function LastInjected(calls: seq<Call>, rank: nat, was: bv32): bv32 {
    if calls == [] then was
    else
      var c := calls[|calls| - 1];
      if c.Injected? && c.rank == rank then W(c.channel) else LastInjected(calls[..|calls| - 1], rank, was)
  }

  /** The injected length is not set again, and no rank beyond it is configured. */
  ghost predicate WithinLength(calls: seq<Call>, jl: nat) {
    forall c | c in calls :: !c.InjectedLength? && (c.Injected? ==> c.rank <= jl + 1)
  }

  lemma InjectedStep(v: View, c: Call, rank: nat)
    requires Valid(c) && Wf(v) && 1 <= rank <= v.jl + 1
    requires !c.InjectedLength? && (c.Injected? ==> c.rank <= v.jl + 1)
    ensures var r, k := Called(v, c), rank + 2 - v.jl;
      r.jl == v.jl && r.slot[k] == if c.Injected? && c.rank == rank then W(c.channel) else v.slot[k]
  {
  }

  /** Once the length is set, configuring ranks within it, in any order and with repeats, leaves each rank
    * with the channel last chosen for it, and never disturbs the length. */
  lemma {:induction false} InjectedAfterRun(v: View, calls: seq<Call>, rank: nat)
    requires AllValid(calls) && Wf(v) && WithinLength(calls, v.jl) && 1 <= rank <= v.jl + 1
    ensures var r := Run(v, calls);
      && r.jl == v.jl
      && r.slot[rank + 2 - v.jl] == LastInjected(calls, rank, v.slot[rank + 2 - v.jl])
  {
    if calls == [] {
    } else {
      var front, c := calls[..|calls| - 1], calls[|calls| - 1];
      InjectedAfterRun(v, front, rank);
      assert Valid(c) && c in calls;
      InjectedStep(Run(v, front), c, rank);
    }
  }

  /** The condition is needed. A rank beyond the length gets no slot; and it leaves the length alone for every
    * channel exactly if it is not the very next one. */
  lemma BeyondLength(v: View, rank: nat, time: bv32)
    requires Wf(v) && v.jl + 1 < rank <= 4 && time <= 7
    ensures forall channel: nat | channel <= 17 :: Called(v, Injected(channel, rank, time)).slot == v.slot
    ensures (forall channel: nat | channel <= 17 :: Called(v, Injected(channel, rank, time)).jl == v.jl)
        <==> rank != v.jl + 2
  {
    var other := if v.jl == 0 then 1 else 0;
    assert rank == v.jl + 2 ==> Called(v, Injected(other, rank, time)).jl != v.jl;
  }

  /** Setting the length slides the ranks along the slots: a channel keeps its distance from the end. */
  lemma LengthMovesRanks(v: View, n: nat, rank: nat, before: nat)
    requires Wf(v) && 1 <= rank <= n <= 4 && 1 <= before <= v.jl + 1
    ensures var r := Called(v, InjectedLength(n));
      && r.slot == v.slot && (SlotOf(rank, r.jl) == SlotOf(before, v.jl) <==> n - rank == (v.jl + 1) - before)
  {
  }
}
