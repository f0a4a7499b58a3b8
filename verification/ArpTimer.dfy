/** The ARP timer of `LwIP_Periodic_Handle`: a 32-bit clock, differences modulo 2^32, any length of time. */
module ArpTimer {
  import opened Words

  const INTERVAL: nat := 5000  // ARP_TMR_INTERVAL

  /** `localtime - ARPTimer` on 32 bits. */
  function Elapsed(local: nat, timer: nat): nat { (local - timer) % U32 }

  class NetTimer {
    var arpTimer: nat

    constructor ()
      ensures arpTimer == 0
    {
      arpTimer := 0;
    }

    /** `LwIP_Periodic_Handle`; `fired` says that it called `etharp_tmr`. */
    method PeriodicHandle(localTime: nat) returns (fired: bool)
      modifies this
      ensures fired <==> (localTime - old(arpTimer)) % 0x1_0000_0000 >= 5000
      ensures arpTimer == if fired then localTime else old(arpTimer)
    {
      fired := false;
      if Elapsed(localTime, arpTimer) >= INTERVAL {
        arpTimer := localTime;
        fired := true;
      }
    }
  }

  // ---------------------------------------------------------------- schedules

  /** The true times of the calls, counted from power-up, never wrapping; no two calls more than `d` apart. */
  ghost predicate Schedule(t: seq<nat>, d: nat) {
    && (0 < |t| ==> t[0] <= d)
    && forall i | 0 <= i < |t| - 1 :: t[i] <= t[i + 1] <= t[i] + d
  }

  /** ARPTimer after the first `n` calls, as the code computes it from the wrapped clock. */
  function Timer(t: seq<nat>, n: nat): nat
    requires n <= |t|
    decreases n, 0
  {
    if n == 0 then 0 else if Fires(t, n - 1) then t[n - 1] % U32 else Timer(t, n - 1)
  }

  predicate Fires(t: seq<nat>, i: nat)
    requires i < |t|
    decreases i, 1
  {
    Elapsed(t[i] % U32, Timer(t, i)) >= INTERVAL
  }

  /** The true time of the last firing among the first `n` calls; 0 if there was none. */
  function LastFiring(t: seq<nat>, n: nat): nat
    requires n <= |t|
  {
    if n == 0 then 0 else if Fires(t, n - 1) then t[n - 1] else LastFiring(t, n - 1)
  }

  /** Calls made with the wrapped clock behave as `Timer` and `Fires` say. */
  method Drive(timer: NetTimer, t: seq<nat>) returns (fired: seq<bool>)
    requires timer.arpTimer == 0
    modifies timer
    ensures |fired| == |t| && forall i | 0 <= i < |t| :: fired[i] == Fires(t, i)
    ensures timer.arpTimer == Timer(t, |t|)
  {
    fired := [];
    while |fired| < |t|
      invariant |fired| <= |t| && timer.arpTimer == Timer(t, |fired|)
      invariant forall i | 0 <= i < |fired| :: fired[i] == Fires(t, i)
    {
      var f := timer.PeriodicHandle(t[|fired|] % U32);
      fired := fired + [f];
    }
  }

  // ---------------------------------------------------------------- what wrapping does

  lemma WrappedDifference(a: nat, b: nat)
    ensures Elapsed(a % U32, b % U32) == (a - b) % U32
  {
    var k := a / U32 - b / U32;
    assert a - b == (a % U32 - b % U32) + k * U32;
    Shift(a % U32 - b % U32, k);
  }

  lemma Shift(x: int, k: int)
    ensures (x + k * U32) % U32 == x % U32
  {
  }

  lemma {:induction false} TimerIsLastFiring(t: seq<nat>, n: nat)
    requires n <= |t|
    ensures Timer(t, n) == LastFiring(t, n) % U32
  {
    if n == 0 {
    } else {
      TimerIsLastFiring(t, n - 1);
    }
  }

  /** A call fires exactly if the true time since the last firing, taken modulo 2^32, has reached the
    * interval. */
  lemma FiresModulo(t: seq<nat>, i: nat)
    requires i < |t|
    ensures Fires(t, i) <==> (t[i] - LastFiring(t, i)) % 0x1_0000_0000 >= 5000
  {
    TimerIsLastFiring(t, i);
    WrappedDifference(t[i], LastFiring(t, i));
  }

  // ---------------------------------------------------------------- unbounded time

  /** What is wanted of call `i`: it fires exactly if the interval has passed since the last firing. */
  ghost predicate Exact(t: seq<nat>, i: nat)
    requires i < |t|
  {
    Fires(t, i) <==> t[i] - LastFiring(t, i) >= INTERVAL
  }

  /** At call `i` less than interval + d has passed since the last firing, however long the clock has run;
    * so the call is exact if that fits the clock. */
  lemma {:induction false} CallsAreExact(t: seq<nat>, d: nat, i: nat)
    requires Schedule(t, d) && d + INTERVAL <= U32 && i < |t|
    ensures LastFiring(t, i) <= t[i] < LastFiring(t, i) + INTERVAL + d || (i == 0 && t[i] <= d)
    ensures 0 <= t[i] - LastFiring(t, i) < U32 && Exact(t, i)
    ensures LastFiring(t, i + 1) <= t[i] < LastFiring(t, i + 1) + INTERVAL
  {
    if i == 0 {
    } else {
      CallsAreExact(t, d, i - 1);
      assert t[i - 1] <= t[i - 1 + 1] <= t[i - 1] + d;
    }
    FiresModulo(t, i);
  }

  /** Call `i` fires and no call between it and call `j` does, but `j` does. */
  ghost predicate ConsecutiveFirings(t: seq<nat>, i: nat, j: nat) {
    i < j < |t| && Fires(t, i) && Fires(t, j) && forall k | i < k < j :: !Fires(t, k)
  }

  lemma {:induction false} LastFiringBetween(t: seq<nat>, i: nat, j: nat)
    requires i < j <= |t| && Fires(t, i) && forall k | i < k < j :: !Fires(t, k)
    ensures LastFiring(t, j) == t[i]
  {
    if i + 1 == j {
    } else {
      LastFiringBetween(t, i, j - 1);
    }
  }

  /** Over any length of time and any number of wraps of the clock: two consecutive firings are at least the
    * interval apart, and less than the interval plus the longest pause between calls. */
  lemma FiringGaps(t: seq<nat>, d: nat, i: nat, j: nat)
    requires Schedule(t, d) && d + INTERVAL <= U32 && ConsecutiveFirings(t, i, j)
    ensures 5000 <= t[j] - t[i] < 5000 + d
  {
    LastFiringBetween(t, i, j);
    CallsAreExact(t, d, j);
  }

  /** Too long a pause is not just late: a call a whole turn of the clock after the last firing stays silent. */
  lemma SilentAfterLongPause() returns (t: seq<nat>)
    ensures t == [INTERVAL - 1, U32] && forall d: nat | U32 < d + INTERVAL :: Schedule(t, d)
    ensures !Exact(t, 1)
  {
    t := [INTERVAL - 1, U32];
    FiresModulo(t, 0);
    FiresModulo(t, 1);
    assert LastFiring(t, 1) == 0;
  }

  /** So calls no more than `d` apart are exact for ever exactly if d + interval fits the clock. */
  lemma ExactForeverIff(d: nat)
    ensures (forall t: seq<nat>, i: nat | Schedule(t, d) && i < |t| :: Exact(t, i)) <==> d + 5000 <= 0x1_0000_0000
  {
    if d + INTERVAL <= U32 {
      forall t: seq<nat>, i: nat | Schedule(t, d) && i < |t|
        ensures Exact(t, i)
      {
        CallsAreExact(t, d, i);
      }
    } else {
      var t := SilentAfterLongPause();
      assert Schedule(t, d) && !Exact(t, 1);
    }
  }
}
