/** The reconnect loop: doubling, capped waits in 64-bit arithmetic. Durations are nanoseconds. */
module Backoff {
  import opened Common

  const TWO62 := 0x4000_0000_0000_0000
  const TWO63 := 0x8000_0000_0000_0000
  const TWO64 := 0x1_0000_0000_0000_0000

  /** Two's complement: what an int64 holds after an addition or a multiplication. */
  function Wrap64(x: int): (r: int)
    ensures Fits(r) && (Fits(x) ==> r == x)
  {
    (x + TWO63) % TWO64 - TWO63
  }

  predicate Fits(x: int) {
    -TWO63 <= x < TWO63
  }

  /** The k-th wait, as the loop computes it. */
  function Delay(d0: int, cap: int, k: nat): int {
    if k == 0 then d0
    else
      var doubled := Wrap64(Delay(d0, cap, k - 1) * 2);
      if doubled > cap then cap else doubled
  }

  function Pow2(k: nat): nat {
    if k == 0 then 1 else 2 * Pow2(k - 1)
  }

  /** No doubling before the k-th wait left the 64-bit range. */
  ghost predicate NoOverflowBefore(d0: int, cap: int, k: nat) {
    forall j :: 0 <= j < k ==> Fits(Delay(d0, cap, j) * 2)
  }

  lemma TimesTwice(a: int, b: int)
    ensures a * (2 * b) == a * b * 2
  {
  }

  lemma {:induction false} CappedDoubling(d0: nat, cap: nat, k: nat)
    requires NoOverflowBefore(d0, cap, k)
    ensures Delay(d0, cap, k) == if k == 0 then d0 else Min(d0 * Pow2(k), cap)
  {
    hide Wrap64;
    if k > 0 {
      CappedDoubling(d0, cap, k - 1);
      assert Fits(Delay(d0, cap, k - 1) * 2);
      TimesTwice(d0, Pow2(k - 1));
    }
  }

  lemma {:induction false} SmallDelaysFit(d0: nat, cap: nat, k: nat)
    requires d0 < TWO62 && cap < TWO62
    ensures NoOverflowBefore(d0, cap, k + 1) && 0 <= Delay(d0, cap, k)
  {
    hide Wrap64;
    if k > 0 {
      SmallDelaysFit(d0, cap, k - 1);
      assert Fits(Delay(d0, cap, k - 1) * 2);
    }
  }

  lemma {:induction false} ZeroStaysZero(cap: nat, k: nat)
    ensures Delay(0, cap, k) == 0
  {
    if k > 0 {
      ZeroStaysZero(cap, k - 1);
    }
  }

  lemma {:induction false} Pow2Outgrows(k: nat)
    ensures Pow2(k) > k
  {
    if k > 0 {
      Pow2Outgrows(k - 1);
    }
  }

  /** Settings the loop's 64-bit arithmetic is safe for. */
  predicate Safe(d0: int, cap: int) {
    (d0 == 0 && cap >= 0) || (0 <= d0 < TWO62 && 0 <= cap < TWO62)
  }

  /** Closed form, for all settings that do not overflow: the first wait is d0, the k-th is min(d0 * 2^k, cap). */
  lemma DelayClosedForm(d0: int, cap: int, k: nat)
    requires Safe(d0, cap)
    ensures Delay(d0, cap, k) == if k == 0 then d0 else Min(d0 * Pow2(k), cap)
  {
    if d0 == 0 {
      ZeroStaysZero(cap, k);
      assert 0 * Pow2(k) == 0;
    } else {
      SmallDelaysFit(d0, cap, k);
      CappedDoubling(d0, cap, k);
    }
  }

  /** For all settings, negative ones included: the doubling never overflows exactly when both are non-negative, and the
      first wait is 0 or both are below 2^62. */
  lemma OverflowFreeExactlyWhen(d0: int, cap: int)
    ensures (forall k: nat :: Fits(Delay(d0, cap, k) * 2)) <==> Safe(d0, cap)
  {
    if Safe(d0, cap) {
      forall k: nat
        ensures Fits(Delay(d0, cap, k) * 2)
      {
        if d0 == 0 {
          ZeroStaysZero(cap, k);
        } else {
          SmallDelaysFit(d0, cap, k);
        }
      }
    } else if d0 < 0 {
      NegativeOverflows(d0, cap, 0, TWO62 + 1);
    } else if d0 >= TWO62 {
      assert !Fits(Delay(d0, cap, 0) * 2);
    } else if cap < 0 {
      assert Fits(Delay(d0, cap, 0) * 2);
      NegativeOverflows(d0, cap, 1, TWO62 + 1);
    } else {
      LargeCapOverflows(d0, cap, TWO62);
    }
  }

  lemma LargeCapOverflows(d0: nat, cap: nat, k: nat)
    requires d0 > 0 && cap >= TWO62 && k >= TWO62
    ensures exists j: nat :: !Fits(Delay(d0, cap, j) * 2)
  {
    if NoOverflowBefore(d0, cap, k) {
      CappedDoubling(d0, cap, k);
      Pow2Outgrows(k);
      TimesAtLeast(d0, Pow2(k));
      assert !Fits(Delay(d0, cap, k) * 2);
    }
  }

  /** Once a wait is negative, the waits fall at least as fast as powers of two grow. */
  lemma {:induction false} NegativeSinks(d0: int, cap: int, j: nat, k: nat)
    requires NoOverflowBefore(d0, cap, j + k) && Delay(d0, cap, j) < 0
    ensures Delay(d0, cap, j + k) + Pow2(k) <= 0
  {
    hide Wrap64;
    if k > 0 {
      NegativeSinks(d0, cap, j, k - 1);
      assert Fits(Delay(d0, cap, j + k - 1) * 2);
    }
  }

  lemma NegativeOverflows(d0: int, cap: int, j: nat, k: nat)
    requires Delay(d0, cap, j) < 0 && k > TWO62
    ensures exists i: nat :: !Fits(Delay(d0, cap, i) * 2)
  {
    if NoOverflowBefore(d0, cap, j + k) {
      NegativeSinks(d0, cap, j, k);
      Pow2Outgrows(k);
      assert !Fits(Delay(d0, cap, j + k) * 2);
    }
  }

  lemma TimesAtLeast(a: nat, b: nat)
    requires a > 0
    ensures a * b >= b
  {
  }

  function Sum(ws: seq<int>): int {
    if ws == [] then 0 else Sum(ws[..|ws| - 1]) + ws[|ws| - 1]
  }

  lemma OneMoreTime(n: int, cap: int)
    ensures n * cap == (n - 1) * cap + cap
  {
  }

  /** n waits last at most d0 + (n - 1) * cap. */
  lemma {:induction false} TotalWait(d0: int, cap: int, ws: seq<int>)
    requires ws != []
    requires forall k {:trigger ws[k]} :: 0 <= k < |ws| ==> ws[k] == Delay(d0, cap, k)
    ensures Sum(ws) <= d0 + (|ws| - 1) * cap
  {
    hide Wrap64;
    var n := |ws| - 1;
    if n == 0 {
      assert ws[..0] == [];
    } else {
      TotalWait(d0, cap, ws[..n]);
      assert ws[n] <= cap;
      OneMoreTime(n, cap);
    }
  }

  /** What happens when a wait is over, or before it is. */
  datatype Outcome = Connected | Failed | Cancelled

  datatype Result = Reconnected | GaveUp | Stopped | StillTrying

  /** The reconnect loop run against a script of outcomes. A limit of 0 or less means no limit here; the caller never
      starts the loop with a limit of 0. */
  method Reconnect(reconnectDelay: int, maxReconnectDelay: int, reconnectAttempts: int, outcomes: seq<Outcome>)
    returns (r: Result, waits: seq<int>)
    ensures |waits| <= |outcomes| && (reconnectAttempts > 0 ==> |waits| <= reconnectAttempts)
    ensures forall k {:trigger waits[k]} :: 0 <= k < |waits| ==> waits[k] == Delay(reconnectDelay, maxReconnectDelay, k)
    ensures forall k :: 0 <= k < |waits| - 1 ==> outcomes[k] == Failed
    ensures r == Reconnected ==> waits != [] && outcomes[|waits| - 1] == Connected
    ensures r != Reconnected && waits != [] ==> outcomes[|waits| - 1] == Failed
    ensures r == Stopped ==> |waits| < |outcomes| && outcomes[|waits|] == Cancelled
    ensures r == GaveUp ==> |waits| == reconnectAttempts > 0
    ensures r == StillTrying ==> |waits| == |outcomes|
    ensures r == StillTrying || r == Stopped ==> reconnectAttempts <= 0 || |waits| < reconnectAttempts
  {
    var delay := reconnectDelay;
    var attempts := 0;
    waits := [];
    while reconnectAttempts <= 0 || attempts < reconnectAttempts
      invariant attempts == |waits| <= |outcomes| && (reconnectAttempts > 0 ==> attempts <= reconnectAttempts)
      invariant delay == Delay(reconnectDelay, maxReconnectDelay, attempts)
      invariant forall k {:trigger waits[k]} :: 0 <= k < |waits| ==>
                  waits[k] == Delay(reconnectDelay, maxReconnectDelay, k)
      invariant forall k :: 0 <= k < |waits| ==> outcomes[k] == Failed
      decreases |outcomes| - attempts
    {
      if attempts == |outcomes| {
        return StillTrying, waits;
      }
      if outcomes[attempts] == Cancelled {
        return Stopped, waits;
      }
      waits := waits + [delay];
      if outcomes[attempts] == Connected {
        return Reconnected, waits;
      }
      attempts := attempts + 1;
      delay := Wrap64(delay * 2);
      if delay > maxReconnectDelay {
        delay := maxReconnectDelay;
      }
    }
    r := GaveUp;
  }
}
