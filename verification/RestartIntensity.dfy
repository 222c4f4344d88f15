/** The restart tracker a supervisor keeps for one child, and what it admits over a whole run.
    Times are integers; MaxRestarts <= 0 means "no limit", as in the supervisor's own test. */
module RestartIntensity {
  import opened Common

  datatype Tracker = Tracker(count: int, lastTime: int)

  datatype Limits = Limits(maxRestarts: int, period: int)

  /** The tracker after it has been created on demand and forgiven after a quiet period. */
  function Refreshed(l: Limits, t: Option<Tracker>, now: int): Tracker {
    var t := match t case None => Tracker(0, now) case Some(t) => t;
    if now - t.lastTime > l.period then Tracker(0, now) else t
  }

  predicate Grants(l: Limits, t: Option<Tracker>, now: int) {
    !(Refreshed(l, t, now).count >= l.maxRestarts && l.maxRestarts > 0)
  }

  function After(l: Limits, t: Option<Tracker>, now: int): Tracker {
    var r := Refreshed(l, t, now);
    if Grants(l, t, now) then Tracker(r.count + 1, now) else r
  }

  // ----- What a tracker knows about the restarts made so far

  /** The last `count` restarts follow each other with gaps of at most one period. */
  ghost predicate Chained(l: Limits, h: seq<int>, count: int)
    requires 0 <= count <= |h|
  {
    forall i, j :: |h| - count <= i < j < |h| && j == i + 1 ==> h[j] - h[i] <= l.period
  }

  /** Any maxRestarts + 1 consecutive restarts span more than one period. */
  ghost predicate SpacedOut(l: Limits, h: seq<int>) {
    l.maxRestarts > 0 ==>
      forall i, j :: 0 <= i < j < |h| && j == i + l.maxRestarts ==> h[j] - h[i] > l.period
  }

  /** `t` is the tracker of a child restarted exactly at the times `h`. */
  ghost predicate Explains(l: Limits, h: seq<int>, t: Option<Tracker>) {
    && Nondecreasing(h)
    && SpacedOut(l, h)
    && match t
       case None => h == []
       case Some(t) =>
         && 1 <= t.count <= |h|
         && t.lastTime == h[|h| - 1]
         && (l.maxRestarts > 0 ==> t.count <= l.maxRestarts)
         && Chained(l, h, t.count)
         && (t.count < |h| ==> h[|h| - t.count] - h[|h| - t.count - 1] > l.period)
  }

  /** Restart times after one more attempt. */
  function Restarts(l: Limits, t: Option<Tracker>, h: seq<int>, now: int): seq<int> {
    if Grants(l, t, now) then h + [now] else h
  }

  /** A granted restart opens or extends a chain, so maxRestarts steps back lies beyond a gap. */
  lemma GrantStaysSpaced(l: Limits, h: seq<int>, t: Option<Tracker>, now: int)
    requires Explains(l, h, t)
    requires h != [] ==> h[|h| - 1] <= now
    requires Grants(l, t, now)
    ensures SpacedOut(l, h + [now])
  {
  }

  lemma GrantStaysChained(l: Limits, h: seq<int>, t: Option<Tracker>, now: int)
    requires Explains(l, h, t)
    requires h != [] ==> h[|h| - 1] <= now
    requires Grants(l, t, now)
    ensures var c := After(l, t, now).count;
      && 1 <= c <= |h| + 1
      && Chained(l, h + [now], c)
      && (c < |h| + 1 ==> (h + [now])[|h| + 1 - c] - (h + [now])[|h| - c] > l.period)
  {
  }

  lemma AttemptKeepsExplaining(l: Limits, h: seq<int>, t: Option<Tracker>, now: int)
    requires Explains(l, h, t)
    requires h != [] ==> h[|h| - 1] <= now
    ensures Explains(l, Restarts(l, t, h, now), Some(After(l, t, now)))
  {
    hide SpacedOut, Chained;
    if Grants(l, t, now) {
      GrantStaysSpaced(l, h, t, now);
      GrantStaysChained(l, h, t, now);
    }
  }

  /** Refusal, exactly: the last maxRestarts restarts follow each other with gaps of at most one period,
      and the last of them is at most one period ago. */
  lemma RefusedExactlyWhen(l: Limits, h: seq<int>, t: Option<Tracker>, now: int)
    requires Explains(l, h, t)
    ensures !Grants(l, t, now) <==>
              && 0 < l.maxRestarts <= |h|
              && now - h[|h| - 1] <= l.period
              && Chained(l, h, l.maxRestarts)
  {
  }

  /** A child whose last restart is more than one period ago, or that was never restarted, is never refused. */
  lemma QuietChildIsGranted(l: Limits, h: seq<int>, t: Option<Tracker>, now: int)
    requires Explains(l, h, t)
    requires h == [] || now - h[|h| - 1] > l.period
    ensures Grants(l, t, now)
  {
  }

  // ----- Whole runs: attempts at arbitrary nondecreasing times

  function TrackerAfter(l: Limits, attempts: seq<int>): Option<Tracker> {
    if attempts == [] then None
    else Some(After(l, TrackerAfter(l, attempts[..|attempts| - 1]), attempts[|attempts| - 1]))
  }

  function RestartTimes(l: Limits, attempts: seq<int>): seq<int> {
    if attempts == [] then []
    else
      var before := attempts[..|attempts| - 1];
      Restarts(l, TrackerAfter(l, before), RestartTimes(l, before), attempts[|attempts| - 1])
  }

  lemma {:induction false} RunIsExplained(l: Limits, attempts: seq<int>)
    requires Nondecreasing(attempts)
    ensures Explains(l, RestartTimes(l, attempts), TrackerAfter(l, attempts))
    ensures forall r :: r in RestartTimes(l, attempts) ==> r in attempts
  {
    if attempts != [] {
      var before := attempts[..|attempts| - 1];
      RunIsExplained(l, before);
      var h := RestartTimes(l, before);
      assert h != [] ==> h[|h| - 1] in before;
      AttemptKeepsExplaining(l, h, TrackerAfter(l, before), attempts[|attempts| - 1]);
    }
  }

  // ----- The window bound

  /** How many entries of h lie in the closed interval [from, to]. */
  function CountWithin(h: seq<int>, from: int, to: int): nat {
    if h == [] then 0
    else CountWithin(h[..|h| - 1], from, to) + (if from <= h[|h| - 1] <= to then 1 else 0)
  }

  /** Periods needed to cover an interval of this length: max(1, ceil(length / period)). */
  function PeriodsCovering(length: nat, period: int): (k: int)
    requires period > 0
    ensures k >= 1 && k * period >= length
    ensures k > 1 ==> (k - 1) * period < length
  {
    if length <= period then 1 else (length + period - 1) / period
  }

  /** In a sorted history, the restarts inside an interval are consecutive. */
  lemma {:induction false} WindowIsConsecutive(h: seq<int>, from: int, to: int) returns (i: nat)
    requires Nondecreasing(h)
    ensures i + CountWithin(h, from, to) <= |h|
    ensures forall j :: i <= j < i + CountWithin(h, from, to) ==> from <= h[j] <= to
    ensures forall j :: i + CountWithin(h, from, to) <= j < |h| ==> h[j] > to || CountWithin(h, from, to) == 0
  {
    if h == [] {
      i := 0;
    } else {
      var n := |h| - 1;
      i := WindowIsConsecutive(h[..n], from, to);
      if from <= h[n] <= to && CountWithin(h[..n], from, to) == 0 {
        i := n;
      }
    }
  }

  /** maxRestarts * k consecutive restarts later, more than k periods have passed. */
  lemma {:induction false} StridesTakeTime(l: Limits, h: seq<int>, i: nat, k: nat)
    requires l.maxRestarts > 0 && SpacedOut(l, h) && k >= 1
    requires i + l.maxRestarts * k < |h|
    ensures h[i + l.maxRestarts * k] - h[i] > l.period * k
  {
    if k > 1 {
      assert l.maxRestarts * k == l.maxRestarts * (k - 1) + l.maxRestarts;
      StridesTakeTime(l, h, i, k - 1);
      var m := i + l.maxRestarts * (k - 1);
      assert h[m + l.maxRestarts] - h[m] > l.period;
    }
  }

  lemma WindowBound(l: Limits, h: seq<int>, from: int, length: nat)
    requires l.maxRestarts > 0 && l.period > 0
    requires Nondecreasing(h) && SpacedOut(l, h)
    ensures CountWithin(h, from, from + length) <= l.maxRestarts * PeriodsCovering(length, l.period)
  {
    var m, k := CountWithin(h, from, from + length), PeriodsCovering(length, l.period);
    if m > l.maxRestarts * k {
      var i := WindowIsConsecutive(h, from, from + length);
      assert from <= h[i] && h[i + l.maxRestarts * k] <= from + length;
      StridesTakeTime(l, h, i, k);
    }
  }

  /** Main result: over every run, a closed interval of any length L holds at most
      MaxRestarts * max(1, ceil(L / RestartPeriod)) restarts of one child. */
  lemma RestartIntensityBound(l: Limits, attempts: seq<int>, from: int, length: nat)
    requires l.maxRestarts > 0 && l.period > 0 && Nondecreasing(attempts)
    ensures CountWithin(RestartTimes(l, attempts), from, from + length)
            <= l.maxRestarts * PeriodsCovering(length, l.period)
  {
    RunIsExplained(l, attempts);
    WindowBound(l, RestartTimes(l, attempts), from, length);
  }

  /** Without a limit, every attempt restarts the child. */
  lemma {:induction false} UnlimitedRestartsAlways(l: Limits, attempts: seq<int>)
    requires l.maxRestarts <= 0
    ensures RestartTimes(l, attempts) == attempts
  {
    if attempts != [] {
      UnlimitedRestartsAlways(l, attempts[..|attempts| - 1]);
    }
  }

  // ----- Against a sliding window, which the documentation suggests ("maximum restarts within the period")

  /** A sliding window grants an attempt if fewer than maxRestarts restarts lie within the last period. */
  ghost predicate WindowGrants(l: Limits, h: seq<int>, now: int) {
    CountWithin(h, now - l.period, now) < l.maxRestarts
  }

  lemma {:induction false} NoneWithin(h: seq<int>, from: int, to: int)
    requires Nondecreasing(h) && (h != [] ==> h[|h| - 1] < from)
    ensures CountWithin(h, from, to) == 0
  {
    if h != [] {
      NoneWithin(h[..|h| - 1], from, to);
    }
  }

  /** In a sorted history up to `to`, an interval that ends there holds m restarts exactly if the m-th last is in it. */
  lemma {:induction false} CountFromTheEnd(h: seq<int>, from: int, to: int, m: nat)
    requires Nondecreasing(h) && (h != [] ==> h[|h| - 1] <= to) && m >= 1
    ensures CountWithin(h, from, to) >= m <==> m <= |h| && h[|h| - m] >= from
  {
    if h != [] {
      var n := |h| - 1;
      if h[n] < from {
        NoneWithin(h, from, to);
      } else if m > 1 {
        CountFromTheEnd(h[..n], from, to, m - 1);
      }
    }
  }

  /** For every history, whatever the code grants a sliding window grants as well. */
  lemma GrantedWithinWindow(l: Limits, h: seq<int>, t: Option<Tracker>, now: int)
    requires Explains(l, h, t) && (h != [] ==> h[|h| - 1] <= now)
    requires l.maxRestarts > 0 && Grants(l, t, now)
    ensures WindowGrants(l, h, now)
  {
    GrantStaysSpaced(l, h, t, now);
    CountFromTheEnd(h, now - l.period, now, l.maxRestarts);
    var h', n := h + [now], |h|;
    assert l.maxRestarts <= n ==> h'[n] - h'[n - l.maxRestarts] > l.period;
  }

  /** The two decisions agree exactly when the code grants the attempt or the maxRestarts-th last restart is at most one
      period old. */
  lemma AgreesWithWindowExactlyWhen(l: Limits, h: seq<int>, t: Option<Tracker>, now: int)
    requires Explains(l, h, t) && (h != [] ==> h[|h| - 1] <= now)
    requires l.maxRestarts > 0
    ensures (Grants(l, t, now) <==> WindowGrants(l, h, now))
            <==> Grants(l, t, now) || (l.maxRestarts <= |h| && h[|h| - l.maxRestarts] >= now - l.period)
  {
    if Grants(l, t, now) {
      GrantedWithinWindow(l, h, t, now);
    } else {
      CountFromTheEnd(h, now - l.period, now, l.maxRestarts);
    }
  }

  /** After this run of attempts the code and a sliding window decide alike at time `now`. */
  ghost predicate WindowAgrees(l: Limits, attempts: seq<int>, now: int) {
    Nondecreasing(attempts) && (attempts != [] ==> attempts[|attempts| - 1] <= now) ==>
      (Grants(l, TrackerAfter(l, attempts), now) <==> WindowGrants(l, RestartTimes(l, attempts), now))
  }

  /** Before the budget is used up every attempt is a restart. */
  lemma {:induction false} FirstAttemptsRestart(l: Limits, attempts: seq<int>)
    requires Nondecreasing(attempts) && |attempts| <= l.maxRestarts
    ensures RestartTimes(l, attempts) == attempts
  {
    hide Chained, SpacedOut;
    if attempts != [] {
      var before := attempts[..|attempts| - 1];
      FirstAttemptsRestart(l, before);
      RunIsExplained(l, before);
    }
  }

  /** One restart, then the rest of the budget a period later: one tick on, the first is out of the window and the code
      still refuses. */
  lemma WindowDisagrees(l: Limits) returns (attempts: seq<int>)
    requires l.maxRestarts > 1 && l.period > 0
    ensures !WindowAgrees(l, attempts, l.period + 1)
  {
    var m := l.maxRestarts;
    attempts := seq(m, i requires 0 <= i < m => if i == 0 then 0 else l.period);
    FirstAttemptsRestart(l, attempts);
    RunIsExplained(l, attempts);
    RefusedExactlyWhen(l, attempts, TrackerAfter(l, attempts), l.period + 1);
    AgreesWithWindowExactlyWhen(l, attempts, TrackerAfter(l, attempts), l.period + 1);
  }

  /** Over all runs the code is a sliding window exactly if a single restart is allowed or the period is not positive.
      */
  lemma IsSlidingWindowExactlyWhen(l: Limits)
    requires l.maxRestarts > 0
    ensures (forall attempts, now :: WindowAgrees(l, attempts, now)) <==> l.maxRestarts == 1 || l.period <= 0
  {
    if l.maxRestarts == 1 || l.period <= 0 {
      forall attempts, now | Nondecreasing(attempts) && (attempts != [] ==> attempts[|attempts| - 1] <= now)
        ensures WindowAgrees(l, attempts, now)
      {
        var h, t := RestartTimes(l, attempts), TrackerAfter(l, attempts);
        RunIsExplained(l, attempts);
        LastRestartIsPast(l, attempts, now);
        RefusedExactlyWhen(l, h, t, now);
        AgreesWithWindowExactlyWhen(l, h, t, now);
        if !Grants(l, t, now) && l.maxRestarts > 1 {
          ChainOfNoGaps(l, h, l.maxRestarts);
        }
      }
    } else {
      var attempts := WindowDisagrees(l);
    }
  }

  lemma LastRestartIsPast(l: Limits, attempts: seq<int>, now: int)
    requires Nondecreasing(attempts) && (attempts != [] ==> attempts[|attempts| - 1] <= now)
    ensures var h := RestartTimes(l, attempts); h != [] ==> h[|h| - 1] <= now
  {
    RunIsExplained(l, attempts);
    var h := RestartTimes(l, attempts);
    assert h != [] ==> h[|h| - 1] in attempts;
  }

  /** Without gaps the restarts of a chain all happen at once. */
  lemma {:induction false} ChainOfNoGaps(l: Limits, h: seq<int>, count: nat)
    requires Nondecreasing(h) && 1 <= count <= |h| && Chained(l, h, count) && l.period <= 0
    ensures h[|h| - count] == h[|h| - 1]
  {
    if count > 1 {
      ChainOfNoGaps(l, h, count - 1);
      assert h[|h| - count + 1] - h[|h| - count] <= l.period;
    }
  }

  /** A run on which they differ: with a limit of 3 per 10 ticks, the attempt at 25 is refused although the window
      [15, 25] holds a single restart. */
  lemma StricterThanSlidingWindow()
    ensures var l := Limits(3, 10);
            && RestartTimes(l, [0, 10, 20, 25]) == [0, 10, 20]
            && CountWithin(RestartTimes(l, [0, 10, 20]), 15, 25) == 1
  {
    var l := Limits(3, 10);
    var a := [0, 10, 20, 25];
    assert a[..3] == [0, 10, 20] && a[..3][..2] == [0, 10] && a[..3][..2][..1] == [0];
    assert TrackerAfter(l, [0]) == Some(Tracker(1, 0)) by { assert [0][..0] == []; }
    assert RestartTimes(l, [0]) == [0] by { assert [0][..0] == []; }
    assert TrackerAfter(l, [0, 10]) == Some(Tracker(2, 10)) by { assert [0, 10][..1] == [0]; }
    assert RestartTimes(l, [0, 10]) == [0, 10] by { assert [0, 10][..1] == [0]; }
    assert TrackerAfter(l, [0, 10, 20]) == Some(Tracker(3, 20)) by { assert [0, 10, 20][..2] == [0, 10]; }
    assert RestartTimes(l, [0, 10, 20]) == [0, 10, 20] by { assert [0, 10, 20][..2] == [0, 10]; }
    assert RestartTimes(l, a) == [0, 10, 20];
    assert CountWithin([0, 10, 20], 15, 25) == 1 by {
      assert [0, 10, 20][..2] == [0, 10] && [0, 10][..1] == [0] && [0][..0] == [];
      assert CountWithin([0], 15, 25) == 0;
    }
  }
}
