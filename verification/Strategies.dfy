/** Which children a supervisor restarts on one check, and what the check does to their trackers. */
module Strategies {
  import opened Common
  import opened RestartIntensity
  import opened Subscriptions

  datatype Strategy = OneForOne | OneForAll | RestForOne

  type Trackers = map<Pid, Tracker>

  function Get(ts: Trackers, id: Pid): Option<Tracker> {
    if id in ts then Some(ts[id]) else None
  }

  /** The children missing from the registry, in specification order. */
  function Dead(ids: seq<Pid>, alive: set<Pid>): seq<Pid> {
    if ids == [] then []
    else
      var n := |ids| - 1;
      Dead(ids[..n], alive) + (if ids[n] in alive then [] else [ids[n]])
  }

  /** Position of the first child that is missing, or |ids|. */
  function FirstDead(ids: seq<Pid>, alive: set<Pid>): (i: nat)
    ensures i <= |ids|
    ensures forall j :: 0 <= j < i ==> ids[j] in alive
    ensures i < |ids| ==> ids[i] !in alive
  {
    if ids == [] || ids[0] !in alive then 0 else 1 + FirstDead(ids[1..], alive)
  }

  /** The children to restart, in order. */
  function Targets(s: Strategy, ids: seq<Pid>, alive: set<Pid>): seq<Pid> {
    match s
    case OneForOne => Dead(ids, alive)
    case OneForAll => if FirstDead(ids, alive) < |ids| then ids else []
    case RestForOne => ids[FirstDead(ids, alive)..]
  }

  lemma {:induction false} DeadAreTheMissing(ids: seq<Pid>, alive: set<Pid>)
    ensures forall id :: id in Dead(ids, alive) <==> id in ids && id !in alive
    ensures |Dead(ids, alive)| <= |ids|
  {
    if ids != [] {
      var n := |ids| - 1;
      DeadAreTheMissing(ids[..n], alive);
      assert ids == ids[..n] + [ids[n]];
    }
  }

  lemma {:induction false} DeadAreDistinct(ids: seq<Pid>, alive: set<Pid>)
    requires Distinct(ids)
    ensures Distinct(Dead(ids, alive))
  {
    if ids != [] {
      var n := |ids| - 1;
      DeadAreDistinct(ids[..n], alive);
      DeadAreTheMissing(ids[..n], alive);
      assert ids[n] !in ids[..n];
    }
  }

  /** What each strategy means: the dead children; all of them once one is dead; the first dead one and
      everything specified after it. */
  ghost predicate IsTarget(s: Strategy, ids: seq<Pid>, alive: set<Pid>, id: Pid) {
    match s
    case OneForOne => id in ids && id !in alive
    case OneForAll => id in ids && exists d :: d in ids && d !in alive
    case RestForOne => exists i, j :: 0 <= i <= j < |ids| && ids[i] !in alive && ids[j] == id
  }

  lemma SuffixFromFirstDead(ids: seq<Pid>, alive: set<Pid>, id: Pid)
    ensures id in ids[FirstDead(ids, alive)..] <==> IsTarget(RestForOne, ids, alive, id)
  {
    var f := FirstDead(ids, alive);
    if id in ids[f..] {
      var k :| 0 <= k < |ids[f..]| && ids[f..][k] == id;
      assert ids[f] !in alive && ids[f + k] == id;
    }
    if IsTarget(RestForOne, ids, alive, id) {
      var i, j :| 0 <= i <= j < |ids| && ids[i] !in alive && ids[j] == id;
      assert ids[f..][j - f] == id;
    }
  }

  lemma TargetsMeaning(s: Strategy, ids: seq<Pid>, alive: set<Pid>, id: Pid)
    ensures id in Targets(s, ids, alive) <==> IsTarget(s, ids, alive, id)
  {
    hide Dead;
    match s
    case OneForOne => DeadAreTheMissing(ids, alive);
    case OneForAll =>
    case RestForOne => SuffixFromFirstDead(ids, alive, id);
  }

  /** Distinct children give distinct targets, and under every strategy a dead child is a target. */
  lemma EveryDeadChildIsATarget(s: Strategy, ids: seq<Pid>, alive: set<Pid>)
    ensures Distinct(ids) ==> Distinct(Targets(s, ids, alive))
    ensures forall id :: id in ids && id !in alive ==> id in Targets(s, ids, alive)
  {
    if Distinct(ids) {
      DeadAreDistinct(ids, alive);
    }
    forall id | id in ids && id !in alive
      ensures id in Targets(s, ids, alive)
    {
      var k :| 0 <= k < |ids| && ids[k] == id;
      TargetsMeaning(s, ids, alive, id);
    }
    hide Dead;
  }

  /** Only children are targets, and there is one only if a child is dead. */
  lemma TargetsAreChildren(s: Strategy, ids: seq<Pid>, alive: set<Pid>)
    ensures |Targets(s, ids, alive)| <= |ids|
    ensures forall id :: id in Targets(s, ids, alive) ==> id in ids
    ensures Dead(ids, alive) == [] ==> Targets(s, ids, alive) == []
  {
    DeadAreTheMissing(ids, alive);
    var f := FirstDead(ids, alive);
    assert f < |ids| ==> ids[f] in Dead(ids, alive);
    assert forall id :: id in ids[f..] ==> id in ids;
    hide Dead, FirstDead;
  }

  lemma {:induction false} DeadInOrder(ids: seq<Pid>, alive: set<Pid>) returns (at: seq<nat>)
    ensures |at| == |Dead(ids, alive)| && Increasing(at)
    ensures forall k :: 0 <= k < |at| ==> at[k] < |ids| && Dead(ids, alive)[k] == ids[at[k]]
  {
    if ids == [] {
      at := [];
    } else {
      var n: nat := |ids| - 1;
      at := DeadInOrder(ids[..n], alive);
      assert Dead(ids, alive) == Dead(ids[..n], alive) + (if ids[n] in alive then [] else [ids[n]]);
      hide Dead, Increasing;
      if ids[n] !in alive {
        IncreasingSnoc(at, n);
        at := at + [n];
      }
    }
  }

  /** Under every strategy the attempts follow the order of the specifications: `at` gives their positions. */
  lemma TargetsInOrder(s: Strategy, ids: seq<Pid>, alive: set<Pid>) returns (at: seq<nat>)
    ensures |at| == |Targets(s, ids, alive)| && Increasing(at)
    ensures forall k :: 0 <= k < |at| ==> at[k] < |ids| && Targets(s, ids, alive)[k] == ids[at[k]]
  {
    if s == OneForOne {
      at := DeadInOrder(ids, alive);
    } else {
      var targets := Targets(s, ids, alive);
      at := seq(|targets|, (k: nat) => |ids| - |targets| + k);
    }
    hide Dead;
  }

  // ----- One check, as a sweep over its targets; the k-th attempt reads the clock as times[k]

  function Swept(l: Limits, targets: seq<Pid>, times: seq<int>, ts: Trackers): Trackers
    requires |targets| <= |times|
  {
    if targets == [] then ts
    else
      var n := |targets| - 1;
      var before := Swept(l, targets[..n], times, ts);
      before[targets[n] := After(l, Get(before, targets[n]), times[n])]
  }

  function Replaced(l: Limits, targets: seq<Pid>, times: seq<int>, ts: Trackers): set<Pid>
    requires |targets| <= |times|
  {
    if targets == [] then {}
    else
      var n := |targets| - 1;
      var before := Replaced(l, targets[..n], times, ts);
      if Grants(l, Get(Swept(l, targets[..n], times, ts), targets[n]), times[n]) then before + {targets[n]} else before
  }

  lemma SweepNothing(l: Limits, times: seq<int>, ts: Trackers)
    ensures Swept(l, [], times, ts) == ts && Replaced(l, [], times, ts) == {}
  {
  }

  /** The k-th attempt of the sweep. */
  lemma SweepStep(l: Limits, targets: seq<Pid>, times: seq<int>, ts: Trackers, k: nat)
    requires k < |targets| <= |times|
    ensures var before, id := Swept(l, targets[..k], times, ts), targets[k];
      && Swept(l, targets[..k + 1], times, ts) == before[id := After(l, Get(before, id), times[k])]
      && Replaced(l, targets[..k + 1], times, ts)
         == Replaced(l, targets[..k], times, ts) + (if Grants(l, Get(before, id), times[k]) then {id} else {})
  {
    assert targets[..k + 1][..k] == targets[..k];
  }

  lemma {:induction false} SweepTouchesTargetsOnly(l: Limits, targets: seq<Pid>, times: seq<int>, ts: Trackers)
    requires |targets| <= |times|
    ensures forall id :: id !in targets ==> Get(Swept(l, targets, times, ts), id) == Get(ts, id)
    ensures forall id :: id in Replaced(l, targets, times, ts) ==> id in targets
  {
    if targets != [] {
      var n := |targets| - 1;
      SweepTouchesTargetsOnly(l, targets[..n], times, ts);
      assert targets == targets[..n] + [targets[n]];
    }
  }

  /** For distinct children the check replaces exactly the targets with restart budget left now. */
  lemma {:induction false} ReplacedExactlyWithBudget(l: Limits, targets: seq<Pid>, times: seq<int>, ts: Trackers)
    requires |targets| <= |times| && Distinct(targets)
    ensures forall k :: 0 <= k < |targets| ==>
              && (targets[k] in Replaced(l, targets, times, ts) <==> Grants(l, Get(ts, targets[k]), times[k]))
              && Get(Swept(l, targets, times, ts), targets[k]) == Some(After(l, Get(ts, targets[k]), times[k]))
  {
    if targets != [] {
      var n := |targets| - 1;
      ReplacedExactlyWithBudget(l, targets[..n], times, ts);
      SweepTouchesTargetsOnly(l, targets[..n], times, ts);
      assert targets[n] !in targets[..n];
    }
  }

  /** The first attempt at a child in a sweep replaces it for good if there is budget. */
  lemma {:induction false} FirstAttemptReplaces(l: Limits, targets: seq<Pid>, times: seq<int>, ts: Trackers, k: nat)
    requires k < |targets| <= |times| && targets[k] !in targets[..k]
    requires Grants(l, Get(ts, targets[k]), times[k])
    ensures targets[k] in Replaced(l, targets, times, ts)
  {
    hide Grants;
    var n := |targets| - 1;
    if k < n {
      assert targets[..n][..k] == targets[..k];
      FirstAttemptReplaces(l, targets[..n], times, ts, k);
    } else {
      SweepTouchesTargetsOnly(l, targets[..n], times, ts);
    }
  }

  lemma {:induction false} FirstOccurrence(ids: seq<Pid>, id: Pid) returns (k: nat)
    requires id in ids
    ensures k < |ids| && ids[k] == id && id !in ids[..k]
  {
    var n := |ids| - 1;
    if id in ids[..n] {
      k := FirstOccurrence(ids[..n], id);
      assert ids[..n][..k] == ids[..k];
    } else {
      k := n;
    }
  }

  /** Under every strategy, a dead child whose last restart is more than a period ago (or that was never
      restarted) is revived by the next check. */
  lemma QuietDeadChildIsRevived(s: Strategy, l: Limits, ids: seq<Pid>, alive: set<Pid>, times: seq<int>,
                                ts: Trackers, hs: map<Pid, seq<int>>, id: Pid)
    requires |ids| <= |times| && id in ids && id !in alive
    requires id in ts ==> id in hs && Explains(l, hs[id], Some(ts[id]))
    requires id in ts ==> forall k :: 0 <= k < |times| ==> times[k] - hs[id][|hs[id]| - 1] > l.period
    ensures |Targets(s, ids, alive)| <= |ids|
    ensures id in Replaced(l, Targets(s, ids, alive), times, ts)
  {
    hide Targets, Replaced, Swept, Explains, Grants;
    EveryDeadChildIsATarget(s, ids, alive);
    TargetsAreChildren(s, ids, alive);
    var targets := Targets(s, ids, alive);
    var k := FirstOccurrence(targets, id);
    QuietChildIsGranted(l, if id in ts then hs[id] else [], Get(ts, id), times[k]);
    FirstAttemptReplaces(l, targets, times, ts, k);
  }
}
