/** Who creates an incarnation, and what is left of a check: the supervisors' and the node's side of the interleavings,
    told from the run. */
module Births {
  import Subscriptions
  import opened Incarnations

  /** The step creates incarnation i: a spawn on a running node, or a granted restart of the next child of a check. The
      new scope hangs below `parent`. */
  ghost predicate Bears(s: State, a: Action, i: nat, id: Subscriptions.Pid, capacity: nat, parent: nat) {
    && i == |s.incs|
    && (|| (a == Spawn(id, capacity) && s.scopes != [] && !s.scopes[0].cancelled && parent == 0)
        || (a == Restart(parent, true) && capacity == 100
            && parent in s.checking && s.checking[parent] != [] && s.checking[parent][0] == id))
  }

  ghost predicate Born(s: State, actions: seq<Action>, i: nat, id: Subscriptions.Pid, capacity: nat, parent: nat)
    requires Closed(s)
    decreases actions
  {
    && actions != [] && Enabled(s, actions[0]) && Closed(Apply(s, actions[0]))
    && (|| Bears(s, actions[0], i, id, capacity, parent)
        || Born(Apply(s, actions[0]), actions[1..], i, id, capacity, parent))
  }

  /** Incarnation i has this identifier and capacity, and a scope below that of `parent`. */
  ghost predicate Is(s: State, i: nat, id: Subscriptions.Pid, capacity: nat, parent: nat) {
    && i < |s.incs| && s.incs[i].id == id && s.incs[i].capacity == capacity
    && s.incs[i].scope < |s.scopes| && s.scopes[s.incs[i].scope].parent == parent
  }

  lemma SpawnBears(s: State, a: Action, i: nat, id: Subscriptions.Pid, capacity: nat, parent: nat)
    requires Closed(s) && Enabled(s, a) && (a.Spawn? || a.Restart?)
    ensures Is(Apply(s, a), i, id, capacity, parent)
            <==> Is(s, i, id, capacity, parent) || Bears(s, a, i, id, capacity, parent)
  {
    hide Done;
  }

  lemma OthersBearNone(s: State, a: Action, i: nat, id: Subscriptions.Pid, capacity: nat, parent: nat)
    requires Closed(s) && Enabled(s, a) && !a.Spawn? && !a.Restart?
    ensures Is(Apply(s, a), i, id, capacity, parent) <==> Is(s, i, id, capacity, parent)
  {
    hide Done, Rooted;
  }

  lemma BirthStep(s: State, a: Action, i: nat, id: Subscriptions.Pid, capacity: nat, parent: nat)
    requires Closed(s) && Enabled(s, a)
    ensures Is(Apply(s, a), i, id, capacity, parent)
            <==> Is(s, i, id, capacity, parent) || Bears(s, a, i, id, capacity, parent)
  {
    hide Apply, Enabled, Closed, Is;
    if a.Spawn? || a.Restart? {
      SpawnBears(s, a, i, id, capacity, parent);
    } else {
      OthersBearNone(s, a, i, id, capacity, parent);
    }
  }

  /** Over every run an incarnation has this identifier, capacity and parent exactly if some spawn or restart made it
      so: none of them ever changes. */
  lemma {:induction false} BornAsItIs(s: State, actions: seq<Action>, t: State, i: nat, id: Subscriptions.Pid,
                                      capacity: nat, parent: nat)
    requires Closed(s) && Leads(s, actions, t)
    ensures Is(t, i, id, capacity, parent)
            <==> Is(s, i, id, capacity, parent) || Born(s, actions, i, id, capacity, parent)
    decreases actions
  {
    hide Apply, Closed, Is, Bears, Enabled;
    if actions != [] {
      BirthStep(s, actions[0], i, id, capacity, parent);
      BornAsItIs(Apply(s, actions[0]), actions[1..], t, i, id, capacity, parent);
    }
  }

  // ----- What is left of a check

  function RestartsOf(actions: seq<Action>, k: nat): nat {
    if actions == [] then 0
    else (if actions[0].Restart? && actions[0].sup == k then 1 else 0) + RestartsOf(actions[1..], k)
  }

  predicate StillOn(actions: seq<Action>, k: nat) {
    forall a :: a in actions ==> a != CheckEnd(k)
  }

  /** Of these targets, the ones after the restarts attempted since are left, and the check was not ended. */
  ghost predicate LeftOver(targets: seq<Subscriptions.Pid>, since: seq<Action>, k: nat, left: seq<Subscriptions.Pid>) {
    StillOn(since, k) && RestartsOf(since, k) <= |targets| && left == targets[RestartsOf(since, k)..]
  }

  ghost predicate UnderWay(actions: seq<Action>, k: nat, left: seq<Subscriptions.Pid>) {
    exists j, targets :: 0 <= j < |actions| && actions[j] == CheckBegin(k, targets)
                         && LeftOver(targets, actions[j + 1..], k, left)
  }

  lemma UnderWayStep(a: Action, rest: seq<Action>, k: nat, left: seq<Subscriptions.Pid>)
    ensures UnderWay([a] + rest, k, left)
            <==> UnderWay(rest, k, left) || (a.CheckBegin? && a.sup == k && LeftOver(a.targets, rest, k, left))
  {
    hide LeftOver;
    var actions := [a] + rest;
    assert actions[1..] == rest;
    if UnderWay(actions, k, left) {
      var j, targets :| 0 <= j < |actions| && actions[j] == CheckBegin(k, targets)
                        && LeftOver(targets, actions[j + 1..], k, left);
      if j > 0 {
        assert rest[j - 1] == CheckBegin(k, targets) && rest[j..] == actions[j + 1..];
      }
    }
    if UnderWay(rest, k, left) {
      var j, targets :| 0 <= j < |rest| && rest[j] == CheckBegin(k, targets)
                        && LeftOver(targets, rest[j + 1..], k, left);
      assert actions[j + 1] == CheckBegin(k, targets) && actions[j + 2..] == rest[j + 1..];
    }
    if a.CheckBegin? && a.sup == k && LeftOver(a.targets, rest, k, left) {
      assert actions[0] == CheckBegin(k, a.targets);
    }
  }

  lemma LeftOverStep(targets: seq<Subscriptions.Pid>, a: Action, rest: seq<Action>, k: nat,
                     left: seq<Subscriptions.Pid>)
    ensures LeftOver(targets, [a] + rest, k, left)
            <==> if a == CheckEnd(k) then false
                 else if a.Restart? && a.sup == k then targets != [] && LeftOver(targets[1..], rest, k, left)
                 else LeftOver(targets, rest, k, left)
  {
    var actions := [a] + rest;
    assert actions[1..] == rest;
    assert StillOn(actions, k) <==> a != CheckEnd(k) && StillOn(rest, k) by {
      assert a in actions && forall x :: x in rest ==> x in actions;
    }
    assert RestartsOf(actions, k) == (if a.Restart? && a.sup == k then 1 else 0) + RestartsOf(rest, k);
    hide StillOn;
    if a.Restart? && a.sup == k && targets != [] && RestartsOf(rest, k) + 1 <= |targets| {
      assert targets[1..][RestartsOf(rest, k)..] == targets[RestartsOf(rest, k) + 1..];
    }
  }

  lemma CheckingStep(s: State, a: Action, k: nat)
    requires Closed(s) && Enabled(s, a)
    ensures var t := Apply(s, a);
      if a.CheckBegin? && a.sup == k then k !in s.checking && k in t.checking && t.checking[k] == a.targets
      else if a == CheckEnd(k) then k !in t.checking
      else if a.Restart? && a.sup == k then
        k in s.checking && k in t.checking && s.checking[k] != [] && t.checking[k] == s.checking[k][1..]
      else (k in t.checking <==> k in s.checking) && (k in s.checking ==> t.checking[k] == s.checking[k])
  {
    hide Done, Rooted;
  }

  /** Over every run a check is under way, with these children left, exactly if it was begun and not ended, and these
      are its targets without the ones already attempted, in order. */
  lemma {:induction false} CheckOverRun(s: State, actions: seq<Action>, t: State, k: nat, left: seq<Subscriptions.Pid>)
    requires Closed(s) && Leads(s, actions, t)
    ensures k in t.checking && t.checking[k] == left
            <==> UnderWay(actions, k, left) || (k in s.checking && LeftOver(s.checking[k], actions, k, left))
    decreases actions
  {
    hide Apply, Closed, Enabled, UnderWay, LeftOver;
    if actions == [] {
      NoneUnderWay(k, left);
      if k in s.checking {
        NothingAttempted(s.checking[k], k, left);
      }
    } else {
      var a, rest := actions[0], actions[1..];
      assert actions == [a] + rest;
      CheckingStep(s, a, k);
      CheckOverRun(Apply(s, a), rest, t, k, left);
      UnderWayStep(a, rest, k, left);
      if k in s.checking {
        LeftOverStep(s.checking[k], a, rest, k, left);
      }
    }
  }

  lemma NoneUnderWay(k: nat, left: seq<Subscriptions.Pid>)
    ensures !UnderWay([], k, left)
  {
  }

  lemma NothingAttempted(targets: seq<Subscriptions.Pid>, k: nat, left: seq<Subscriptions.Pid>)
    ensures LeftOver(targets, [], k, left) <==> left == targets
  {
  }
}
