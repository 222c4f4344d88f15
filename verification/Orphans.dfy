/** Which incarnations of a node's processes still run: the registered ones and, where a spawn re-used the identifier
    of a registered process, the one it overwrote. */
module Orphans {
  import Subscriptions
  import opened Incarnations

  /** Supervisors' scopes hang below the node's and are never cancelled themselves; every incarnation has a scope of its
      own, with nothing below it, under the node's or a supervisor's. */
  ghost predicate Shape(s: State) {
    && Closed(s)
    && (forall k :: k in s.supervisors ==> s.scopes[k].parent == 0 && !s.scopes[k].cancelled)
    && (forall i :: 0 <= i < |s.incs| ==> OwnScope(s, s.incs[i].scope))
    && (forall i, j :: 0 <= i < j < |s.incs| ==> s.incs[i].scope != s.incs[j].scope)
  }

  ghost predicate OwnScope(s: State, c: nat) {
    0 < c < |s.scopes| && c !in s.supervisors && (s.scopes[c].parent == 0 || s.scopes[c].parent in s.supervisors)
  }

  /** The incarnation's own scope was cancelled by a Kill, a restart or Stop. */
  ghost predicate Evicted(s: State, i: nat)
    requires i < |s.incs| && s.incs[i].scope < |s.scopes|
  {
    s.scopes[s.incs[i].scope].cancelled
  }

  ghost predicate IsRegistered(s: State, i: nat)
    requires i < |s.incs|
  {
    s.incs[i].id in s.registry && s.registry[s.incs[i].id] == i
  }

  /** Every registered process is alive, under its own identifier, and not evicted. */
  ghost predicate RegisteredRun(s: State)
    requires Closed(s)
  {
    Registered(s) && forall id :: id in s.registry ==> !Evicted(s, s.registry[id])
  }

  /** Until Stop an incarnation runs exactly as long as it was not evicted; after it, none does. */
  lemma RunsUnlessEvicted(s: State, i: nat)
    requires Shape(s) && i < |s.incs|
    ensures Done(s.scopes, s.incs[i].scope) <==> Evicted(s, i) || s.scopes[0].cancelled
  {
    assert OwnScope(s, s.incs[i].scope);
    assert Done(s.scopes, 0) <==> s.scopes[0].cancelled;
    assert Done(s.scopes, s.scopes[s.incs[i].scope].parent) <==> s.scopes[0].cancelled;
  }

  // ----- Steps keep the shape

  /** Mailbox traffic. */
  predicate IsTraffic(a: Action) {
    a.Lookup? || a.CheckAlive? || a.Event? || a.Push? || a.Take? || a.Finish? || a.Exit?
  }

  lemma TrafficFrame(s: State, a: Action)
    requires Closed(s) && Enabled(s, a) && IsTraffic(a)
    ensures var t := Apply(s, a);
      && t.registry == s.registry && t.scopes == s.scopes && t.supervisors == s.supervisors && |t.incs| == |s.incs|
      && forall i :: 0 <= i < |s.incs| ==> t.incs[i].scope == s.incs[i].scope && t.incs[i].id == s.incs[i].id
  {
    hide Apply, Enabled, Closed;
    MailboxStepFrame(s, a, 0);
    forall i | 0 <= i < |s.incs| {
      MailboxStepFrame(s, a, i);
    }
  }

  lemma CancelKeepsShape(s: State, cs: set<nat>)
    requires Shape(s) && forall k :: k in s.supervisors ==> k !in cs
    ensures Shape(s.(scopes := Cancel(s.scopes, cs)))
  {
    CancelKeepsClosed(s, cs);
    hide Closed;
  }

  lemma RegisterKeepsShape(s: State, id: Subscriptions.Pid, capacity: nat, parent: nat)
    requires Shape(s) && (parent == 0 || parent in s.supervisors)
    ensures Shape(Register(s, id, capacity, parent))
  {
    RegisterKeepsClosed(s, id, capacity, parent);
    hide Rooted;
  }

  lemma TrafficKeepsShape(s: State, a: Action)
    requires Shape(s) && Enabled(s, a) && IsTraffic(a) && Closed(Apply(s, a))
    ensures Shape(Apply(s, a))
  {
    TrafficFrame(s, a);
    hide Apply, Enabled, Closed;
  }

  lemma KillKeepsShape(s: State, id: Subscriptions.Pid)
    requires Shape(s) && Enabled(s, Kill(id)) && Closed(Apply(s, Kill(id)))
    ensures Shape(Apply(s, Kill(id)))
  {
    hide Done, Rooted, Cancel, Register;
    CancelKeepsShape(s, {s.incs[s.registry[id]].scope});
    var t, u := Apply(s, Kill(id)), s.(scopes := Cancel(s.scopes, {s.incs[s.registry[id]].scope}));
    assert t.scopes == u.scopes && t.supervisors == u.supervisors && |t.incs| == |u.incs|;
    assert forall i :: 0 <= i < |s.incs| ==> t.incs[i].scope == u.incs[i].scope;
    hide Apply, Enabled, Closed;
  }

  lemma StopCancelKeepsShape(s: State)
    requires Shape(s)
    ensures Shape(Apply(s, StopCancel))
  {
    hide Done, Rooted, Cancel, Register;
    CancelKeepsShape(s, {0});
  }

  lemma StopClearKeepsShape(s: State)
    requires Shape(s) && Enabled(s, StopClear)
    ensures Shape(Apply(s, StopClear))
  {
    hide Done, Rooted, Cancel, Register;
    forall id | id in s.registry
      ensures s.incs[s.registry[id]].scope !in s.supervisors
    {
      OwnScopes(s, s.registry[id]);
    }
    var evicted := set id | id in s.registry :: s.incs[s.registry[id]].scope;
    CancelKeepsShape(s, evicted);
    ShapeIgnoresRegistry(s.(scopes := Cancel(s.scopes, evicted)));
  }

  lemma ShapeIgnoresRegistry(s: State)
    requires Shape(s)
    ensures Shape(s.(registry := map[], cleared := true))
  {
    hide Rooted;
  }

  lemma OwnScopes(s: State, i: nat)
    requires Shape(s) && i < |s.incs|
    ensures s.incs[i].scope !in s.supervisors
  {
    assert OwnScope(s, s.incs[i].scope);
  }

  lemma RestartKeepsShape(s: State, k: nat, granted: bool)
    requires Shape(s) && Enabled(s, Restart(k, granted))
    ensures Shape(Apply(s, Restart(k, granted)))
  {
    hide Done, Rooted, Cancel, Register;
    var id := s.checking[k][0];
    var evicted := if id in s.registry then {s.incs[s.registry[id]].scope} else {};
    var s' := s.(checking := s.checking[k := s.checking[k][1..]]);
    CancelKeepsShape(s', evicted);
    RegisterKeepsShape(s'.(scopes := Cancel(s.scopes, evicted)), id, 100, k);
  }

  lemma StepKeepsShape(s: State, a: Action)
    requires Shape(s) && Enabled(s, a)
    ensures Shape(Apply(s, a))
  {
    StepKeepsClosed(s, a);
    hide Done, Rooted, Cancel, Register;
    match a
    case Spawn(id, capacity) => RegisterKeepsShape(s, id, capacity, 0);
    case Supervise => SuperviseKeepsShape(s);
    case CheckBegin(_, _) =>
    case Restart(k, granted) => RestartKeepsShape(s, k, granted);
    case CheckEnd(_) =>
    case Kill(id) => KillKeepsShape(s, id);
    case StopCancel => StopCancelKeepsShape(s);
    case StopClear => StopClearKeepsShape(s);
    case _ => TrafficKeepsShape(s, a);
  }

  lemma SuperviseKeepsShape(s: State)
    requires Shape(s)
    ensures Shape(Apply(s, Supervise))
  {
    hide Rooted;
    StepKeepsClosed(s, Supervise);
  }

  // ----- What a step does to one incarnation

  /** The step cancels the scope of incarnation i. */
  ghost predicate Evicts(s: State, a: Action, i: nat)
    requires Closed(s) && Enabled(s, a) && i < |s.incs|
  {
    match a
    case Kill(id) => s.registry[id] == i
    case Restart(k, granted) => granted && s.checking[k][0] in s.registry && s.registry[s.checking[k][0]] == i
    case StopClear => IsRegistered(s, i)
    case _ => false
  }

  /** A spawn takes over the identifier of a registered process, which is neither cancelled nor stopped by that. */
  ghost predicate Reuses(s: State, a: Action)
    requires Closed(s)
  {
    a.Spawn? && !s.scopes[0].cancelled && a.id in s.registry
  }

  lemma StopEffect(s: State, a: Action, i: nat)
    requires Shape(s) && RegisteredRun(s) && Enabled(s, a) && i < |s.incs| && Closed(Apply(s, a))
    requires a.Kill? || a.StopCancel? || a.StopClear?
    ensures var t := Apply(s, a);
      && |t.incs| == |s.incs| && t.incs[i].scope == s.incs[i].scope
      && (Evicted(t, i) <==> Evicted(s, i) || Evicts(s, a, i))
      && (IsRegistered(t, i) <==> IsRegistered(s, i) && !Evicts(s, a, i))
  {
    hide Done, Rooted;
    assert OwnScope(s, s.incs[i].scope);
  }

  lemma SpawnEffect(s: State, a: Action, i: nat)
    requires Shape(s) && RegisteredRun(s) && Enabled(s, a) && i < |s.incs| && Closed(Apply(s, a))
    requires a.Spawn?
    ensures var t := Apply(s, a);
      && |t.incs| >= |s.incs| && t.incs[i].scope == s.incs[i].scope
      && (Evicted(t, i) <==> Evicted(s, i) || Evicts(s, a, i))
      && (IsRegistered(t, i) <==> IsRegistered(s, i) && !Evicts(s, a, i) && !(Reuses(s, a) && s.registry[a.id] == i))
  {
    hide Done, Rooted;
  }

  lemma RestartEffect(s: State, a: Action, i: nat)
    requires Shape(s) && RegisteredRun(s) && Enabled(s, a) && i < |s.incs| && Closed(Apply(s, a))
    requires a.Restart?
    ensures var t := Apply(s, a);
      && |t.incs| >= |s.incs| && t.incs[i].scope == s.incs[i].scope
      && (Evicted(t, i) <==> Evicted(s, i) || Evicts(s, a, i))
      && (IsRegistered(t, i) <==> IsRegistered(s, i) && !Evicts(s, a, i))
  {
    hide Done, Rooted;
  }

  /** What a step adds it registers, uncancelled. */
  lemma AddedIsRegistered(s: State, a: Action, i: nat)
    requires Closed(s) && Enabled(s, a) && Closed(Apply(s, a)) && |s.incs| <= i < |Apply(s, a).incs|
    ensures IsRegistered(Apply(s, a), i) && !Evicted(Apply(s, a), i)
  {
    if IsTraffic(a) {
      TrafficFrame(s, a);
    }
    hide Done, Rooted;
  }

  /** A step evicts exactly whom it evicts, and unregisters exactly these and the one whose identifier is re-used. */
  lemma Effect(s: State, a: Action, i: nat)
    requires Shape(s) && RegisteredRun(s) && Enabled(s, a) && i < |s.incs|
    ensures Closed(Apply(s, a)) && i < |Apply(s, a).incs|
    ensures var t := Apply(s, a);
      && (Evicted(t, i) <==> Evicted(s, i) || Evicts(s, a, i))
      && (IsRegistered(t, i) <==> IsRegistered(s, i) && !Evicts(s, a, i) && !(Reuses(s, a) && s.registry[a.id] == i))
  {
    StepKeepsClosed(s, a);
    hide Done, Rooted, Cancel, Register;
    match a
    case Spawn(_, _) => SpawnEffect(s, a, i);
    case Supervise =>
    case CheckBegin(_, _) =>
    case Restart(_, _) => RestartEffect(s, a, i);
    case CheckEnd(_) =>
    case Kill(_) => StopEffect(s, a, i);
    case StopCancel => StopEffect(s, a, i);
    case StopClear => StopEffect(s, a, i);
    case _ => TrafficFrame(s, a);
  }

  lemma StepKeepsRun(s: State, a: Action)
    requires Shape(s) && RegisteredRun(s) && Enabled(s, a)
    ensures Shape(Apply(s, a)) && RegisteredRun(Apply(s, a))
  {
    StepKeepsShape(s, a);
    StepKeepsRegistered(s, a);
    var t := Apply(s, a);
    hide Apply, Enabled, Evicts, Evicted;
    forall id | id in t.registry
      ensures !Evicted(t, t.registry[id])
    {
      var i := t.registry[id];
      assert IsRegistered(t, i);
      if i < |s.incs| {
        Effect(s, a, i);
      } else {
        AddedIsRegistered(s, a, i);
      }
    }
  }

  // ----- Orphans

  /** Neither evicted nor registered: it runs, and no Send, Kill or check can reach it any more. */
  ghost predicate Orphan(s: State, i: nat)
    requires i < |s.incs| && s.incs[i].scope < |s.scopes|
  {
    !Evicted(s, i) && !IsRegistered(s, i)
  }

  ghost predicate NoOrphan(s: State)
    requires Closed(s)
  {
    forall i :: 0 <= i < |s.incs| ==> !Orphan(s, i)
  }

  /** A step makes an orphan exactly when a spawn re-uses the identifier of a registered process. */
  lemma StepOrphansExactlyWhen(s: State, a: Action)
    requires Shape(s) && RegisteredRun(s) && NoOrphan(s) && Enabled(s, a)
    ensures Closed(Apply(s, a)) && (NoOrphan(Apply(s, a)) <==> !Reuses(s, a))
  {
    StepKeepsClosed(s, a);
    var t := Apply(s, a);
    hide Apply, Enabled, Evicted, IsRegistered;
    if Reuses(s, a) {
      Effect(s, a, s.registry[a.id]);
      assert Orphan(t, s.registry[a.id]);
    } else {
      forall i | 0 <= i < |t.incs|
        ensures !Orphan(t, i)
      {
        if i < |s.incs| {
          Effect(s, a, i);
          assert !Orphan(s, i);
        } else {
          AddedIsRegistered(s, a, i);
        }
      }
    }
  }

  lemma OrphanStays(s: State, a: Action, i: nat)
    requires Shape(s) && RegisteredRun(s) && Enabled(s, a) && i < |s.incs| && Orphan(s, i)
    ensures Closed(Apply(s, a)) && i < |Apply(s, a).incs| && Orphan(Apply(s, a), i)
  {
    hide Apply;
    Effect(s, a, i);
  }

  lemma {:induction false} OrphanForGood(s: State, actions: seq<Action>, t: State, i: nat)
    requires Shape(s) && RegisteredRun(s) && Leads(s, actions, t) && i < |s.incs| && Orphan(s, i)
    ensures Closed(t) && i < |t.incs| && Orphan(t, i)
    decreases actions
  {
    hide Apply, Orphan, RegisteredRun;
    if actions != [] {
      OrphanStays(s, actions[0], i);
      StepKeepsRun(s, actions[0]);
      OrphanForGood(Apply(s, actions[0]), actions[1..], t, i);
    }
  }

  // ----- Whole runs

  /** No spawn of the run takes over the identifier of a process registered at that moment. */
  ghost predicate NoReuse(s: State, actions: seq<Action>)
    requires Closed(s)
    decreases actions
  {
    actions != [] && Enabled(s, actions[0]) && Closed(Apply(s, actions[0])) ==>
      !Reuses(s, actions[0]) && NoReuse(Apply(s, actions[0]), actions[1..])
  }

  lemma {:induction false} OrphansExactlyWhen(s: State, actions: seq<Action>, t: State)
    requires Shape(s) && RegisteredRun(s) && NoOrphan(s) && Leads(s, actions, t)
    ensures Shape(t) && RegisteredRun(t) && (NoOrphan(t) <==> NoReuse(s, actions))
    decreases actions
  {
    hide Apply, RegisteredRun, Orphan, Reuses;
    if actions != [] {
      var s' := Apply(s, actions[0]);
      StepKeepsRun(s, actions[0]);
      StepOrphansExactlyWhen(s, actions[0]);
      if Reuses(s, actions[0]) {
        var i :| 0 <= i < |s'.incs| && Orphan(s', i);
        OrphanForGood(s', actions[1..], t, i);
        RunKeepsRun(s', actions[1..], t);
      } else {
        OrphansExactlyWhen(s', actions[1..], t);
      }
    }
  }

  lemma {:induction false} RunKeepsRun(s: State, actions: seq<Action>, t: State)
    requires Shape(s) && RegisteredRun(s) && Leads(s, actions, t)
    ensures Shape(t) && RegisteredRun(t)
    decreases actions
  {
    hide Apply, RegisteredRun;
    if actions != [] {
      StepKeepsRun(s, actions[0]);
      RunKeepsRun(Apply(s, actions[0]), actions[1..], t);
    }
  }

  lemma InitRuns()
    ensures Shape(INIT) && RegisteredRun(INIT) && NoOrphan(INIT)
  {
  }

  /** The incarnations whose loops are not told to end are exactly the registered ones. */
  ghost predicate OnlyRegisteredRun(s: State)
    requires Closed(s)
  {
    forall i :: 0 <= i < |s.incs| ==> (!Done(s.scopes, s.incs[i].scope) <==> IsRegistered(s, i))
  }

  lemma RunningAreRegistered(s: State)
    requires Shape(s) && RegisteredRun(s) && !s.scopes[0].cancelled
    ensures OnlyRegisteredRun(s) <==> NoOrphan(s)
  {
    hide Done, Rooted;
    forall i | 0 <= i < |s.incs|
      ensures (!Done(s.scopes, s.incs[i].scope) <==> IsRegistered(s, i)) <==> !Orphan(s, i)
    {
      RunsUnlessEvicted(s, i);
      assert IsRegistered(s, i) ==> !Evicted(s, s.registry[s.incs[i].id]);
    }
    hide Orphan, IsRegistered;
  }

  /** Main result: in every reachable state of a node that is not stopped, only the registered incarnations run if and
      only if no spawn re-used the identifier of a registered process. */
  lemma OnlyRegisteredRunExactlyWhen(actions: seq<Action>, t: State)
    requires Closed(INIT) && Leads(INIT, actions, t)
    ensures Closed(t)
    ensures !t.scopes[0].cancelled ==> (OnlyRegisteredRun(t) <==> NoReuse(INIT, actions))
  {
    hide Leads, NoReuse, Registered, Done, NoOrphan, OnlyRegisteredRun;
    InitRuns();
    OrphansExactlyWhen(INIT, actions, t);
    if !t.scopes[0].cancelled {
      RunningAreRegistered(t);
    }
  }

  /** A fresh node gets there by spawning the same identifier twice. */
  lemma SpawningTwiceMakesAnOrphan(id: Subscriptions.Pid, capacity: nat)
    requires capacity >= 1
    ensures exists actions, t :: Closed(INIT) && Leads(INIT, actions, t)
              && Closed(t) && !t.scopes[0].cancelled && !OnlyRegisteredRun(t)
  {
    var a := Action.Spawn(id, capacity);
    var s1 := Apply(INIT, a);
    StepKeepsClosed(INIT, a);
    var t := Apply(s1, a);
    StepKeepsClosed(s1, a);
    LeadsOn(s1, a, t, [], t);
    LeadsOn(INIT, a, s1, [a] + [], t);
    var actions := [a] + ([a] + []);
    assert Reuses(s1, a);
    assert actions[1..] == [a] && !NoReuse(s1, [a]);
    assert !NoReuse(INIT, actions);
    OnlyRegisteredRunExactlyWhen(actions, t);
    hide Leads, OnlyRegisteredRun, NoReuse;
  }
}
