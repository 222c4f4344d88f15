/** The client's connection and its loops, told from the run: when the client is connected, when it was closed, and
    which loops have ended. */
module Connection {
  import opened Pipeline

  /** The connection is reported lost, or closed. */
  predicate Ends(a: Action) {
    a.Disconnect? || a.Close? || a.WriteFail?
  }

  /** Some successful Connect was not followed by a lost connection, a failed write or a Close. */
  ghost predicate StaysUp(actions: seq<Action>) {
    exists k :: 0 <= k < |actions| && actions[k] == Connect(true)
                && forall j :: k < j < |actions| ==> !Ends(actions[j])
  }

  ghost predicate NoneEnds(actions: seq<Action>) {
    forall a :: a in actions ==> !Ends(a)
  }

  lemma StaysUpStep(a: Action, rest: seq<Action>)
    ensures StaysUp([a] + rest) <==> StaysUp(rest) || (a == Connect(true) && NoneEnds(rest))
    ensures NoneEnds([a] + rest) <==> !Ends(a) && NoneEnds(rest)
  {
    var all := [a] + rest;
    assert forall j :: 0 < j < |all| ==> all[j] == rest[j - 1];
    assert forall x :: x in all <==> x == a || x in rest;
    if StaysUp(all) {
      var k :| 0 <= k < |all| && all[k] == Connect(true) && forall j :: k < j < |all| ==> !Ends(all[j]);
      if k > 0 {
        assert rest[k - 1] == Connect(true) && forall j :: k - 1 < j < |rest| ==> rest[j] == all[j + 1];
      } else {
        assert forall j :: 0 <= j < |rest| ==> rest[j] == all[j + 1];
      }
    }
    if StaysUp(rest) {
      var k :| 0 <= k < |rest| && rest[k] == Connect(true) && forall j :: k < j < |rest| ==> !Ends(rest[j]);
      assert all[k + 1] == Connect(true);
    }
    if a == Connect(true) && NoneEnds(rest) {
      assert all[0] == Connect(true);
    }
  }

  lemma ConnectedStep(c: Config, s: State, a: Action)
    requires Enabled(c, s, a)
    ensures Apply(c, s, a).connected <==> a == Connect(true) || (s.connected && !Ends(a))
  {
    hide Marshalable, Unmarshalable, Labelled;
  }

  /** Over every run the client is connected exactly if since some successful Connect no connection was reported lost,
      no write failed and nobody closed it. */
  lemma {:induction false} ConnectedExactlyWhen(c: Config, s: State, actions: seq<Action>, t: State)
    requires Leads(c, s, actions, t)
    ensures t.connected <==> StaysUp(actions) || (s.connected && NoneEnds(actions))
    decreases actions
  {
    hide Apply, Enabled, Ends;
    if actions != [] {
      ConnectedStep(c, s, actions[0]);
      ConnectedExactlyWhen(c, Apply(c, s, actions[0]), actions[1..], t);
      assert actions == [actions[0]] + actions[1..];
      StaysUpStep(actions[0], actions[1..]);
    }
  }

  /** How many Connects, Closes and reported losses of the run took effect. */
  function EffectiveConnects(up: bool, actions: seq<Action>): nat
    decreases actions
  {
    if actions == [] then 0
    else
      var a := actions[0];
      (if a == Connect(true) && !up then 1 else 0)
      + EffectiveConnects(a == Connect(true) || (up && !Ends(a)), actions[1..])
  }

  function EffectiveCloses(up: bool, actions: seq<Action>): nat
    decreases actions
  {
    if actions == [] then 0
    else
      var a := actions[0];
      (if a == Close && up then 1 else 0) + EffectiveCloses(a == Connect(true) || (up && !Ends(a)), actions[1..])
  }

  function Failures(actions: seq<Action>): nat {
    if actions == [] then 0 else (if actions[0].WriteFail? then 1 else 0) + Failures(actions[1..])
  }

  lemma CountersStep(c: Config, s: State, a: Action)
    requires Enabled(c, s, a)
    ensures var t := Apply(c, s, a);
      && t.connects == s.connects + (if a == Connect(true) && !s.connected then 1 else 0)
      && t.closes == s.closes + (if a == Close && s.connected then 1 else 0)
      && t.failures == s.failures + (if a.WriteFail? then 1 else 0)
      && (t.cancelled <==> s.cancelled || (a == Close && s.connected))
  {
    hide Marshalable, Unmarshalable, Labelled;
  }

  /** The counters count what they say, and the context is cancelled exactly by the first Close that takes effect. */
  lemma {:induction false} CountersTellTheRun(c: Config, s: State, actions: seq<Action>, t: State)
    requires Leads(c, s, actions, t)
    ensures t.connects == s.connects + EffectiveConnects(s.connected, actions)
    ensures t.closes == s.closes + EffectiveCloses(s.connected, actions)
    ensures t.failures == s.failures + Failures(actions)
    ensures t.cancelled <==> s.cancelled || EffectiveCloses(s.connected, actions) > 0
    decreases actions
  {
    hide Apply, Enabled, Ends;
    if actions != [] {
      CountersStep(c, s, actions[0]);
      ConnectedStep(c, s, actions[0]);
      CountersTellTheRun(c, Apply(c, s, actions[0]), actions[1..], t);
    }
  }

  // ----- Which loops have ended

  /** The loop leaves its select on the cancelled context, or, as a single-message loop, fails to write. */
  predicate EndsLoop(c: Config, a: Action, i: nat) {
    a == Stop(i) || (a == WriteFail(i) && c.batchSize <= 1)
  }

  lemma LoopStep(c: Config, s: State, a: Action, i: nat)
    requires Enabled(c, s, a)
    ensures |s.loops| <= |Apply(c, s, a).loops| && (EndsLoop(c, a, i) ==> i < |s.loops|)
    ensures i < |Apply(c, s, a).loops| ==>
              (Apply(c, s, a).loops[i].Stopped? <==> (i < |s.loops| && s.loops[i].Stopped?) || EndsLoop(c, a, i))
  {
    hide Marshalable, Unmarshalable, Labelled;
  }

  /** Over every run a batch loop has ended exactly if it left its select after a Close, whatever writes failed; a
      single-message loop also ends with its first failed write. */
  lemma {:induction false} StoppedExactlyWhen(c: Config, s: State, actions: seq<Action>, t: State, i: nat)
    requires Leads(c, s, actions, t) && i < |t.loops|
    ensures t.loops[i].Stopped?
            <==> (i < |s.loops| && s.loops[i].Stopped?) || exists a :: a in actions && EndsLoop(c, a, i)
    decreases actions
  {
    hide Enabled, EndsLoop, Apply;
    if actions != [] {
      var s' := Apply(c, s, actions[0]);
      StoppedExactlyWhen(c, s', actions[1..], t, i);
      assert actions == [actions[0]] + actions[1..];
      LoopStep(c, s, actions[0], i);
    }
  }

  /** A loop at its select starts to flush exactly on a tick or when a message fills its batch; until then it keeps what
      it took. */
  lemma FlushBeginsExactlyWhen(c: Config, s: State, a: Action, i: nat)
    requires Enabled(c, s, a) && i < |s.loops| && s.loops[i].Idle?
    ensures var t := Apply(c, s, a);
      && i < |t.loops|
      && (t.loops[i].Flushing? <==> a == Tick(i) || (a == Take(i) && |s.loops[i].batch| + 1 >= c.batchSize))
      && (t.loops[i].Idle? ==>
            t.loops[i].batch == s.loops[i].batch + (if a == Take(i) then [s.queue[0]] else []))
  {
    hide Marshalable, Unmarshalable, Labelled;
  }
}
