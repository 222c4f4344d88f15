/** The life of one poll loop: it ends on a cancelled context only, sleeps after an error only, and otherwise polls
    again and again. */
module PollLife {
  import LongPolling
  import opened PollLoops

  /** The action is a step of loop i. */
  predicate Acts(a: Action, i: nat) {
    (a.Wake? || a.End? || a.Fetch? || a.Answer? || a.NoAnswer? || a.Push? || a.Next?) && a.i == i
  }

  predicate Idle(actions: seq<Action>, i: nat) {
    forall a :: a in actions ==> !Acts(a, i)
  }

  /** The loop's poll fails: no response, or no connection to poll on. */
  predicate Fails(s: State, a: Action, i: nat) {
    (a.NoAnswer? && a.i == i) || (a == Fetch(i) && !(s.connected && s.sessions != []))
  }

  /** The last step of the loop in this run was a failed poll. */
  ghost predicate FailedLast(s: State, actions: seq<Action>, i: nat)
    decreases actions
  {
    && actions != [] && Enabled(s, actions[0])
    && ((Fails(s, actions[0], i) && Idle(actions[1..], i)) || FailedLast(Apply(s, actions[0]), actions[1..], i))
  }

  /** The loop leaves its select on a context that is cancelled. */
  predicate EndsOnCancelled(s: State, a: Action, i: nat) {
    a == End(i) && i < |s.loops| && s.loops[i].Selecting? && s.loops[i].ctx in s.cancelled
  }

  ghost predicate EndedOnCancelled(s: State, actions: seq<Action>, i: nat)
    decreases actions
  {
    && actions != [] && Enabled(s, actions[0])
    && (EndsOnCancelled(s, actions[0], i) || EndedOnCancelled(Apply(s, actions[0]), actions[1..], i))
  }

  /** Asleep, or not started yet: a loop starts asleep. */
  predicate Sleeps(s: State, i: nat) {
    i < |s.loops| ==> s.loops[i].Asleep?
  }

  predicate HasEnded(s: State, i: nat) {
    i < |s.loops| && s.loops[i].Ended?
  }

  lemma LifeStep(s: State, a: Action, i: nat)
    requires Enabled(s, a)
    ensures Sleeps(Apply(s, a), i) <==> if Acts(a, i) then Fails(s, a, i) else Sleeps(s, i)
    ensures HasEnded(Apply(s, a), i) <==> HasEnded(s, i) || EndsOnCancelled(s, a, i)
    ensures Fails(s, a, i) ==> Acts(a, i)
  {
  }

  /** Over every run a loop sleeps exactly if its last poll failed or it has not moved since its start, and it has ended
      exactly if it left a select whose context was cancelled. */
  lemma {:induction false} LifeOverRun(s: State, actions: seq<Action>, t: State, i: nat)
    requires Leads(s, actions, t)
    ensures Sleeps(t, i) <==> FailedLast(s, actions, i) || (Sleeps(s, i) && Idle(actions, i))
    ensures HasEnded(t, i) <==> HasEnded(s, i) || EndedOnCancelled(s, actions, i)
    decreases actions
  {
    hide Apply, Enabled, Sleeps, HasEnded, Fails, EndsOnCancelled, Acts;
    if actions != [] {
      LifeStep(s, actions[0], i);
      LifeOverRun(Apply(s, actions[0]), actions[1..], t, i);
      assert Idle(actions, i) <==> !Acts(actions[0], i) && Idle(actions[1..], i) by {
        assert actions == [actions[0]] + actions[1..];
      }
    }
  }

  /** Steps a loop needs until its next request is under way. */
  function Ahead(l: Loop): nat {
    match l
    case Pushing(rest) => 2 + |rest|
    case Fetching(_) => 3
    case Asleep => 2
    case Selecting(_) => 1
    case Ended => 0
  }

  function NextOf(l: Loop, i: nat): Action {
    match l
    case Pushing(rest) => if rest == [] then Next(i) else Push(i)
    case Fetching(_) => NoAnswer(i, false)
    case Asleep => Wake(i)
    case _ => Fetch(i)
  }

  lemma NextHelps(s: State, i: nat)
    requires i < |s.loops| && !s.loops[i].Ended? && s.connected && s.sessions != []
    requires s.loops[i].Fetching? ==> s.loops[i].session < |s.sessions|
    ensures Enabled(s, NextOf(s.loops[i], i)) && Acts(NextOf(s.loops[i], i), i)
    ensures var t := Apply(s, NextOf(s.loops[i], i));
      && |t.loops| == |s.loops| && t.connected && |t.sessions| == |s.sessions| > 0 && !t.loops[i].Ended?
      && if s.loops[i].Selecting? then t.loops[i] == Fetching(|t.sessions| - 1)
         else !t.loops[i].Fetching? && Ahead(t.loops[i]) == Ahead(s.loops[i]) - 1
  {
  }

  /** While the client is connected, a loop that has not ended polls the current session again: after a response once it
      has pushed what it was given, after a failed poll once it has slept. */
  lemma {:induction false} PollsAgain(s: State, i: nat) returns (actions: seq<Action>, t: State)
    requires i < |s.loops| && !s.loops[i].Ended? && s.connected && s.sessions != []
    requires s.loops[i].Fetching? ==> s.loops[i].session < |s.sessions|
    ensures Leads(s, actions, t) && actions != [] && forall a :: a in actions ==> Acts(a, i)
    ensures i < |t.loops| && |t.sessions| == |s.sessions| && t.loops[i] == Fetching(|s.sessions| - 1)
    ensures |actions| == Ahead(s.loops[i])
    decreases Ahead(s.loops[i])
  {
    var a := NextOf(s.loops[i], i);
    var s' := Apply(s, a);
    NextHelps(s, i);
    if s.loops[i].Selecting? {
      LeadsOn(s, a, s', [], s');
      actions, t := [a] + [], s';
    } else {
      actions, t := PollsAgain(s', i);
      LeadsOn(s, a, s', actions, t);
      actions := [a] + actions;
    }
  }

  // ----- The transport's contexts

  /** The loop reads the transport's context, which is x. */
  predicate Reads(s: State, a: Action, i: nat, x: nat) {
    (a == Wake(i) || a == Next(i)) && s.ctx == x
  }

  ghost predicate ReadLast(s: State, actions: seq<Action>, i: nat, x: nat)
    decreases actions
  {
    && actions != [] && Enabled(s, actions[0])
    && ((Reads(s, actions[0], i, x) && Idle(actions[1..], i)) || ReadLast(Apply(s, actions[0]), actions[1..], i, x))
  }

  predicate Selects(s: State, i: nat, x: nat) {
    i < |s.loops| && s.loops[i] == Selecting(x)
  }

  lemma SelectsStep(s: State, a: Action, i: nat, x: nat)
    requires Enabled(s, a)
    ensures Selects(Apply(s, a), i, x) <==> if Acts(a, i) then Reads(s, a, i, x) else Selects(s, i, x)
    ensures Reads(s, a, i, x) ==> Acts(a, i)
  {
  }

  /** Over every run a loop selects on a context exactly if that was the transport's when the loop, in its last step,
      read it: every round reads it anew. */
  lemma {:induction false} SelectsOnCurrent(s: State, actions: seq<Action>, t: State, i: nat, x: nat)
    requires Leads(s, actions, t)
    ensures Selects(t, i, x) <==> ReadLast(s, actions, i, x) || (Selects(s, i, x) && Idle(actions, i))
    decreases actions
  {
    hide Apply, Enabled, Selects, Reads, Acts;
    if actions != [] {
      SelectsStep(s, actions[0], i, x);
      SelectsOnCurrent(Apply(s, actions[0]), actions[1..], t, i, x);
      assert Idle(actions, i) <==> !Acts(actions[0], i) && Idle(actions[1..], i) by {
        assert actions == [actions[0]] + actions[1..];
      }
    }
  }

  /** Calls of Connect that found the client unconnected, whether or not they succeeded. */
  function Attempts(up: bool, actions: seq<Action>): nat
    decreases actions
  {
    if actions == [] then 0
    else
      var a := actions[0];
      (if a.Connect? && !up then 1 else 0) + Attempts(a == Connect(true) || (up && a != Close), actions[1..])
  }

  /** A Close found the client connected while its context was x. */
  ghost predicate ClosedOn(up: bool, ctx: nat, actions: seq<Action>, x: nat)
    decreases actions
  {
    && actions != []
    && var a := actions[0];
       (|| (a == Close && up && ctx == x)
        || ClosedOn(a == Connect(true) || (up && a != Close), if a.Connect? && !up then ctx + 1 else ctx, actions[1..],
                    x))
  }

  lemma ContextStep(s: State, a: Action)
    requires Enabled(s, a)
    ensures var t := Apply(s, a);
      && (t.connected <==> a == Connect(true) || (s.connected && a != Close))
      && t.ctx == s.ctx + (if a.Connect? && !s.connected then 1 else 0)
      && t.cancelled == s.cancelled + (if a == Close && s.connected then {s.ctx} else {})
  {
  }

  /** Over every run: each attempt to connect makes a new context, and a context is cancelled exactly if it was the
      current one when a connected client was closed. */
  lemma {:induction false} ContextsTellTheRun(s: State, actions: seq<Action>, t: State, x: nat)
    requires Leads(s, actions, t)
    ensures t.ctx == s.ctx + Attempts(s.connected, actions)
    ensures x in t.cancelled <==> x in s.cancelled || ClosedOn(s.connected, s.ctx, actions, x)
    decreases actions
  {
    if actions != [] {
      ContextStep(s, actions[0]);
      ContextsTellTheRun(Apply(s, actions[0]), actions[1..], t, x);
      hide Apply, Enabled;
    }
  }

  // ----- What is lost, and closed sessions

  /** A response that finds the queue full, or one that was drained on an open session and did not arrive. */
  ghost predicate Loses(s: State, a: Action)
    requires Enabled(s, a)
  {
    match a
    case Push(_) => |s.queue| >= LongPolling.CLIENT_QUEUE
    case NoAnswer(i, drained) =>
      drained && !s.sessions[s.loops[i].session].closed && s.sessions[s.loops[i].session].pending != []
    case _ => false
  }

  ghost predicate NoneLoses(s: State, actions: seq<Action>)
    decreases actions
  {
    actions != [] && Enabled(s, actions[0]) ==>
      !Loses(s, actions[0]) && NoneLoses(Apply(s, actions[0]), actions[1..])
  }

  lemma LossStep(s: State, a: Action)
    requires Enabled(s, a)
    ensures |s.lost| <= |Apply(s, a).lost| && (|s.lost| == |Apply(s, a).lost| <==> !Loses(s, a))
  {
  }

  lemma {:induction false} LossesGrow(s: State, actions: seq<Action>, t: State)
    requires Leads(s, actions, t)
    ensures |s.lost| <= |t.lost|
    decreases actions
  {
    if actions != [] {
      LossStep(s, actions[0]);
      LossesGrow(Apply(s, actions[0]), actions[1..], t);
      hide Apply;
    }
  }

  /** Over every run nothing more is lost exactly if no response found the client's queue full and none that was drained
      went missing. */
  lemma {:induction false} NothingLostExactlyWhen(s: State, actions: seq<Action>, t: State)
    requires Leads(s, actions, t)
    ensures |t.lost| == |s.lost| <==> NoneLoses(s, actions)
    decreases actions
  {
    hide Apply, Enabled, Loses;
    if actions != [] {
      LossStep(s, actions[0]);
      LossesGrow(Apply(s, actions[0]), actions[1..], t);
      NothingLostExactlyWhen(Apply(s, actions[0]), actions[1..], t);
    }
  }

  /** Once a session is closed on the server, it neither accepts writes nor hands out what is left, whatever happens. */
  lemma {:induction false} ClosedSessionIsFrozen(s: State, actions: seq<Action>, t: State, k: nat)
    requires Leads(s, actions, t) && k < |s.sessions| && s.sessions[k].closed
    ensures k < |t.sessions| && t.sessions[k] == s.sessions[k]
    decreases actions
  {
    if actions != [] {
      ClosedSessionIsFrozen(Apply(s, actions[0]), actions[1..], t, k);
    }
  }

  lemma CloseStep(s: State, a: Action, k: nat)
    requires Enabled(s, a) && k < |s.sessions|
    ensures k < |Apply(s, a).sessions|
    ensures Apply(s, a).sessions[k].closed <==> s.sessions[k].closed || a == CloseSession(k)
  {
  }

  /** A session is closed exactly by closing it; polls, lost responses and other sessions leave it open. */
  lemma {:induction false} SessionClosedExactlyWhen(s: State, actions: seq<Action>, t: State, k: nat)
    requires Leads(s, actions, t) && k < |s.sessions|
    ensures k < |t.sessions| && (t.sessions[k].closed <==> s.sessions[k].closed || CloseSession(k) in actions)
    decreases actions
  {
    hide Apply, Enabled;
    if actions != [] {
      CloseStep(s, actions[0], k);
      SessionClosedExactlyWhen(Apply(s, actions[0]), actions[1..], t, k);
      assert actions == [actions[0]] + actions[1..];
    }
  }

  /** A response carries everything that waited in its session, in order, and leaves nothing behind. */
  lemma AnswerTakesEverything(s: State, i: nat)
    requires Enabled(s, Answer(i))
    ensures var t, k := Apply(s, Answer(i)), s.loops[i].session;
      Rest(t.loops[i]) == s.sessions[k].pending && t.sessions[k].pending == []
  {
  }
}
