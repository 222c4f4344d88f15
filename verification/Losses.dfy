/** When a message that was accepted is lost: an incarnation whose loop has ended keeps what is in its mailbox for
    good. */
module Losses {
  import Subscriptions
  import opened Incarnations

  /** An ended loop was not in the middle of a message. */
  ghost predicate EndedIdle(s: State) {
    forall i :: 0 <= i < |s.incs| && s.incs[i].exited ==> s.incs[i].inFlight == []
  }

  /** Nothing lies in the mailbox of an ended incarnation. */
  ghost predicate NothingLost(s: State) {
    forall i :: 0 <= i < |s.incs| && s.incs[i].exited ==> s.incs[i].mailbox == []
  }

  /** The step loses a message: a loop ends with mail in its mailbox, or an ended incarnation accepts some. */
  ghost predicate Loses(s: State, a: Action)
    requires Closed(s) && Enabled(s, a)
  {
    match a
    case Exit(i) => s.incs[i].mailbox != []
    case Push(c) => s.incs[s.sends[c].i].exited && HasSpace(s.incs[s.sends[c].i])
    case _ => false
  }

  /** What a step makes of one incarnation, as far as losses go. */
  lemma StepOn(s: State, a: Action, i: nat)
    requires Closed(s) && Enabled(s, a) && EndedIdle(s) && i < |Apply(s, a).incs|
    requires i < |s.incs| && s.incs[i].exited ==> s.incs[i].mailbox == []
    ensures var q := Apply(s, a).incs[i];
      && (q.exited ==> q.inFlight == [])
      && (!Loses(s, a) && q.exited ==> q.mailbox == [])
  {
    hide Done, Cancel, Rooted;
  }

  /** The incarnation in which a losing step leaves a message. */
  lemma LosingStep(s: State, a: Action) returns (i: nat)
    requires Closed(s) && Enabled(s, a) && EndedIdle(s) && Loses(s, a)
    ensures i < |Apply(s, a).incs|
    ensures var q := Apply(s, a).incs[i]; q.exited && q.inFlight == [] && q.mailbox != []
  {
    i := if a.Exit? then a.i else s.sends[a.c].i;
    hide Done, Rooted;
  }

  /** A step loses nothing exactly if it is neither of the two losing ones. */
  lemma StepLosesExactlyWhen(s: State, a: Action)
    requires Closed(s) && Enabled(s, a) && EndedIdle(s) && NothingLost(s)
    ensures Closed(Apply(s, a)) && EndedIdle(Apply(s, a))
    ensures NothingLost(Apply(s, a)) <==> !Loses(s, a)
  {
    StepKeepsClosed(s, a);
    var t := Apply(s, a);
    hide Apply, Enabled, Loses, Closed;
    forall i | 0 <= i < |t.incs|
      ensures t.incs[i].exited ==> t.incs[i].inFlight == []
      ensures !Loses(s, a) && t.incs[i].exited ==> t.incs[i].mailbox == []
    {
      StepOn(s, a, i);
    }
    if Loses(s, a) {
      var i := LosingStep(s, a);
    }
  }

  // ----- Whole runs

  /** No step of the run loses a message. */
  ghost predicate NoneLoses(s: State, actions: seq<Action>)
    requires Closed(s)
    decreases actions
  {
    actions != [] && Enabled(s, actions[0]) && Closed(Apply(s, actions[0])) ==>
      !Loses(s, actions[0]) && NoneLoses(Apply(s, actions[0]), actions[1..])
  }

  /** Main result: over every run nothing is lost exactly if no loop ended with mail in its mailbox and no ended
      incarnation accepted a message. */
  lemma {:induction false} LossExactlyWhen(s: State, actions: seq<Action>, t: State)
    requires Closed(s) && EndedIdle(s) && NothingLost(s) && Leads(s, actions, t)
    ensures NothingLost(t) <==> NoneLoses(s, actions)
    decreases actions
  {
    hide Apply, Loses, Closed;
    if actions != [] {
      StepLosesExactlyWhen(s, actions[0]);
      if Loses(s, actions[0]) {
        var i := LosingStep(s, actions[0]);
        LostStaysLost(Apply(s, actions[0]), actions[1..], t, i);
      } else {
        LossExactlyWhen(Apply(s, actions[0]), actions[1..], t);
      }
    }
  }

  // ----- When a send meets a live process

  /** Some Kill of the run hits the incarnation. */
  ghost predicate KilledDuring(s: State, actions: seq<Action>, i: nat)
    requires Closed(s)
    decreases actions
  {
    actions != [] && Enabled(s, actions[0]) && Closed(Apply(s, actions[0]))
    && (Hits(s, actions[0], i) || KilledDuring(Apply(s, actions[0]), actions[1..], i))
  }

  ghost predicate Hits(s: State, a: Action, i: nat) {
    a.Kill? && a.id in s.registry && s.registry[a.id] == i
  }

  lemma StepKeepsAliveExactlyWhen(s: State, a: Action, i: nat)
    requires Closed(s) && Enabled(s, a) && i < |s.incs|
    ensures i < |Apply(s, a).incs|
    ensures Apply(s, a).incs[i].alive <==> s.incs[i].alive && !Hits(s, a, i)
  {
    hide Done, Cancel, Rooted;
  }

  /** A send past its alive check still meets a live process exactly if no Kill hits that incarnation in between;
      restarts and Stop leave the flag alone. */
  lemma {:induction false} AliveExactlyWhen(s: State, actions: seq<Action>, t: State, i: nat)
    requires Closed(s) && Leads(s, actions, t) && i < |s.incs|
    ensures i < |t.incs|
    ensures t.incs[i].alive <==> s.incs[i].alive && !KilledDuring(s, actions, i)
    decreases actions
  {
    hide Apply, Closed, Hits;
    if actions != [] {
      StepKeepsAliveExactlyWhen(s, actions[0], i);
      AliveExactlyWhen(Apply(s, actions[0]), actions[1..], t, i);
    }
  }

  // ----- A node left alone loses nothing

  /** The step cancels a scope. */
  ghost predicate Cancels(s: State, a: Action)
    requires Closed(s) && Enabled(s, a)
  {
    match a
    case Kill(_) => true
    case Restart(k, granted) => granted && s.checking[k][0] in s.registry
    case StopCancel => true
    case _ => false
  }

  ghost predicate NoneCancels(s: State, actions: seq<Action>)
    requires Closed(s)
    decreases actions
  {
    actions != [] && Enabled(s, actions[0]) && Closed(Apply(s, actions[0])) ==>
      !Cancels(s, actions[0]) && NoneCancels(Apply(s, actions[0]), actions[1..])
  }

  /** No scope is cancelled and no loop has ended. */
  ghost predicate AllRun(s: State) {
    && (forall c :: 0 <= c < |s.scopes| ==> !s.scopes[c].cancelled)
    && (forall i :: 0 <= i < |s.incs| ==> !s.incs[i].exited)
  }

  lemma {:induction false} NothingDone(scopes: seq<Scope>, c: nat)
    requires c < |scopes| && forall k :: 0 <= k < |scopes| ==> !scopes[k].cancelled
    ensures !Done(scopes, c)
  {
    if scopes[c].parent < c {
      NothingDone(scopes, scopes[c].parent);
    }
  }

  lemma StepLetsAllRun(s: State, a: Action)
    requires Closed(s) && AllRun(s) && Enabled(s, a) && !Cancels(s, a)
    ensures AllRun(Apply(s, a)) && !Loses(s, a)
  {
    if a.Exit? {
      NothingDone(s.scopes, s.incs[a.i].scope);
    }
    hide Done, Rooted;
  }

  lemma {:induction false} RunLetsAllRun(s: State, actions: seq<Action>)
    requires Closed(s) && AllRun(s) && NoneCancels(s, actions)
    ensures NoneLoses(s, actions)
    decreases actions
  {
    hide Apply, AllRun, Cancels, Loses, Closed;
    if actions != [] && Enabled(s, actions[0]) && Closed(Apply(s, actions[0])) {
      StepLetsAllRun(s, actions[0]);
      RunLetsAllRun(Apply(s, actions[0]), actions[1..]);
    }
  }

  /** Without a Kill, a granted restart of a registered child and a Stop, no accepted message is ever lost. */
  lemma UndisturbedNodeLosesNothing(actions: seq<Action>, t: State)
    requires Closed(INIT) && Leads(INIT, actions, t) && NoneCancels(INIT, actions)
    ensures NothingLost(t)
  {
    RunLetsAllRun(INIT, actions);
    LossExactlyWhen(INIT, actions, t);
    hide Leads, NoneLoses;
  }

  /** A fresh node loses a message once it spawns a process, and a Send and a Kill race. */
  lemma FreshNodeCanLose(id: Subscriptions.Pid, capacity: nat, m: nat)
    requires capacity >= 1
    ensures exists actions, t :: Closed(INIT) && Leads(INIT, actions, t) && !NothingLost(t)
  {
    var a := Action.Spawn(id, capacity);
    var s := Apply(INIT, a);
    StepKeepsClosed(INIT, a);
    assert Registered(s);
    var rest, t := SendThenKill(s, id, m, 0);
    LeadsOn(INIT, a, s, rest, t);
    assert t.incs[0].exited && t.incs[0].mailbox != [];
    hide Leads;
  }
}
