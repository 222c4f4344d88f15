/** What becomes of a send: only one that was asked for under the process's own identifier, and then found the process
    alive, reaches a mailbox and the log. */
module Sends {
  import opened Incarnations
  import opened Losses

  /** The action is a step of caller c. */
  predicate Acts(a: Action, c: nat) {
    (a.Lookup? || a.CheckAlive? || a.Event? || a.Push?) && a.c == c
  }

  predicate Quiet(actions: seq<Action>, c: nat) {
    forall a :: a in actions ==> !Acts(a, c)
  }

  /** What brings a caller to this point: a look-up of the registered incarnation, an alive check that finds it alive,
      or an event for the registered incarnation while it is alive. */
  ghost predicate Causes(s: State, a: Action, c: nat, x: Send) {
    && x.i < |s.incs|
    && match x
       case Held(i, m) => a == Lookup(c, s.incs[i].id, m) && a.id in s.registry && s.registry[a.id] == i
       case Ready(i, m) => a == CheckAlive(c) && Has(s, c, Held(i, m)) && s.incs[i].alive
       case Waiting(i, m) =>
         a == Event(c, s.incs[i].id, m) && a.id in s.registry && s.registry[a.id] == i && s.incs[i].alive
  }

  predicate Has(s: State, c: nat, x: Send) {
    c in s.sends && s.sends[c] == x
  }

  /** The last step of the caller in this run was such a cause. */
  ghost predicate CausedLast(s: State, actions: seq<Action>, c: nat, x: Send)
    requires Closed(s)
    decreases actions
  {
    && actions != [] && Enabled(s, actions[0]) && Closed(Apply(s, actions[0]))
    && (|| (Causes(s, actions[0], c, x) && Quiet(actions[1..], c))
        || CausedLast(Apply(s, actions[0]), actions[1..], c, x))
  }

  lemma OwnStepMovesSend(s: State, a: Action, c: nat, x: Send)
    requires Closed(s) && Registered(s) && Enabled(s, a) && Acts(a, c)
    ensures Has(Apply(s, a), c, x) <==> Causes(s, a, c, x)
  {
    hide Done, Rooted, Accept;
  }

  lemma OthersLeaveSend(s: State, a: Action, c: nat)
    requires Closed(s) && Enabled(s, a) && !Acts(a, c)
    ensures c in Apply(s, a).sends <==> c in s.sends
    ensures c in s.sends ==> Apply(s, a).sends[c] == s.sends[c]
  {
    hide Done, Rooted, Cancel, Accept;
  }

  lemma StepMovesSend(s: State, a: Action, c: nat, x: Send)
    requires Inv(s) && Enabled(s, a)
    ensures Has(Apply(s, a), c, x) <==> if Acts(a, c) then Causes(s, a, c, x) else Has(s, c, x)
    ensures Causes(s, a, c, x) ==> Acts(a, c)
  {
    if Acts(a, c) {
      OwnStepMovesSend(s, a, c, x);
    } else {
      OthersLeaveSend(s, a, c);
    }
    hide Apply, Enabled, Closed, Registered, Logged, Fifo;
  }

  lemma StepKeepsInv(s: State, a: Action)
    requires Inv(s) && Enabled(s, a)
    ensures Inv(Apply(s, a))
  {
    StepKeepsClosed(s, a);
    StepKeepsFifo(s, a);
    StepKeepsLog(s, a);
    StepKeepsRegistered(s, a);
    hide Apply, Enabled, Fifo, Logged, Registered;
  }

  /** Over every run a caller stands where it stands exactly if its last step brought it there: it holds a process it
      has just looked up, and has its alive check behind it exactly if it found the process alive. */
  lemma {:induction false} SendOverRun(s: State, actions: seq<Action>, t: State, c: nat, x: Send)
    requires Inv(s) && Leads(s, actions, t)
    ensures Has(t, c, x) <==> CausedLast(s, actions, c, x) || (Has(s, c, x) && Quiet(actions, c))
    decreases actions
  {
    hide Apply, Enabled, Fifo, Logged, Registered, Has, Causes, Closed, Acts;
    if actions != [] {
      StepKeepsInv(s, actions[0]);
      StepMovesSend(s, actions[0], c, x);
      SendOverRun(Apply(s, actions[0]), actions[1..], t, c, x);
      assert Quiet(actions, c) <==> !Acts(actions[0], c) && Quiet(actions[1..], c) by {
        assert actions == [actions[0]] + actions[1..];
      }
    }
  }

  /** A push is accepted and logged exactly if the mailbox has room, and an event waits until it has. */
  lemma PushLogsExactlyWhen(s: State, c: nat)
    requires Closed(s) && Enabled(s, Push(c))
    ensures var p, m, t := s.incs[s.sends[c].i], s.sends[c].m, Apply(s, Push(c));
      t.log == if |p.mailbox| < p.capacity then s.log + [(p.id, m)] else s.log
    ensures s.sends[c].Waiting? ==> |Apply(s, Push(c)).log| == |s.log| + 1
  {
    hide Done, Rooted, Cancel;
  }

  lemma StepLogs(s: State, a: Action)
    requires Closed(s) && Enabled(s, a)
    ensures s.log <= Apply(s, a).log && |Apply(s, a).log| <= |s.log| + 1
    ensures Apply(s, a).log != s.log ==>
              && a.Push? && a.c in s.sends && !s.sends[a.c].Held?
              && Apply(s, a).log == s.log + [(s.incs[s.sends[a.c].i].id, s.sends[a.c].m)]
  {
    hide Done, Rooted, Cancel, Accept;
  }

  lemma {:induction false} LogGrows(s: State, actions: seq<Action>, t: State)
    requires Closed(s) && Leads(s, actions, t)
    ensures s.log <= t.log
    decreases actions
  {
    hide Apply, Closed;
    if actions != [] {
      StepLogs(s, actions[0]);
      LogGrows(Apply(s, actions[0]), actions[1..], t);
    }
  }

  /** The part of a run up to the push that logged the k-th entry. */
  lemma {:induction false} LoggingPush(s: State, actions: seq<Action>, t: State, k: nat)
    returns (before: seq<Action>, c: nat, u: State)
    requires Inv(s) && Leads(s, actions, t) && |s.log| <= k < |t.log|
    ensures before + [Push(c)] <= actions && Leads(s, before, u) && Inv(u) && |u.log| == k && c in u.sends
    ensures u.sends[c].i < |u.incs| && t.log[k] == (u.incs[u.sends[c].i].id, u.sends[c].m)
    ensures !u.sends[c].Held?
    decreases actions
  {
    hide Apply, Fifo, Logged, Registered;
    var a, s' := actions[0], Apply(s, actions[0]);
    StepKeepsInv(s, a);
    StepLogs(s, a);
    LogGrows(s', actions[1..], t);
    if |s'.log| > k {
      before, c, u := [], a.c, s;
    } else {
      before, c, u := LoggingPush(s', actions[1..], t, k);
      LeadsOn(s, a, s', before, u);
      assert actions == [a] + actions[1..];
      before := [a] + before;
    }
  }

  /** Main result: every send that returned without an error, and every event delivered, was pushed by a caller whose
      last step before had found the process alive, under the identifier that was logged. */
  lemma LoggedSendFoundItsProcessAlive(actions: seq<Action>, t: State, k: nat)
    returns (before: seq<Action>, c: nat, u: State)
    requires Closed(INIT) && Leads(INIT, actions, t) && k < |t.log|
    ensures before + [Push(c)] <= actions && Leads(INIT, before, u) && |u.log| == k
    ensures c in u.sends && u.sends[c].i < |u.incs| && t.log[k] == (u.incs[u.sends[c].i].id, u.sends[c].m)
    ensures !u.sends[c].Held? && CausedLast(INIT, before, c, u.sends[c])
  {
    hide Leads, CausedLast;
    before, c, u := LoggingPush(INIT, actions, t, k);
    SendOverRun(INIT, before, u, c, u.sends[c]);
  }

  /** A send that a Kill overtakes before its alive check ends there: nothing is pushed and nothing logged. */
  lemma KilledBeforeCheckIsRefused(s: State, actions: seq<Action>, t: State, c: nat, i: nat, m: nat)
    requires Inv(s) && Leads(s, actions, t) && Has(s, c, Held(i, m))
    requires Quiet(actions, c) && KilledDuring(s, actions, i)
    ensures Closed(t) && Enabled(t, CheckAlive(c)) && Apply(t, CheckAlive(c)) == t.(sends := t.sends - {c})
  {
    RunKeepsInv(s, actions, t);
    AliveExactlyWhen(s, actions, t, i);
    SendOverRun(s, actions, t, c, Held(i, m));
    hide Leads, KilledDuring, Rooted, CausedLast;
  }
}
