/** The node at the granularity of its lock sections and channel operations: sends holding stale process pointers,
    process loops, restarts in the middle of a supervisor's check, and the two halves of Stop interleave freely.
    Incarnations and cancellation scopes are numbered in order of creation; scope 0 is the node's. */
module Incarnations {
  import opened Common
  import opened Subscriptions

  datatype Scope = Scope(parent: nat, cancelled: bool)

  datatype Inc = Inc(id: Pid, scope: nat, capacity: nat, alive: bool, exited: bool,
                     accepted: seq<nat>, handled: seq<nat>, inFlight: seq<nat>, mailbox: seq<nat>)

  /** A send that has looked its process up, one that has then found it alive but not yet reached its mailbox, and a
      room event that waits for space in the mailbox. */
  datatype Send = Held(i: nat, m: nat) | Ready(i: nat, m: nat) | Waiting(i: nat, m: nat)

  /** checking: the checks under way, each with the children it still has to attempt.
      sends: the sends under way, one per caller. A Kill or a restart can come in before any of their steps.
      log: every send that returned without an error and every event delivered, with the identifier it was meant for. */
  datatype State = State(scopes: seq<Scope>, supervisors: set<nat>, checking: map<nat, seq<Pid>>, incs: seq<Inc>,
                         registry: map<Pid, nat>, sends: map<nat, Send>,
                         log: seq<(Pid, nat)>, cleared: bool)

  datatype Action =
    | Spawn(id: Pid, capacity: nat)
    | Supervise
    | CheckBegin(sup: nat, targets: seq<Pid>)
    | Restart(sup: nat, granted: bool)
    | CheckEnd(sup: nat)
    | Kill(id: Pid)
    | StopCancel
    | StopClear
    | Lookup(c: nat, id: Pid, m: nat)
    | CheckAlive(c: nat)
    | Event(c: nat, id: Pid, m: nat)
    | Push(c: nat)
    | Take(i: nat)
    | Finish(i: nat)
    | Exit(i: nat)

  const INIT := State([Scope(0, false)], {}, map[], [], map[], map[], [], false)

  ghost predicate Rooted(scopes: seq<Scope>) {
    scopes != [] && forall c :: 0 < c < |scopes| ==> scopes[c].parent < c
  }

  /** ctx.Err() != nil: the scope or one it hangs below was cancelled. */
  predicate Done(scopes: seq<Scope>, c: nat)
    requires c < |scopes|
  {
    scopes[c].cancelled || (scopes[c].parent < c && Done(scopes, scopes[c].parent))
  }

  function Cancel(scopes: seq<Scope>, cs: set<nat>): (r: seq<Scope>)
    ensures |r| == |scopes|
    ensures forall c :: 0 <= c < |r| ==> r[c].parent == scopes[c].parent
                                         && (r[c].cancelled <==> scopes[c].cancelled || c in cs)
  {
    seq(|scopes|, c requires 0 <= c < |scopes| => Scope(scopes[c].parent, scopes[c].cancelled || c in cs))
  }

  /** The indices stored in a state are in range. */
  ghost predicate Closed(s: State) {
    && Rooted(s.scopes)
    && (forall k :: k in s.supervisors ==> 0 < k < |s.scopes|)
    && s.checking.Keys <= s.supervisors
    && (forall i :: 0 <= i < |s.incs| ==> s.incs[i].scope < |s.scopes|)
    && (forall id :: id in s.registry ==> s.registry[id] < |s.incs|)
    && (forall c :: c in s.sends ==> s.sends[c].i < |s.incs|)
  }

  function Register(s: State, id: Pid, capacity: nat, parent: nat): State {
    s.(scopes := s.scopes + [Scope(parent, false)],
       incs := s.incs + [Inc(id, |s.scopes|, capacity, true, false, [], [], [], [])],
       registry := s.registry[id := |s.incs|])
  }

  predicate HasSpace(p: Inc) {
    |p.mailbox| < p.capacity
  }

  function Accept(p: Inc, m: nat): Inc {
    p.(mailbox := p.mailbox + [m], accepted := p.accepted + [m])
  }

  function Begin(p: Inc): Inc
    requires p.mailbox != []
  {
    p.(inFlight := [p.mailbox[0]], mailbox := p.mailbox[1..])
  }

  function End(p: Inc): Inc {
    p.(inFlight := [], handled := p.handled + p.inFlight)
  }

  ghost predicate Enabled(s: State, a: Action)
    requires Closed(s)
  {
    match a
    case Spawn(_, capacity) => capacity >= 1
    case Supervise => true
    case CheckBegin(k, _) => k in s.supervisors && k !in s.checking && !Done(s.scopes, k)
    case Restart(k, _) => k in s.checking && s.checking[k] != []
    case CheckEnd(k) => k in s.checking && s.checking[k] == []
    case Kill(id) => id in s.registry
    case StopCancel => true
    case StopClear => s.scopes[0].cancelled
    case Lookup(c, id, _) => c !in s.sends && id in s.registry
    case CheckAlive(c) => c in s.sends && s.sends[c].Held?
    case Event(c, id, _) => c !in s.sends && id in s.registry && s.incs[s.registry[id]].alive
    case Push(c) => c in s.sends && (s.sends[c].Ready? || (s.sends[c].Waiting? && HasSpace(s.incs[s.sends[c].i])))
    case Take(i) => i < |s.incs| && !s.incs[i].exited && s.incs[i].inFlight == [] && s.incs[i].mailbox != []
    case Finish(i) => i < |s.incs| && s.incs[i].inFlight != []
    case Exit(i) => i < |s.incs| && !s.incs[i].exited && s.incs[i].inFlight == [] && Done(s.scopes, s.incs[i].scope)
  }

  ghost function Apply(s: State, a: Action): State
    requires Closed(s) && Enabled(s, a)
  {
    match a
    case Spawn(id, capacity) => if s.scopes[0].cancelled then s else Register(s, id, capacity, 0)
    case Supervise => s.(scopes := s.scopes + [Scope(0, false)], supervisors := s.supervisors + {|s.scopes|})
    case CheckBegin(k, targets) => s.(checking := s.checking[k := targets])
    case Restart(k, granted) =>
      var id := s.checking[k][0];
      var s' := s.(checking := s.checking[k := s.checking[k][1..]]);
      var evicted := if id in s.registry then {s.incs[s.registry[id]].scope} else {};
      if granted then Register(s'.(scopes := Cancel(s.scopes, evicted)), id, 100, k) else s'
    case CheckEnd(k) => s.(checking := s.checking - {k})
    case Kill(id) =>
      var i := s.registry[id];
      s.(scopes := Cancel(s.scopes, {s.incs[i].scope}), incs := s.incs[i := s.incs[i].(alive := false)],
         registry := s.registry - {id})
    case StopCancel => s.(scopes := Cancel(s.scopes, {0}))
    case StopClear =>
      var evicted := set id | id in s.registry :: s.incs[s.registry[id]].scope;
      s.(scopes := Cancel(s.scopes, evicted), registry := map[], cleared := true)
    case Lookup(c, id, m) => s.(sends := s.sends[c := Held(s.registry[id], m)])
    case CheckAlive(c) =>
      var i, m := s.sends[c].i, s.sends[c].m;
      s.(sends := if s.incs[i].alive then s.sends[c := Ready(i, m)] else s.sends - {c})
    case Event(c, id, m) => s.(sends := s.sends[c := Waiting(s.registry[id], m)])
    case Push(c) =>
      var i, m := s.sends[c].i, s.sends[c].m;
      var s' := s.(sends := s.sends - {c});
      var p := s.incs[i];
      if HasSpace(p) then
        s'.(incs := s.incs[i := Accept(p, m)],
            log := s.log + [(p.id, m)])
      else s'
    case Take(i) => s.(incs := s.incs[i := Begin(s.incs[i])])
    case Finish(i) => s.(incs := s.incs[i := End(s.incs[i])])
    case Exit(i) => s.(incs := s.incs[i := s.incs[i].(exited := true)])
  }

  lemma RegisterKeepsClosed(s: State, id: Pid, capacity: nat, parent: nat)
    requires Closed(s) && parent < |s.scopes|
    ensures Closed(Register(s, id, capacity, parent))
  {
  }

  lemma CancelKeepsClosed(s: State, cs: set<nat>)
    requires Closed(s)
    ensures Closed(s.(scopes := Cancel(s.scopes, cs)))
  {
  }

  lemma SendStepKeepsClosed(s: State, a: Action)
    requires Closed(s) && Enabled(s, a)
    requires a.Lookup? || a.CheckAlive? || a.Event? || a.Push?
    ensures Closed(Apply(s, a))
  {
    hide Done, Rooted, Cancel, Register, Begin, End;
  }

  lemma LoopStepKeepsClosed(s: State, a: Action)
    requires Closed(s) && Enabled(s, a)
    requires a.Take? || a.Finish? || a.Exit?
    ensures Closed(Apply(s, a))
  {
    hide Done, Cancel, Register, Rooted;
  }

  lemma StopStepKeepsClosed(s: State, a: Action)
    requires Closed(s) && Enabled(s, a)
    requires a.Kill? || a.StopCancel? || a.StopClear?
    ensures Closed(Apply(s, a))
  {
  }

  lemma StepKeepsClosed(s: State, a: Action)
    requires Closed(s) && Enabled(s, a)
    ensures Closed(Apply(s, a))
  {
    hide Done, Accept, Begin, End;
    match a
    case Spawn(id, capacity) =>
      RegisterKeepsClosed(s, id, capacity, 0);
    case Restart(k, granted) =>
      var id := s.checking[k][0];
      var evicted := if id in s.registry then {s.incs[s.registry[id]].scope} else {};
      var s' := s.(checking := s.checking[k := s.checking[k][1..]]);
      CancelKeepsClosed(s', evicted);
      RegisterKeepsClosed(s'.(scopes := Cancel(s.scopes, evicted)), id, 100, k);
    case Supervise =>
    case CheckBegin(_, _) =>
    case CheckEnd(_) =>
    case Kill(_) => StopStepKeepsClosed(s, a);
    case StopCancel => StopStepKeepsClosed(s, a);
    case StopClear => StopStepKeepsClosed(s, a);
    case Lookup(_, _, _) => SendStepKeepsClosed(s, a);
    case CheckAlive(_) => SendStepKeepsClosed(s, a);
    case Event(_, _, _) => SendStepKeepsClosed(s, a);
    case Push(_) => SendStepKeepsClosed(s, a);
    case Take(_) => LoopStepKeepsClosed(s, a);
    case Finish(_) => LoopStepKeepsClosed(s, a);
    case Exit(_) => LoopStepKeepsClosed(s, a);
  }

  /** `t` is reached from `s` by the actions, in this order. */
  ghost predicate Leads(s: State, actions: seq<Action>, t: State)
    requires Closed(s)
    decreases actions
  {
    if actions == [] then s == t
    else Enabled(s, actions[0]) && Closed(Apply(s, actions[0])) && Leads(Apply(s, actions[0]), actions[1..], t)
  }

  // ----- One incarnation: FIFO mailbox

  ghost predicate Fifo(p: Inc) {
    && p.accepted == p.handled + p.inFlight + p.mailbox
    && |p.mailbox| <= p.capacity && |p.inFlight| <= 1
    && (p.exited ==> p.inFlight == [])
  }

  // ----- One child over all its incarnations

  datatype Part = Accepted | Handled | Lost | Pending

  /** What part of the messages an incarnation accepted has been handled, is lost because its loop has ended,
      or may still be handled. */
  function PartOf(p: Inc, part: Part): seq<nat> {
    match part
    case Accepted => p.accepted
    case Handled => p.handled
    case Lost => if p.exited then p.mailbox else []
    case Pending => if p.exited then [] else p.inFlight + p.mailbox
  }

  /** How often message m occurs in one part of the incarnations of a child. */
  function Gather(incs: seq<Inc>, id: Pid, part: Part, m: nat): nat {
    if incs == [] then 0
    else
      var n := |incs| - 1;
      Gather(incs[..n], id, part, m) + (if incs[n].id == id then Count(PartOf(incs[n], part), m) else 0)
  }

  /** How many sends of m to this identifier returned without an error. */
  function Sent(log: seq<(Pid, nat)>, id: Pid, m: nat): nat {
    Count(log, (id, m))
  }

  /** Growing the list by incarnations that accepted nothing, or changing other parts, keeps what was accepted. */
  lemma {:induction false} AcceptedUnchanged(before: seq<Inc>, after: seq<Inc>, id: Pid, m: nat)
    requires |before| <= |after|
    requires forall i :: 0 <= i < |before| ==> after[i].id == before[i].id && after[i].accepted == before[i].accepted
    requires forall i :: |before| <= i < |after| ==> after[i].accepted == []
    ensures Gather(after, id, Accepted, m) == Gather(before, id, Accepted, m)
  {
    if after != [] {
      var n := |after| - 1;
      AcceptedUnchanged(if |before| == |after| then before[..n] else before, after[..n], id, m);
    }
  }

  lemma {:induction false} AcceptedOneMore(before: seq<Inc>, i: nat, p: Inc, x: nat, id: Pid, m: nat)
    requires i < |before| && p.id == before[i].id && p.accepted == before[i].accepted + [x]
    ensures Gather(before[i := p], id, Accepted, m)
            == Gather(before, id, Accepted, m) + (if (p.id, x) == (id, m) then 1 else 0)
  {
    var n := |before| - 1;
    var after := before[i := p];
    if i < n {
      AcceptedOneMore(before[..n], i, p, x, id, m);
      assert after[..n] == before[..n][i := p];
    } else {
      assert after[..n] == before[..n];
      CountConcat(before[i].accepted, [x], m);
      CountOne(x, m);
    }
  }

  lemma FifoSplits(p: Inc, m: nat)
    requires Fifo(p)
    ensures Count(PartOf(p, Accepted), m)
            == Count(PartOf(p, Handled), m) + Count(PartOf(p, Lost), m) + Count(PartOf(p, Pending), m)
  {
    CountConcat(p.handled + p.inFlight, p.mailbox, m);
    CountConcat(p.handled, p.inFlight, m);
    CountConcat(p.inFlight, p.mailbox, m);
  }

  lemma {:induction false} AcceptedSplits(incs: seq<Inc>, id: Pid, m: nat)
    requires forall i :: 0 <= i < |incs| ==> Fifo(incs[i])
    ensures Gather(incs, id, Accepted, m)
            == Gather(incs, id, Handled, m) + Gather(incs, id, Lost, m) + Gather(incs, id, Pending, m)
  {
    hide Fifo, PartOf, Count;
    if incs != [] {
      var n := |incs| - 1;
      AcceptedSplits(incs[..n], id, m);
      FifoSplits(incs[n], m);
    }
  }

  // ----- The invariant of every reachable state

  ghost predicate Logged(s: State) {
    forall id, m: nat :: Sent(s.log, id, m) == Gather(s.incs, id, Accepted, m)
  }

  /** A registered process is alive and has its own identifier, and once the registry has been emptied for good only a
      check that was under way can add to it. */
  ghost predicate Registered(s: State)
    requires Closed(s)
  {
    && (forall id :: id in s.registry ==> s.incs[s.registry[id]].id == id && s.incs[s.registry[id]].alive)
    && (s.cleared ==> s.scopes[0].cancelled)
  }

  ghost predicate Inv(s: State) {
    Closed(s) && (forall i :: 0 <= i < |s.incs| ==> Fifo(s.incs[i])) && Logged(s) && Registered(s)
  }

  /** A push that is accepted logs exactly the message it appends. */
  lemma PushLogs(s: State, c: nat)
    requires Closed(s) && Enabled(s, Push(c))
    ensures var t, i, m := Apply(s, Push(c)), s.sends[c].i, s.sends[c].m;
      || t == s.(sends := t.sends)
      || (&& i < |s.incs| && i < |t.incs|
          && t.log == s.log + [(s.incs[i].id, m)] && t.incs == s.incs[i := t.incs[i]]
          && t.incs[i].id == s.incs[i].id && t.incs[i].accepted == s.incs[i].accepted + [m])
  {
    hide Done;
  }

  /** Every other step leaves the log and what was accepted alone. */
  lemma OthersLogNothing(s: State, a: Action)
    requires Closed(s) && Enabled(s, a) && !a.Push?
    ensures var t := Apply(s, a);
      && t.log == s.log && |s.incs| <= |t.incs|
      && (forall i :: 0 <= i < |s.incs| ==> t.incs[i].id == s.incs[i].id && t.incs[i].accepted == s.incs[i].accepted)
      && (forall i :: |s.incs| <= i < |t.incs| ==> t.incs[i].accepted == [])
  {
    hide Done;
  }

  lemma StepKeepsLog(s: State, a: Action)
    requires Closed(s) && Logged(s) && Enabled(s, a)
    ensures Logged(Apply(s, a))
  {
    var t := Apply(s, a);
    if a.Push? {
      PushLogs(s, a.c);
    } else {
      OthersLogNothing(s, a);
    }
    hide Apply, Closed, Gather;
    forall id, m: nat
      ensures Sent(t.log, id, m) == Gather(t.incs, id, Accepted, m)
    {
      if t.log == s.log {
        AcceptedUnchanged(s.incs, t.incs, id, m);
      } else {
        var i, x := s.sends[a.c].i, s.sends[a.c].m;
        CountConcat(s.log, [(s.incs[i].id, x)], (id, m));
        CountOne((s.incs[i].id, x), (id, m));
        AcceptedOneMore(s.incs, i, t.incs[i], x, id, m);
      }
    }
  }

  lemma TrafficKeepsFifo(p: Inc, m: nat)
    requires Fifo(p)
    ensures |p.mailbox| < p.capacity ==> Fifo(Accept(p, m))
    ensures p.inFlight == [] && !p.exited && p.mailbox != [] ==> Fifo(Begin(p))
    ensures Fifo(End(p))
  {
  }

  lemma StepKeepsOneFifo(s: State, a: Action, i: nat)
    requires Closed(s) && Enabled(s, a) && i < |Apply(s, a).incs|
    requires i < |s.incs| ==> Fifo(s.incs[i])
    ensures Fifo(Apply(s, a).incs[i])
  {
    hide Done, Cancel, Accept, Begin, End;
    if i < |s.incs| {
      TrafficKeepsFifo(s.incs[i], if a.Push? then s.sends[a.c].m else 0);
    }
  }

  lemma StepKeepsFifo(s: State, a: Action)
    requires Closed(s) && Enabled(s, a)
    requires forall i :: 0 <= i < |s.incs| ==> Fifo(s.incs[i])
    ensures forall i :: 0 <= i < |Apply(s, a).incs| ==> Fifo(Apply(s, a).incs[i])
  {
    hide Apply, Enabled, Fifo;
    forall i | 0 <= i < |Apply(s, a).incs|
      ensures Fifo(Apply(s, a).incs[i])
    {
      StepKeepsOneFifo(s, a, i);
    }
  }

  lemma LoopStepFrame(s: State, a: Action, i: nat)
    requires Closed(s) && Enabled(s, a)
    requires a.Take? || a.Finish? || a.Exit?
    ensures var t := Apply(s, a);
      && t.registry == s.registry && t.cleared == s.cleared
      && t.scopes == s.scopes && t.supervisors == s.supervisors && |t.incs| == |s.incs|
      && (i < |s.incs| ==> var p, q := s.incs[i], t.incs[i]; q.id == p.id && q.alive == p.alive && q.scope == p.scope)
  {
    hide Done, Cancel, Register, Closed;
  }

  lemma SendStepFrame(s: State, a: Action, i: nat)
    requires Closed(s) && Enabled(s, a)
    requires a.Lookup? || a.CheckAlive? || a.Event? || a.Push?
    ensures var t := Apply(s, a);
      && t.registry == s.registry && t.cleared == s.cleared
      && t.scopes == s.scopes && t.supervisors == s.supervisors && |t.incs| == |s.incs|
      && (i < |s.incs| ==> var p, q := s.incs[i], t.incs[i]; q.id == p.id && q.alive == p.alive && q.scope == p.scope)
  {
    hide Done, Rooted, Cancel, Register, Begin, End;
  }

  /** Mailbox traffic changes no name, no registration and no scope. */
  lemma MailboxStepFrame(s: State, a: Action, i: nat)
    requires Closed(s) && Enabled(s, a)
    requires a.Lookup? || a.CheckAlive? || a.Event? || a.Push? || a.Take? || a.Finish? || a.Exit?
    ensures var t := Apply(s, a);
      && t.registry == s.registry && t.cleared == s.cleared
      && t.scopes == s.scopes && t.supervisors == s.supervisors && |t.incs| == |s.incs|
      && (i < |s.incs| ==> var p, q := s.incs[i], t.incs[i]; q.id == p.id && q.alive == p.alive && q.scope == p.scope)
  {
    hide Apply, Enabled, Closed;
    if a.Take? || a.Finish? || a.Exit? {
      LoopStepFrame(s, a, i);
    } else {
      SendStepFrame(s, a, i);
    }
  }

  lemma MailboxStepKeepsRegistered(s: State, a: Action)
    requires Closed(s) && Registered(s) && Enabled(s, a) && Closed(Apply(s, a))
    requires a.Lookup? || a.CheckAlive? || a.Event? || a.Push? || a.Take? || a.Finish? || a.Exit?
    ensures Registered(Apply(s, a))
  {
    hide Apply, Enabled, Done;
    MailboxStepFrame(s, a, 0);
    forall id | id in s.registry
      ensures Apply(s, a).incs[s.registry[id]].id == id && Apply(s, a).incs[s.registry[id]].alive
    {
      MailboxStepFrame(s, a, s.registry[id]);
    }
  }

  lemma StopStepKeepsRegistered(s: State, a: Action)
    requires Closed(s) && Registered(s) && Enabled(s, a) && Closed(Apply(s, a))
    requires a.Kill? || a.StopCancel? || a.StopClear?
    ensures Registered(Apply(s, a))
  {
  }

  lemma SpawnKeepsRegistered(s: State, a: Action)
    requires Closed(s) && Registered(s) && Enabled(s, a) && Closed(Apply(s, a))
    requires a.Spawn? || a.Restart?
    ensures Registered(Apply(s, a))
  {
    hide Done;
  }

  lemma StepKeepsRegistered(s: State, a: Action)
    requires Closed(s) && Registered(s) && Enabled(s, a)
    ensures Closed(Apply(s, a)) && Registered(Apply(s, a))
  {
    StepKeepsClosed(s, a);
    hide Closed, Done;
    match a
    case Spawn(_, _) => SpawnKeepsRegistered(s, a);
    case Restart(_, _) => SpawnKeepsRegistered(s, a);
    case Supervise =>
    case CheckBegin(_, _) =>
    case CheckEnd(_) =>
    case Kill(_) => StopStepKeepsRegistered(s, a);
    case StopCancel => StopStepKeepsRegistered(s, a);
    case StopClear => StopStepKeepsRegistered(s, a);
    case Lookup(_, _, _) => MailboxStepKeepsRegistered(s, a);
    case CheckAlive(_) => MailboxStepKeepsRegistered(s, a);
    case Event(_, _, _) => MailboxStepKeepsRegistered(s, a);
    case Push(_) => MailboxStepKeepsRegistered(s, a);
    case Take(_) => MailboxStepKeepsRegistered(s, a);
    case Finish(_) => MailboxStepKeepsRegistered(s, a);
    case Exit(_) => MailboxStepKeepsRegistered(s, a);
  }

  lemma {:induction false} RunKeepsInv(s: State, actions: seq<Action>, t: State)
    requires Inv(s) && Leads(s, actions, t)
    ensures Inv(t)
    decreases actions
  {
    if actions != [] {
      StepKeepsClosed(s, actions[0]);
      StepKeepsFifo(s, actions[0]);
      StepKeepsLog(s, actions[0]);
      StepKeepsRegistered(s, actions[0]);
      RunKeepsInv(Apply(s, actions[0]), actions[1..], t);
    }
  }

  /** Main result: in every reachable state, each message accepted for an identifier has been handled, is lost in the
      mailbox of an incarnation whose loop has ended, or is still pending, as often as it was accepted. */
  lemma NothingVanishesSilently(actions: seq<Action>, t: State, id: Pid, m: nat)
    requires Closed(INIT) && Leads(INIT, actions, t)
    ensures Sent(t.log, id, m)
            == Gather(t.incs, id, Handled, m) + Gather(t.incs, id, Lost, m) + Gather(t.incs, id, Pending, m)
  {
    RunKeepsInv(INIT, actions, t);
    AcceptedSplits(t.incs, id, m);
  }

  /** In every reachable state each incarnation has handled a prefix of what it accepted, within its capacity. */
  lemma HandledInOrder(actions: seq<Action>, t: State, i: nat)
    requires Closed(INIT) && Leads(INIT, actions, t) && i < |t.incs|
    ensures t.incs[i].handled <= t.incs[i].accepted && |t.incs[i].mailbox| <= t.incs[i].capacity
  {
    RunKeepsInv(INIT, actions, t);
    assert Fifo(t.incs[i]);
  }

  lemma LostPush(s: State, c: nat, i: nat)
    requires Closed(s) && Enabled(s, Push(c)) && i < |s.incs| && s.incs[i].exited && s.incs[i].inFlight == []
    ensures var p, q := s.incs[i], Apply(s, Push(c)).incs[i];
      q.exited && q.inFlight == [] && q.handled == p.handled && p.mailbox <= q.mailbox
  {
    hide Done;
  }

  lemma LostStep(s: State, a: Action, i: nat)
    requires Closed(s) && Enabled(s, a) && i < |s.incs| && s.incs[i].exited && s.incs[i].inFlight == []
    ensures i < |Apply(s, a).incs|
    ensures var p, q := s.incs[i], Apply(s, a).incs[i];
      q.exited && q.inFlight == [] && q.handled == p.handled && p.mailbox <= q.mailbox
  {
    hide Done, Cancel, Accept;
    if a.Push? {
      LostPush(s, a.c, i);
    }
  }

  /** What is lost stays lost: an ended loop handles nothing more, whatever is still pushed into its mailbox. */
  lemma {:induction false} LostStaysLost(s: State, actions: seq<Action>, t: State, i: nat)
    requires Closed(s) && Leads(s, actions, t) && i < |s.incs| && s.incs[i].exited && s.incs[i].inFlight == []
    ensures i < |t.incs| && t.incs[i].exited && t.incs[i].handled == s.incs[i].handled
    ensures s.incs[i].mailbox <= t.incs[i].mailbox
    decreases actions
  {
    if actions != [] {
      LostStep(s, actions[0], i);
      LostStaysLost(Apply(s, actions[0]), actions[1..], t, i);
    }
  }

  // ----- Stop

  /** Every scope hangs below the node's, so cancelling that one cancels them all. */
  lemma {:induction false} RootReachesAll(scopes: seq<Scope>, c: nat)
    requires Rooted(scopes) && scopes[0].cancelled && c < |scopes|
    ensures Done(scopes, c)
  {
    if c > 0 {
      RootReachesAll(scopes, scopes[c].parent);
    }
  }

  lemma {:induction false} StoppedStaysStopped(s: State, actions: seq<Action>, t: State)
    requires Closed(s) && Leads(s, actions, t) && s.scopes[0].cancelled
    ensures Closed(t) && t.scopes[0].cancelled
    decreases actions
  {
    if actions != [] {
      StoppedStaysStopped(Apply(s, actions[0]), actions[1..], t);
    }
  }

  ghost predicate AllCancelled(s: State) {
    Closed(s) && forall i :: 0 <= i < |s.incs| ==> Done(s.scopes, s.incs[i].scope)
  }

  /** From the first half of Stop on, every incarnation ever created is cancelled: the registered ones, those
      overwritten by a re-used identifier, and those a check under way still adds. */
  lemma AfterStopEveryIncarnationIsCancelled(s: State, actions: seq<Action>, t: State)
    requires Closed(s) && Leads(s, actions, t) && s.scopes[0].cancelled
    ensures AllCancelled(t)
  {
    StoppedStaysStopped(s, actions, t);
    forall i | 0 <= i < |t.incs| {
      RootReachesAll(t.scopes, t.incs[i].scope);
    }
  }

  /** No check under way has a child left to attempt. */
  ghost predicate ChecksSpent(s: State) {
    forall k :: k in s.checking ==> s.checking[k] == []
  }

  lemma EmptyStep(s: State, a: Action)
    requires Closed(s) && Enabled(s, a) && s.scopes[0].cancelled && s.registry == map[] && ChecksSpent(s)
    ensures Closed(Apply(s, a)) && Apply(s, a).scopes[0].cancelled && Apply(s, a).registry == map[]
    ensures ChecksSpent(Apply(s, a))
  {
    StepKeepsClosed(s, a);
    if a.CheckBegin? {
      RootReachesAll(s.scopes, a.sup);
    }
    hide Done, Accept, Begin, End, Register;
  }

  lemma {:induction false} EmptyUnlessCheckUnderWay(s: State, actions: seq<Action>, t: State)
    requires Closed(s) && Leads(s, actions, t)
    requires s.scopes[0].cancelled && s.registry == map[] && ChecksSpent(s)
    ensures t.registry == map[]
    decreases actions
  {
    hide Apply, ChecksSpent;
    if actions != [] {
      EmptyStep(s, actions[0]);
      EmptyUnlessCheckUnderWay(Apply(s, actions[0]), actions[1..], t);
    }
  }

  lemma CaughtCheckRegisters(s: State, k: nat)
    requires Closed(s) && k in s.checking && s.checking[k] != []
    ensures exists actions, t :: Leads(s, actions, t) && t.registry != map[]
  {
    var a := Action.Restart(k, true);
    var t := Apply(s, a);
    StepKeepsClosed(s, a);
    assert Leads(t, [a][1..], t);
    assert s.checking[k][0] in t.registry;
    assert Leads(s, [a], t);
  }

  ghost predicate StaysEmpty(s: State)
    requires Closed(s)
  {
    forall actions, t :: Leads(s, actions, t) ==> t.registry == map[]
  }

  /** After Stop the registry stays empty in every continuation exactly when no check was caught in the middle. */
  lemma RegistryStaysEmptyExactlyWhen(s: State)
    requires Closed(s) && s.scopes[0].cancelled && s.registry == map[]
    ensures StaysEmpty(s) <==> ChecksSpent(s)
  {
    if ChecksSpent(s) {
      forall actions, t | Leads(s, actions, t)
        ensures t.registry == map[]
      {
        EmptyUnlessCheckUnderWay(s, actions, t);
      }
    } else {
      var k :| k in s.checking && s.checking[k] != [];
      CaughtCheckRegisters(s, k);
    }
  }

  // ----- Runs that show the races

  lemma LeadsOn(s: State, a: Action, s': State, rest: seq<Action>, t: State)
    requires Closed(s) && Enabled(s, a) && Apply(s, a) == s' && Closed(s') && Leads(s', rest, t)
    ensures Leads(s, [a] + rest, t)
  {
    assert ([a] + rest)[1..] == rest;
  }

  /** Stop came in while a check was on its way to some child, and the registry need not stay empty. */
  ghost predicate CaughtByStop(s: State) {
    Closed(s) && s.scopes[0].cancelled && s.registry == map[] && s.cleared && !StaysEmpty(s)
  }

  lemma StopDuringCheck(s: State, k: nat) returns (t: State)
    requires Closed(s) && k in s.checking && s.checking[k] != []
    ensures Leads(s, [StopCancel] + ([StopClear] + []), t) && CaughtByStop(t)
  {
    hide Done, Rooted, Register, StaysEmpty;
    var s1 := Apply(s, StopCancel);
    StepKeepsClosed(s, StopCancel);
    t := Apply(s1, StopClear);
    StepKeepsClosed(s1, StopClear);
    LeadsOn(s1, StopClear, t, [], t);
    LeadsOn(s, StopCancel, s1, [StopClear] + [], t);
    RegistryStaysEmptyExactlyWhen(t);
  }

  /** From every state with a live supervisor that is not checking, Stop can catch its next check on the way to any
      child. If that child has no tracker, or only an old one, the tracker grants the restart
      (RestartIntensity.QuietChildIsGranted), so the free choice in Restart is a real one. */
  lemma StopCanCatchACheck(s: State, k: nat, id: Pid)
    requires Closed(s) && k in s.supervisors && k !in s.checking && !Done(s.scopes, k)
    ensures exists actions, t :: Leads(s, actions, t) && CaughtByStop(t)
  {
    var s1 := s.(checking := s.checking[k := [id]]);
    hide Leads, CaughtByStop, Done, Rooted;
    var t := StopDuringCheck(s1, k);
    LeadsOn(s, CheckBegin(k, [id]), s1, [StopCancel] + ([StopClear] + []), t);
  }

  /** A fresh node reaches such a state by starting a supervisor. */
  lemma FreshNodeSupervises()
    ensures Closed(INIT) && Closed(Apply(INIT, Supervise))
    ensures var s := Apply(INIT, Supervise); 1 in s.supervisors && 1 !in s.checking && !Done(s.scopes, 1)
  {
    var s := Apply(INIT, Supervise);
    assert !Done(s.scopes, 0);
  }

  /** A Send that has found the process alive while it is killed: the loop ends, then the message is accepted. */
  lemma PushAfterKill(s: State, id: Pid, c: nat) returns (actions: seq<Action>, t: State)
    requires Closed(s) && Registered(s) && id in s.registry && Enabled(s, Push(c)) && s.sends[c].i == s.registry[id]
    requires var p := s.incs[s.registry[id]]; !p.exited && p.inFlight == [] && |p.mailbox| < p.capacity
    ensures Leads(s, actions, t) && LostIn(s, t, id, s.sends[c].m)
  {
    var i := s.registry[id];
    var s1 := Apply(s, Action.Kill(id));
    StepKeepsClosed(s, Action.Kill(id));
    assert Done(s1.scopes, s1.incs[i].scope);
    var s2 := Apply(s1, Exit(i));
    StepKeepsClosed(s1, Exit(i));
    t := Apply(s2, Push(c));
    StepKeepsClosed(s2, Push(c));
    LeadsOn(s2, Push(c), t, [], t);
    LeadsOn(s1, Exit(i), s2, [Push(c)] + [], t);
    LeadsOn(s, Action.Kill(id), s1, [Exit(i)] + ([Push(c)] + []), t);
    actions := [Action.Kill(id)] + ([Exit(i)] + ([Push(c)] + []));
  }

  /** A look-up and an alive check in a row. */
  lemma SendGetsReady(s: State, id: Pid, m: nat, c: nat)
    requires Closed(s) && id in s.registry && s.incs[s.registry[id]].alive && c !in s.sends
    ensures Closed(Apply(s, Lookup(c, id, m))) && Enabled(Apply(s, Lookup(c, id, m)), CheckAlive(c))
    ensures Apply(Apply(s, Lookup(c, id, m)), CheckAlive(c)) == s.(sends := s.sends[c := Ready(s.registry[id], m)])
  {
    StepKeepsClosed(s, Lookup(c, id, m));
    hide Rooted, Done;
    assert s.sends[c := Held(s.registry[id], m)][c := Ready(s.registry[id], m)]
           == s.sends[c := Ready(s.registry[id], m)];
  }

  /** Since `s` one more send of m to the identifier succeeded, and it lies in the mailbox of an ended incarnation. */
  ghost predicate LostIn(s: State, t: State, id: Pid, m: nat)
    requires id in s.registry && s.registry[id] < |s.incs|
  {
    var i := s.registry[id];
    && i < |t.incs| && t.log == s.log + [(id, m)]
    && t.incs[i].exited && t.incs[i].handled == s.incs[i].handled && t.incs[i].mailbox == s.incs[i].mailbox + [m]
  }

  lemma SendThenKill(s: State, id: Pid, m: nat, c: nat) returns (actions: seq<Action>, t: State)
    requires Closed(s) && Registered(s) && id in s.registry && c !in s.sends
    requires var p := s.incs[s.registry[id]]; !p.exited && p.inFlight == [] && |p.mailbox| < p.capacity
    ensures Leads(s, actions, t) && LostIn(s, t, id, m)
  {
    SendGetsReady(s, id, m, c);
    hide Apply, Rooted, Leads, Done;
    var s1, s2 := Apply(s, Lookup(c, id, m)), s.(sends := s.sends[c := Ready(s.registry[id], m)]);
    actions, t := PushAfterKill(s2, id, c);
    LeadsOn(s1, CheckAlive(c), s2, actions, t);
    actions := [CheckAlive(c)] + actions;
    LeadsOn(s, Lookup(c, id, m), s1, actions, t);
    actions := [Lookup(c, id, m)] + actions;
  }

  /** From every state with an idle registered process, a Send by any caller and a concurrent Kill can both succeed with
      the message lost for good (LostStaysLost): no continuation handles it. */
  lemma KillCanLoseASend(s: State, id: Pid, m: nat, c: nat)
    requires Closed(s) && Registered(s) && id in s.registry && c !in s.sends
    requires var p := s.incs[s.registry[id]]; !p.exited && p.inFlight == [] && |p.mailbox| < p.capacity
    ensures exists actions, t :: Leads(s, actions, t) && LostIn(s, t, id, m)
  {
    hide Leads, LostIn;
    var actions, t := SendThenKill(s, id, m, c);
  }
}
