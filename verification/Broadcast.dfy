/** BroadcastParallel: a snapshot of sockets, a job channel with room for all of them, a bounded pool of workers, and a
    caller that feeds the channel, closes it and waits. Every interleaving of caller and workers is a run. */
module Broadcast {
  import opened Common

  type Socket = nat

  datatype Worker = Waiting | Sending(s: Socket) | Exited

  datatype State = State(capacity: nat, toQueue: seq<Socket>, jobs: seq<Socket>, closed: bool, workers: seq<Worker>,
                         sent: seq<Socket>, returned: bool)

  datatype Action =
    | Queue
    | CloseJobs
    | Receive(w: nat)
    | SendDone(w: nat)
    | Exit(w: nat)
    | Return

  /** Workers started for a snapshot; a limit of 0 or less starts none. */
  function WorkerCount(n: nat, limit: int): nat {
    if Min(n, limit) > 0 then Min(n, limit) else 0
  }

  /** An empty snapshot returns at once. */
  function Init(snapshot: seq<Socket>, limit: int): State {
    if snapshot == [] then State(0, [], [], true, [], [], true)
    else State(|snapshot|, snapshot, [], false, seq(WorkerCount(|snapshot|, limit), _ => Waiting), [], false)
  }

  predicate Enabled(s: State, a: Action) {
    && !s.returned
    && match a
       case Queue => s.toQueue != [] && |s.jobs| < s.capacity
       case CloseJobs => s.toQueue == [] && !s.closed
       case Receive(w) => w < |s.workers| && s.workers[w].Waiting? && s.jobs != []
       case SendDone(w) => w < |s.workers| && s.workers[w].Sending?
       case Exit(w) => w < |s.workers| && s.workers[w].Waiting? && s.jobs == [] && s.closed
       case Return => s.closed && forall w :: 0 <= w < |s.workers| ==> s.workers[w].Exited?
  }

  function Apply(s: State, a: Action): State
    requires Enabled(s, a)
  {
    match a
    case Queue => s.(toQueue := s.toQueue[1..], jobs := s.jobs + [s.toQueue[0]])
    case CloseJobs => s.(closed := true)
    case Receive(w) => s.(jobs := s.jobs[1..], workers := s.workers[w := Sending(s.jobs[0])])
    case SendDone(w) => s.(workers := s.workers[w := Waiting], sent := s.sent + [s.workers[w].s])
    case Exit(w) => s.(workers := s.workers[w := Exited])
    case Return => s.(returned := true)
  }

  ghost predicate Leads(s: State, actions: seq<Action>, t: State)
    decreases actions
  {
    if actions == [] then s == t
    else Enabled(s, actions[0]) && Leads(Apply(s, actions[0]), actions[1..], t)
  }

  // ----- Every socket is in one place

  function InFlight(ws: seq<Worker>, x: Socket): nat {
    if ws == [] then 0
    else InFlight(ws[..|ws| - 1], x) + (if ws[|ws| - 1] == Sending(x) then 1 else 0)
  }

  function Copies(s: State, x: Socket): nat {
    Count(s.toQueue, x) + Count(s.jobs, x) + InFlight(s.workers, x) + Count(s.sent, x)
  }

  lemma {:induction false} InFlightUpdate(ws: seq<Worker>, w: nat, p: Worker, x: Socket)
    requires w < |ws|
    ensures InFlight(ws[w := p], x)
            == InFlight(ws, x) - (if ws[w] == Sending(x) then 1 else 0) + (if p == Sending(x) then 1 else 0)
  {
    var n := |ws| - 1;
    if w < n {
      InFlightUpdate(ws[..n], w, p, x);
      assert ws[w := p][..n] == ws[..n][w := p];
    } else {
      assert ws[w := p][..n] == ws[..n];
    }
  }

  lemma StepKeepsCopies(s: State, a: Action, x: Socket)
    requires Enabled(s, a)
    ensures Copies(Apply(s, a), x) == Copies(s, x)
  {
    match a
    case Queue =>
      assert s.toQueue == [s.toQueue[0]] + s.toQueue[1..];
      CountConcat([s.toQueue[0]], s.toQueue[1..], x);
      CountConcat(s.jobs, [s.toQueue[0]], x);
    case CloseJobs =>
    case Receive(w) =>
      assert s.jobs == [s.jobs[0]] + s.jobs[1..];
      CountConcat([s.jobs[0]], s.jobs[1..], x);
      CountOne(s.jobs[0], x);
      InFlightUpdate(s.workers, w, Sending(s.jobs[0]), x);
    case SendDone(w) =>
      CountConcat(s.sent, [s.workers[w].s], x);
      CountOne(s.workers[w].s, x);
      InFlightUpdate(s.workers, w, Waiting, x);
    case Exit(w) =>
      InFlightUpdate(s.workers, w, Exited, x);
    case Return =>
  }

  /** A worker ends only when the closed channel is empty, and the caller closes it only when everything is queued. */
  ghost predicate Inv(s: State) {
    && |s.toQueue| + |s.jobs| <= s.capacity
    && (s.closed ==> s.toQueue == [])
    && (forall w :: 0 <= w < |s.workers| && s.workers[w].Exited? ==> s.closed && s.jobs == [])
    && (s.returned ==> s.closed && forall w :: 0 <= w < |s.workers| ==> s.workers[w].Exited?)
  }

  lemma StepKeepsInv(s: State, a: Action)
    requires Inv(s) && Enabled(s, a)
    ensures Inv(Apply(s, a)) && |Apply(s, a).workers| == |s.workers|
  {
  }

  lemma {:induction false} RunKeepsInv(s: State, actions: seq<Action>, t: State)
    requires Inv(s) && Leads(s, actions, t)
    ensures Inv(t) && |t.workers| == |s.workers|
    ensures forall x :: Copies(t, x) == Copies(s, x)
    decreases actions
  {
    if actions != [] {
      StepKeepsInv(s, actions[0]);
      forall x {
        StepKeepsCopies(s, actions[0], x);
      }
      RunKeepsInv(Apply(s, actions[0]), actions[1..], t);
    }
  }

  // ----- Progress

  /** Jobs count 3 until queued, 2 until received and 1 until sent; live workers, the close and the return count 1. */
  function Measure(s: State): nat {
    3 * |s.toQueue| + 2 * |s.jobs| + Work(s.workers) + (if s.closed then 0 else 1) + (if s.returned then 0 else 1)
  }

  function Work(ws: seq<Worker>): nat {
    if ws == [] then 0 else Work(ws[..|ws| - 1]) + Weight(ws[|ws| - 1])
  }

  function Weight(w: Worker): nat {
    match w
    case Waiting => 1
    case Sending(_) => 2
    case Exited => 0
  }

  lemma {:induction false} WorkUpdate(ws: seq<Worker>, w: nat, p: Worker)
    requires w < |ws|
    ensures Work(ws[w := p]) == Work(ws) - Weight(ws[w]) + Weight(p)
  {
    var n := |ws| - 1;
    if w < n {
      WorkUpdate(ws[..n], w, p);
      assert ws[w := p][..n] == ws[..n][w := p];
    } else {
      assert ws[w := p][..n] == ws[..n];
    }
  }

  /** Every step makes the measure smaller, so no schedule runs forever. */
  lemma StepDecreases(s: State, a: Action)
    requires Enabled(s, a)
    ensures Measure(Apply(s, a)) < Measure(s)
  {
    if a.Receive? || a.SendDone? || a.Exit? {
      WorkUpdate(s.workers, a.w, Apply(s, a).workers[a.w]);
    }
  }

  /** The caller's next queueing step never has to wait for room in the channel. */
  lemma ProducerNeverBlocks(s: State)
    requires Inv(s) && !s.returned && s.toQueue != []
    ensures Enabled(s, Queue)
  {
  }

  /** Until the broadcast has returned, someone can move. */
  lemma NeverStuck(s: State)
    requires Inv(s) && !s.returned
    ensures exists a :: Enabled(s, a)
  {
    if s.toQueue != [] {
      ProducerNeverBlocks(s);
    } else if !s.closed {
      assert Enabled(s, CloseJobs);
    } else if exists w :: 0 <= w < |s.workers| && !s.workers[w].Exited? {
      var w :| 0 <= w < |s.workers| && !s.workers[w].Exited?;
      if s.workers[w].Sending? {
        assert Enabled(s, SendDone(w));
      } else if s.jobs != [] {
        assert Enabled(s, Receive(w));
      } else {
        assert Enabled(s, Exit(w));
      }
    } else {
      assert Enabled(s, Return);
    }
  }

  // ----- Main results

  lemma InitFacts(snapshot: seq<Socket>, limit: int)
    ensures Inv(Init(snapshot, limit))
    ensures |Init(snapshot, limit).workers| == WorkerCount(|snapshot|, limit)
    ensures forall x :: Copies(Init(snapshot, limit), x) == Count(snapshot, x)
  {
    forall x {
      NoneInFlight(Init(snapshot, limit).workers, x);
    }
  }

  lemma {:induction false} NoneInFlight(ws: seq<Worker>, x: Socket)
    requires forall w :: 0 <= w < |ws| ==> !ws[w].Sending?
    ensures InFlight(ws, x) == 0
  {
    if ws != [] {
      NoneInFlight(ws[..|ws| - 1], x);
    }
  }

  function Sends(ws: seq<Worker>): nat {
    if ws == [] then 0 else Sends(ws[..|ws| - 1]) + (if ws[|ws| - 1].Sending? then 1 else 0)
  }

  lemma {:induction false} SendsBound(ws: seq<Worker>)
    ensures Sends(ws) <= |ws|
  {
    if ws != [] {
      SendsBound(ws[..|ws| - 1]);
    }
  }

  /** Safety of every schedule: no socket is sent to more often than it occurs in the snapshot, and at most
      min(n, limit) sends are under way. */
  lemma AtMostOnce(snapshot: seq<Socket>, limit: int, actions: seq<Action>, t: State, x: Socket)
    requires Leads(Init(snapshot, limit), actions, t)
    ensures Count(t.sent, x) + InFlight(t.workers, x) <= Count(snapshot, x)
    ensures Sends(t.workers) <= |snapshot| && Sends(t.workers) <= (if limit >= 1 then limit else 0)
  {
    InitFacts(snapshot, limit);
    RunKeepsInv(Init(snapshot, limit), actions, t);
    assert Copies(t, x) == Copies(Init(snapshot, limit), x);
    SendsBound(t.workers);
  }

  /** When the broadcast returns, every socket of the snapshot was sent to exactly once, provided a worker was started;
      otherwise none was. */
  lemma ReturnedMeansDelivered(snapshot: seq<Socket>, limit: int, actions: seq<Action>, t: State)
    requires Leads(Init(snapshot, limit), actions, t) && t.returned
    ensures limit >= 1 ==> forall x :: Count(t.sent, x) == Count(snapshot, x)
    ensures limit < 1 ==> t.sent == []
  {
    InitFacts(snapshot, limit);
    RunKeepsInv(Init(snapshot, limit), actions, t);
    forall x
      ensures limit >= 1 ==> Count(t.sent, x) == Count(snapshot, x)
    {
      assert Copies(t, x) == Copies(Init(snapshot, limit), x);
      NoneInFlight(t.workers, x);
      if limit >= 1 && snapshot != [] {
        assert t.workers[0].Exited?;
      }
    }
    if limit < 1 {
      NoWorkerNoSend(Init(snapshot, limit), actions, t);
    }
  }

  lemma {:induction false} NoWorkerNoSend(s: State, actions: seq<Action>, t: State)
    requires Leads(s, actions, t) && s.workers == [] && s.sent == []
    ensures t.sent == []
    decreases actions
  {
    if actions != [] {
      NoWorkerNoSend(Apply(s, actions[0]), actions[1..], t);
    }
  }

  lemma {:induction false} LeadsSnoc(s: State, actions: seq<Action>, t: State, a: Action)
    requires Leads(s, actions, t) && Enabled(t, a)
    ensures Leads(s, actions + [a], Apply(t, a))
    decreases actions
  {
    if actions == [] {
      assert [a][1..] == [];
    } else {
      LeadsSnoc(Apply(s, actions[0]), actions[1..], t, a);
      assert (actions + [a])[1..] == actions[1..] + [a];
    }
  }

  /** The caller has queued the whole snapshot and the first k workers have taken a job each. */
  function AllQueued(snapshot: seq<Socket>, limit: int, k: nat): State
    requires k <= WorkerCount(|snapshot|, limit)
  {
    State(|snapshot|, [], snapshot[k..], false,
          seq(WorkerCount(|snapshot|, limit), w requires 0 <= w => if w < k then Sending(snapshot[w]) else Waiting),
          [], false)
  }

  lemma {:induction false} QueueAll(snapshot: seq<Socket>, limit: int, k: nat) returns (actions: seq<Action>)
    requires 0 < |snapshot| && k <= |snapshot|
    ensures Leads(Init(snapshot, limit), actions,
                  Init(snapshot, limit).(toQueue := snapshot[k..], jobs := snapshot[..k]))
  {
    if k == 0 {
      actions := [];
    } else {
      actions := QueueAll(snapshot, limit, k - 1);
      var s := Init(snapshot, limit).(toQueue := snapshot[k - 1..], jobs := snapshot[..k - 1]);
      LeadsSnoc(Init(snapshot, limit), actions, s, Queue);
      actions := actions + [Queue];
      assert snapshot[k - 1..][1..] == snapshot[k..] && snapshot[..k - 1] + [snapshot[k - 1]] == snapshot[..k];
    }
  }

  lemma {:induction false} TakeOneEach(snapshot: seq<Socket>, limit: int, k: nat) returns (actions: seq<Action>)
    requires 0 < |snapshot| && k <= WorkerCount(|snapshot|, limit)
    ensures Leads(Init(snapshot, limit), actions, AllQueued(snapshot, limit, k))
  {
    if k == 0 {
      actions := QueueAll(snapshot, limit, |snapshot|);
      assert snapshot[..|snapshot|] == snapshot == snapshot[0..] && snapshot[|snapshot|..] == [];
      assert AllQueued(snapshot, limit, 0).workers == Init(snapshot, limit).workers;
    } else {
      actions := TakeOneEach(snapshot, limit, k - 1);
      var s, t := AllQueued(snapshot, limit, k - 1), AllQueued(snapshot, limit, k);
      LeadsSnoc(Init(snapshot, limit), actions, s, Receive(k - 1));
      actions := actions + [Receive(k - 1)];
      assert s.jobs[0] == snapshot[k - 1] && s.jobs[1..] == t.jobs;
      assert Apply(s, Receive(k - 1)).workers == t.workers;
    }
  }

  lemma {:induction false} AllSending(ws: seq<Worker>)
    requires forall w :: 0 <= w < |ws| ==> ws[w].Sending?
    ensures Sends(ws) == |ws|
  {
    if ws != [] {
      AllSending(ws[..|ws| - 1]);
    }
  }

  /** The bound is met: in some schedule min(n, limit) sends are under way at once. */
  lemma PoolCanBeFull(snapshot: seq<Socket>, limit: int) returns (actions: seq<Action>, t: State)
    requires 0 < |snapshot| && limit >= 1
    ensures Leads(Init(snapshot, limit), actions, t) && Sends(t.workers) == Min(|snapshot|, limit)
  {
    var k := WorkerCount(|snapshot|, limit);
    t := AllQueued(snapshot, limit, k);
    actions := TakeOneEach(snapshot, limit, k);
    AllSending(t.workers);
  }

  method Perform(s: State, a: Action, ghost init: State, ghost run: seq<Action>)
    returns (t: State, ghost run': seq<Action>)
    requires Inv(s) && Enabled(s, a) && Leads(init, run, s)
    ensures t == Apply(s, a) && Inv(t) && Measure(t) < Measure(s) && Leads(init, run', t)
  {
    t := Apply(s, a);
    StepKeepsInv(s, a);
    StepDecreases(s, a);
    LeadsSnoc(init, run, s, a);
    run' := run + [a];
  }

  /** The broadcast under an arbitrary scheduler: whatever is chosen among the steps that are possible, it returns, and
      every socket of the snapshot was sent to exactly once, or none if the limit starts no worker. */
  method BroadcastParallel(snapshot: seq<Socket>, workerLimit: int) returns (sent: seq<Socket>)
    ensures workerLimit >= 1 ==> forall x :: Count(sent, x) == Count(snapshot, x)
    ensures workerLimit < 1 ==> sent == []
  {
    var s := Init(snapshot, workerLimit);
    ghost var init, run := s, [];
    InitFacts(snapshot, workerLimit);
    while !s.returned
      invariant Inv(s) && Leads(init, run, s)
      decreases Measure(s)
    {
      NeverStuck(s);
      if {
        case s.toQueue != [] => s, run := Perform(s, Queue, init, run);
        case Enabled(s, CloseJobs) => s, run := Perform(s, CloseJobs, init, run);
        case w: nat :| w < |s.workers| && Enabled(s, Receive(w)) => s, run := Perform(s, Receive(w), init, run);
        case w: nat :| w < |s.workers| && Enabled(s, SendDone(w)) => s, run := Perform(s, SendDone(w), init, run);
        case w: nat :| w < |s.workers| && Enabled(s, Exit(w)) => s, run := Perform(s, Exit(w), init, run);
        case Enabled(s, Return) => s, run := Perform(s, Return, init, run);
      }
    }
    ReturnedMeansDelivered(snapshot, workerLimit, run, s);
    sent := s.sent;
  }
}
