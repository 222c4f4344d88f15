/** The client's send pipeline: a bounded queue, one more batch loop for every successful connect, and a transport
    that may fail at any frame. Accepted messages are numbered by tickets 0, 1, 2, ... in order of acceptance. */
module Pipeline {
  import opened Common

  /** With batchSize > 1 the loops are the batch loops on the 1000-slot buffer; otherwise they are the single-message
      send loops on the 100-slot channel, which flush every message at once and end at the first failed write. */
  datatype Config = Config(batchSize: int) {
    const capacity: nat := if batchSize > 1 then 1000 else 100
  }

  /** A batch loop at its select, or in the middle of a flush with some frames still to write. */
  datatype Phase = Idle(batch: seq<nat>) | Flushing(rest: seq<nat>) | Stopped

  /** A message on the wire or dropped, labelled with the loop that wrote or dropped it. */
  datatype Frame = Frame(loop: nat, ticket: nat)

  datatype State = State(accepted: seq<bool>, queue: seq<nat>, loops: seq<Phase>, wire: seq<Frame>, dropped: seq<Frame>,
                         connected: bool, cancelled: bool, connects: nat, disconnects: nat, closes: nat, failures: nat,
                         takers: seq<nat>)

  /** accepted records, for each ticket, whether the message can be marshalled; takers lists the loops in the order in
      which they took a message from the queue. */
  const INIT := State([], [], [], [], [], false, false, 0, 0, 0, 0, [])

  datatype Action =
    | Send(marshals: bool)
    | Connect(ok: bool)
    | Disconnect
    | Close
    | Take(i: nat)
    | Tick(i: nat)
    | WriteOk(i: nat)
    | WriteFail(i: nat)
    | Flushed(i: nat)
    | Stop(i: nat)

  function Marshalable(accepted: seq<bool>, ts: seq<nat>): (r: seq<nat>) {
    if ts == [] then []
    else
      var n := |ts| - 1;
      Marshalable(accepted, ts[..n]) + (if ts[n] < |accepted| && accepted[ts[n]] then [ts[n]] else [])
  }

  function Unmarshalable(accepted: seq<bool>, ts: seq<nat>): (r: seq<nat>) {
    if ts == [] then []
    else
      var n := |ts| - 1;
      Unmarshalable(accepted, ts[..n]) + (if ts[n] < |accepted| && accepted[ts[n]] then [] else [ts[n]])
  }

  function Labelled(i: nat, ts: seq<nat>): (fs: seq<Frame>)
    ensures |fs| == |ts| && forall k :: 0 <= k < |ts| ==> fs[k] == Frame(i, ts[k])
  {
    seq(|ts|, k requires 0 <= k < |ts| => Frame(i, ts[k]))
  }

  function TicketsOf(frames: seq<Frame>): (ts: seq<nat>)
    ensures |ts| == |frames| && forall k :: 0 <= k < |frames| ==> ts[k] == frames[k].ticket
  {
    seq(|frames|, k requires 0 <= k < |frames| => frames[k].ticket)
  }

  ghost predicate Enabled(c: Config, s: State, a: Action) {
    match a
    case Send(_) => true
    case Connect(_) => true
    case Disconnect => true
    case Close => true
    case Take(i) => i < |s.loops| && s.loops[i].Idle? && s.queue != []
    case Tick(i) => i < |s.loops| && s.loops[i].Idle? && s.loops[i].batch != []
    case WriteOk(i) => i < |s.loops| && s.loops[i].Flushing? && s.loops[i].rest != []
    case WriteFail(i) => i < |s.loops| && s.loops[i].Flushing? && s.loops[i].rest != []
    case Flushed(i) => i < |s.loops| && s.loops[i].Flushing? && s.loops[i].rest == []
    case Stop(i) => i < |s.loops| && s.loops[i].Idle? && s.cancelled
  }

  /** processBatch drops what cannot be marshalled and goes on to write the rest. */
  function BeginFlush(s: State, i: nat, batch: seq<nat>): State
    requires i < |s.loops|
  {
    s.(loops := s.loops[i := Flushing(Marshalable(s.accepted, batch))],
       dropped := s.dropped + Labelled(i, Unmarshalable(s.accepted, batch)))
  }

  function Lost(s: State): State {
    if s.connected then s.(connected := false, disconnects := s.disconnects + 1) else s
  }

  ghost function Apply(c: Config, s: State, a: Action): State
    requires Enabled(c, s, a)
  {
    match a
    case Send(marshals) =>
      if !s.connected || |s.queue| >= c.capacity then s
      else s.(accepted := s.accepted + [marshals], queue := s.queue + [|s.accepted|])
    case Connect(ok) =>
      if s.connected || !ok then s
      else s.(connected := true, connects := s.connects + 1, loops := s.loops + [Idle([])])
    case Disconnect => Lost(s)
    case Close => if s.connected then s.(connected := false, cancelled := true, closes := s.closes + 1) else s
    case Take(i) =>
      var batch := s.loops[i].batch + [s.queue[0]];
      var s' := s.(queue := s.queue[1..], takers := s.takers + [i]);
      if |batch| >= c.batchSize then BeginFlush(s', i, batch) else s'.(loops := s.loops[i := Idle(batch)])
    case Tick(i) => BeginFlush(s, i, s.loops[i].batch)
    case WriteOk(i) =>
      var rest := s.loops[i].rest;
      s.(wire := s.wire + [Frame(i, rest[0])], loops := s.loops[i := Flushing(rest[1..])])
    case WriteFail(i) =>
      Lost(s.(dropped := s.dropped + Labelled(i, s.loops[i].rest), failures := s.failures + 1,
              loops := s.loops[i := if c.batchSize > 1 then Idle([]) else Stopped]))
    case Flushed(i) => s.(loops := s.loops[i := Idle([])])
    case Stop(i) => s.(dropped := s.dropped + Labelled(i, s.loops[i].batch), loops := s.loops[i := Stopped])
  }

  ghost predicate Leads(c: Config, s: State, actions: seq<Action>, t: State)
    decreases actions
  {
    if actions == [] then s == t
    else Enabled(c, s, actions[0]) && Leads(c, Apply(c, s, actions[0]), actions[1..], t)
  }

  lemma {:induction false} LeadsSnoc(c: Config, s: State, actions: seq<Action>, t: State, a: Action)
    requires Leads(c, s, actions, t) && Enabled(c, t, a)
    ensures Leads(c, s, actions + [a], Apply(c, t, a))
    decreases actions
  {
    if actions == [] {
      assert [a][1..] == [];
    } else {
      LeadsSnoc(c, Apply(c, s, actions[0]), actions[1..], t, a);
      assert (actions + [a])[1..] == actions[1..] + [a];
    }
  }

  /** The state after n further messages that can be marshalled were offered to Send. */
  ghost function AfterSends(c: Config, s: State, n: nat): State {
    if n == 0 then s else Apply(c, AfterSends(c, s, n - 1), Send(true))
  }

  /** A connect followed by sends is a run. */
  lemma {:induction false} ConnectThenSends(c: Config, s: State, ok: bool, n: nat) returns (actions: seq<Action>)
    ensures Leads(c, s, actions, AfterSends(c, Apply(c, s, Connect(ok)), n))
    ensures |actions| == n + 1 && actions[0] == Connect(ok) && forall k :: 0 < k <= n ==> actions[k] == Send(true)
  {
    if n == 0 {
      actions := [Connect(ok)];
    } else {
      actions := ConnectThenSends(c, s, ok, n - 1);
      LeadsSnoc(c, s, actions, AfterSends(c, Apply(c, s, Connect(ok)), n - 1), Send(true));
      actions := actions + [Send(true)];
    }
  }

  // ----- Conservation: every accepted message is in exactly one place

  function HeldBy(p: Phase): seq<nat> {
    match p
    case Idle(batch) => batch
    case Flushing(rest) => rest
    case Stopped => []
  }

  /** Copies of a ticket held by the loops. */
  function Held(loops: seq<Phase>, t: nat): nat {
    if loops == [] then 0 else Held(loops[..|loops| - 1], t) + Count(HeldBy(loops[|loops| - 1]), t)
  }

  function OnWire(wire: seq<Frame>, t: nat): nat {
    if wire == [] then 0 else OnWire(wire[..|wire| - 1], t) + (if wire[|wire| - 1].ticket == t then 1 else 0)
  }

  /** Copies of a ticket anywhere: on the wire, dropped, held by a loop, or queued. */
  function Copies(s: State, t: nat): nat {
    OnWire(s.wire, t) + Count(TicketsOf(s.dropped), t) + Held(s.loops, t) + Count(s.queue, t)
  }

  ghost predicate Conserved(s: State) {
    forall t: nat :: Copies(s, t) == if t < |s.accepted| then 1 else 0
  }

  lemma {:induction false} HeldUpdate(loops: seq<Phase>, i: nat, p: Phase, t: nat)
    requires i < |loops|
    ensures Held(loops[i := p], t) == Held(loops, t) - Count(HeldBy(loops[i]), t) + Count(HeldBy(p), t)
  {
    var n := |loops| - 1;
    if i < n {
      HeldUpdate(loops[..n], i, p, t);
      assert loops[i := p][..n] == loops[..n][i := p];
    } else {
      assert loops[i := p][..n] == loops[..n];
    }
  }

  lemma {:induction false} MarshalSplits(accepted: seq<bool>, ts: seq<nat>, t: nat)
    ensures Count(Marshalable(accepted, ts), t) + Count(Unmarshalable(accepted, ts), t) == Count(ts, t)
  {
    if ts != [] {
      var n := |ts| - 1;
      MarshalSplits(accepted, ts[..n], t);
      CountConcat(Marshalable(accepted, ts[..n]), Marshalable(accepted, ts)[|Marshalable(accepted, ts[..n])|..], t);
      CountConcat(Unmarshalable(accepted, ts[..n]),
                  Unmarshalable(accepted, ts)[|Unmarshalable(accepted, ts[..n])|..], t);
      CountOne(ts[n], t);
    }
  }

  lemma DropsCount(dropped: seq<Frame>, i: nat, ts: seq<nat>, t: nat)
    ensures Count(TicketsOf(dropped + Labelled(i, ts)), t) == Count(TicketsOf(dropped), t) + Count(ts, t)
  {
    assert TicketsOf(dropped + Labelled(i, ts)) == TicketsOf(dropped) + ts;
    CountConcat(TicketsOf(dropped), ts, t);
  }

  lemma FlushKeepsCopies(s: State, i: nat, batch: seq<nat>, t: nat)
    requires i < |s.loops|
    ensures Copies(BeginFlush(s, i, batch), t) == Copies(s, t) - Count(HeldBy(s.loops[i]), t) + Count(batch, t)
  {
    MarshalSplits(s.accepted, batch, t);
    DropsCount(s.dropped, i, Unmarshalable(s.accepted, batch), t);
    HeldUpdate(s.loops, i, Flushing(Marshalable(s.accepted, batch)), t);
  }

  lemma TakeKeepsCopies(c: Config, s: State, i: nat, t: nat)
    requires Enabled(c, s, Take(i))
    ensures Copies(Apply(c, s, Take(i)), t) == Copies(s, t)
  {
    var s' := s.(queue := s.queue[1..], takers := s.takers + [i]);
    var batch := s.loops[i].batch + [s.queue[0]];
    assert s.queue == [s.queue[0]] + s.queue[1..];
    CountConcat([s.queue[0]], s.queue[1..], t);
    CountConcat(s.loops[i].batch, [s.queue[0]], t);
    FlushKeepsCopies(s', i, batch, t);
    HeldUpdate(s.loops, i, Idle(batch), t);
  }

  lemma WriteKeepsCopies(c: Config, s: State, i: nat, t: nat)
    requires Enabled(c, s, WriteOk(i))
    ensures Copies(Apply(c, s, WriteOk(i)), t) == Copies(s, t)
  {
    var rest := s.loops[i].rest;
    assert rest == [rest[0]] + rest[1..];
    CountConcat([rest[0]], rest[1..], t);
    CountOne(rest[0], t);
    HeldUpdate(s.loops, i, Flushing(rest[1..]), t);
    assert (s.wire + [Frame(i, rest[0])])[..|s.wire|] == s.wire;
  }

  lemma DropKeepsCopies(c: Config, s: State, a: Action, t: nat)
    requires Enabled(c, s, a) && (a.WriteFail? || a.Flushed? || a.Stop?)
    ensures Copies(Apply(c, s, a), t) == Copies(s, t)
  {
    hide Held, Count, OnWire;
    DropsCount(s.dropped, a.i, HeldBy(s.loops[a.i]), t);
    CountNone(t);
    HeldUpdate(s.loops, a.i, Apply(c, s, a).loops[a.i], t);
  }

  lemma SendCountsOne(c: Config, s: State, a: Action, t: nat)
    requires Enabled(c, s, a) && (a.Send? || a.Connect?)
    ensures var s' := Apply(c, s, a);
      Copies(s', t) == Copies(s, t) + (if |s'.accepted| > |s.accepted| && t == |s.accepted| then 1 else 0)
  {
    CountConcat(s.queue, [|s.accepted|], t);
    CountOne(|s.accepted|, t);
    assert (s.loops + [Idle([])])[..|s.loops|] == s.loops;
  }

  lemma StepConserves(c: Config, s: State, a: Action)
    requires Conserved(s) && Enabled(c, s, a)
    ensures Conserved(Apply(c, s, a))
  {
    hide Copies;
    forall t: nat
      ensures Copies(Apply(c, s, a), t) == if t < |Apply(c, s, a).accepted| then 1 else 0
    {
      match a
      case Take(i) => TakeKeepsCopies(c, s, i, t);
      case Tick(i) => FlushKeepsCopies(s, i, s.loops[i].batch, t);
      case WriteOk(i) => WriteKeepsCopies(c, s, i, t);
      case WriteFail(_) => DropKeepsCopies(c, s, a, t);
      case Flushed(_) => DropKeepsCopies(c, s, a, t);
      case Stop(_) => DropKeepsCopies(c, s, a, t);
      case Send(_) => SendCountsOne(c, s, a, t);
      case Connect(_) => SendCountsOne(c, s, a, t);
      case Disconnect => LostKeepsCopies(s, t);
      case Close => LostKeepsCopies(s, t);
    }
  }

  lemma LostKeepsCopies(s: State, t: nat)
    ensures Copies(Lost(s), t) == Copies(s, t)
    ensures Copies(s.(connected := false, cancelled := true, closes := s.closes + 1), t) == Copies(s, t)
  {
  }

  // ----- Order: each loop consumes a subsequence of the accepted order and writes in that order

  /** Tickets taken from the queue so far. */
  function Consumed(s: State): int {
    |s.accepted| - |s.queue|
  }

  ghost predicate QueueInOrder(c: Config, s: State) {
    && |s.queue| <= c.capacity && |s.queue| <= |s.accepted|
    && (forall k :: 0 <= k < |s.queue| ==> s.queue[k] == Consumed(s) + k)
  }

  /** A loop at its select holds less than a full batch. */
  ghost predicate BatchesBounded(c: Config, s: State) {
    forall i :: 0 <= i < |s.loops| && s.loops[i].Idle? ==>
      |s.loops[i].batch| == 0 || |s.loops[i].batch| < c.batchSize
  }

  ghost predicate LoopsInOrder(s: State) {
    forall i :: 0 <= i < |s.loops| ==>
      Increasing(HeldBy(s.loops[i])) && forall t :: t in HeldBy(s.loops[i]) ==> t < Consumed(s)
  }

  ghost predicate WireInOrder(s: State) {
    && (forall k :: 0 <= k < |s.wire| ==> s.wire[k].loop < |s.loops| && s.wire[k].ticket < Consumed(s))
    && (forall k, t :: 0 <= k < |s.wire| && s.wire[k].loop < |s.loops| && t in HeldBy(s.loops[s.wire[k].loop]) ==>
          s.wire[k].ticket < t)
    && (forall j, k :: 0 <= j < k < |s.wire| && s.wire[j].loop == s.wire[k].loop ==>
          s.wire[j].ticket < s.wire[k].ticket)
  }

  ghost predicate Ordered(c: Config, s: State) {
    QueueInOrder(c, s) && BatchesBounded(c, s) && LoopsInOrder(s) && WireInOrder(s)
  }

  lemma {:induction false} MarshalableIsSubsequence(accepted: seq<bool>, ts: seq<nat>)
    ensures forall t :: t in Marshalable(accepted, ts) <==> t in ts && t < |accepted| && accepted[t]
    ensures Increasing(ts) ==> Increasing(Marshalable(accepted, ts))
  {
    if ts != [] {
      var n := |ts| - 1;
      MarshalableIsSubsequence(accepted, ts[..n]);
      assert ts == ts[..n] + [ts[n]];
      if Increasing(ts) {
        assert forall t :: t in ts[..n] ==> t < ts[n];
        IncreasingSnoc(Marshalable(accepted, ts[..n]), ts[n]);
      }
    }
  }

  lemma StepKeepsQueueInOrder(c: Config, s: State, a: Action)
    requires QueueInOrder(c, s) && Enabled(c, s, a)
    ensures QueueInOrder(c, Apply(c, s, a))
    ensures Consumed(Apply(c, s, a)) == Consumed(s) + (if a.Take? then 1 else 0)
  {
  }

  lemma StepKeepsBatchesBounded(c: Config, s: State, a: Action)
    requires BatchesBounded(c, s) && Enabled(c, s, a)
    ensures BatchesBounded(c, Apply(c, s, a))
  {
  }

  /** The batch of a loop that takes the next message or whose ticker fires. */
  function BatchAt(s: State, a: Action): seq<nat>
    requires (a.Take? || a.Tick?) && a.i < |s.loops| && s.loops[a.i].Idle?
    requires a.Take? ==> s.queue != []
  {
    if a.Take? then s.loops[a.i].batch + [s.queue[0]] else s.loops[a.i].batch
  }

  lemma BatchInOrder(c: Config, s: State, a: Action)
    requires QueueInOrder(c, s) && LoopsInOrder(s) && Enabled(c, s, a) && (a.Take? || a.Tick?)
    ensures Increasing(BatchAt(s, a))
    ensures forall t :: t in BatchAt(s, a) ==> t in s.loops[a.i].batch || (a.Take? && t == Consumed(s))
  {
    var batch := s.loops[a.i].batch;
    assert HeldBy(s.loops[a.i]) == batch;
    if a.Take? {
      IncreasingSnoc(batch, s.queue[0]);
    }
  }

  /** What the acting loop holds next comes from what it held before and from the head of the queue, in order;
      a written ticket precedes what is left. */
  lemma ActorHolds(c: Config, s: State, a: Action)
    requires QueueInOrder(c, s) && LoopsInOrder(s) && Enabled(c, s, a)
    requires !(a.Send? || a.Connect? || a.Disconnect? || a.Close?)
    ensures var before, after := HeldBy(s.loops[a.i]), HeldBy(Apply(c, s, a).loops[a.i]);
      && Increasing(after)
      && (forall t :: t in after ==> t in before || (a.Take? && t == Consumed(s)))
      && (a.WriteOk? ==> before != [] && forall t :: t in after ==> before[0] < t)
  {
    if a.Take? || a.Tick? {
      BatchInOrder(c, s, a);
      MarshalableIsSubsequence(s.accepted, BatchAt(s, a));
    }
  }

  /** What a loop holds after a step it held before, apart from the ticket it may have taken from the queue. */
  lemma HeldAfter(c: Config, s: State, a: Action, i: nat)
    requires QueueInOrder(c, s) && LoopsInOrder(s) && Enabled(c, s, a)
    requires i < |Apply(c, s, a).loops|
    ensures var held := HeldBy(Apply(c, s, a).loops[i]);
      && Increasing(held)
      && (forall t :: t in held ==> (i < |s.loops| && t in HeldBy(s.loops[i])) || (a.Take? && t == Consumed(s)))
      && (a.WriteOk? && a.i == i ==>
            s.loops[i].Flushing? && s.loops[i].rest != [] && forall t :: t in held ==> s.loops[i].rest[0] < t)
  {
    if a.Send? || a.Connect? || a.Disconnect? || a.Close? {
    } else if a.i == i {
      ActorHolds(c, s, a);
    }
  }

  lemma StepKeepsLoopsInOrder(c: Config, s: State, a: Action)
    requires QueueInOrder(c, s) && LoopsInOrder(s) && Enabled(c, s, a)
    ensures LoopsInOrder(Apply(c, s, a))
  {
    StepKeepsQueueInOrder(c, s, a);
    hide Apply;
    forall i | 0 <= i < |Apply(c, s, a).loops| {
      HeldAfter(c, s, a, i);
    }
  }

  lemma WireAfter(c: Config, s: State, a: Action)
    requires Enabled(c, s, a)
    ensures |s.loops| <= |Apply(c, s, a).loops|
    ensures if a.WriteOk? then Apply(c, s, a).wire == s.wire + [Frame(a.i, HeldBy(s.loops[a.i])[0])]
            else Apply(c, s, a).wire == s.wire
  {
  }

  lemma StepKeepsWireInOrder(c: Config, s: State, a: Action)
    requires QueueInOrder(c, s) && LoopsInOrder(s) && WireInOrder(s) && Enabled(c, s, a)
    ensures WireInOrder(Apply(c, s, a))
  {
    var s' := Apply(c, s, a);
    WireAfter(c, s, a);
    StepKeepsQueueInOrder(c, s, a);
    hide Apply, QueueInOrder, Marshalable, Consumed;
    forall k | 0 <= k < |s'.wire|
      ensures s'.wire[k].loop < |s'.loops| && s'.wire[k].ticket < Consumed(s')
      ensures forall t :: t in HeldBy(s'.loops[s'.wire[k].loop]) ==> s'.wire[k].ticket < t
    {
      HeldAfter(c, s, a, s'.wire[k].loop);
      if a.WriteOk? && k == |s.wire| {
        assert s.loops[a.i].rest[0] in HeldBy(s.loops[a.i]);
      }
    }
    if a.WriteOk? {
      assert s.loops[a.i].rest[0] in HeldBy(s.loops[a.i]);
    }
  }

  // ----- The ledger of connections

  /** Each successful connect starts one loop and is answered by at most one disconnect event or one Close. */
  ghost predicate Ledger(s: State) {
    && |s.loops| == s.connects
    && s.connects == s.disconnects + s.closes + (if s.connected then 1 else 0)
    && (s.closes > 0 ==> s.cancelled)
  }

  /** Without a failed write or a Close only unmarshalable messages are dropped. */
  ghost predicate DropsHaveCause(s: State) {
    s.failures == 0 && !s.cancelled ==> forall f :: f in s.dropped ==> f.ticket < |s.accepted| && !s.accepted[f.ticket]
  }

  // ----- One loop: the wire carries the accepted order

  /** A single loop, and no write has failed. */
  ghost predicate Undisturbed(s: State) {
    s.connects == 1 && s.failures == 0 && |s.loops| == 1
  }

  /** The wire, then what the loop holds, then the queue: the marshalable messages in the order accepted. */
  ghost predicate InLine(s: State)
    requires |s.loops| == 1
  {
    TicketsOf(s.wire) + Marshalable(s.accepted, HeldBy(s.loops[0])) + Marshalable(s.accepted, s.queue)
    == Marshalable(s.accepted, Tickets(|s.accepted|))
  }

  ghost predicate AllMarshalable(accepted: seq<bool>, ts: seq<nat>) {
    forall k :: 0 <= k < |ts| ==> ts[k] < |accepted| && accepted[ts[k]]
  }

  ghost predicate OneLoopInOrder(s: State) {
    && (s.connects == 0 ==> s.accepted == [] && s.wire == [] && s.queue == [])
    && (forall i :: 0 <= i < |s.loops| && s.loops[i].Flushing? ==>
          AllMarshalable(s.accepted, s.loops[i].rest))
    && (Undisturbed(s) ==> if s.loops[0].Stopped? then PrefixOnWire(s) else InLine(s))
  }

  ghost predicate PrefixOnWire(s: State) {
    exists b: nat :: b <= |s.accepted| && TicketsOf(s.wire) == Marshalable(s.accepted, Tickets(b))
  }

  function Tickets(n: nat): (ts: seq<nat>)
    ensures |ts| == n && forall k :: 0 <= k < n ==> ts[k] == k
  {
    seq(n, k => k)
  }

  lemma {:induction false} MarshalableOfLonger(accepted: seq<bool>, x: bool, ts: seq<nat>)
    requires forall k :: 0 <= k < |ts| ==> ts[k] < |accepted|
    ensures Marshalable(accepted + [x], ts) == Marshalable(accepted, ts)
  {
    if ts != [] {
      MarshalableOfLonger(accepted, x, ts[..|ts| - 1]);
    }
  }

  lemma Associative<T>(x: seq<T>, y: seq<T>, z: seq<T>)
    ensures x + y + z == x + (y + z)
  {
  }

  lemma {:induction false} MarshalableConcat(accepted: seq<bool>, a: seq<nat>, b: seq<nat>)
    ensures Marshalable(accepted, a + b) == Marshalable(accepted, a) + Marshalable(accepted, b)
  {
    if b == [] {
      assert a + b == a;
    } else {
      var n := |b| - 1;
      MarshalableConcat(accepted, a, b[..n]);
      assert (a + b)[..|a| + n] == a + b[..n];
      var before := Marshalable(accepted, b[..n]);
      Associative(Marshalable(accepted, a), before, Marshalable(accepted, b)[|before|..]);
    }
  }

  lemma {:induction false} MarshaledAreMarshalable(accepted: seq<bool>, ts: seq<nat>)
    ensures AllMarshalable(accepted, Marshalable(accepted, ts))
  {
    if ts != [] {
      MarshaledAreMarshalable(accepted, ts[..|ts| - 1]);
    }
  }

  lemma TicketsSnoc(n: nat)
    ensures Tickets(n + 1) == Tickets(n) + [n]
  {
  }

  lemma {:induction false} MarshalableTwice(accepted: seq<bool>, ts: seq<nat>)
    requires AllMarshalable(accepted, ts)
    ensures Marshalable(accepted, ts) == ts
  {
    if ts != [] {
      var n := |ts| - 1;
      assert ts == ts[..n] + [ts[n]];
      MarshalableTwice(accepted, ts[..n]);
    }
  }

  /** A prefix of what can be sent is what can be sent of a prefix. */
  lemma {:induction false} PrefixOfMarshalable(accepted: seq<bool>, n: nat, w: seq<nat>) returns (b: nat)
    requires w <= Marshalable(accepted, Tickets(n))
    ensures b <= n && w == Marshalable(accepted, Tickets(b))
  {
    if w == Marshalable(accepted, Tickets(n)) {
      b := n;
    } else {
      assert Tickets(n)[..n - 1] == Tickets(n - 1);
      b := PrefixOfMarshalable(accepted, n - 1, w);
    }
  }

  lemma InLineMeansPrefix(s: State)
    requires |s.loops| == 1 && InLine(s)
    ensures PrefixOnWire(s)
  {
    var b := PrefixOfMarshalable(s.accepted, |s.accepted|, TicketsOf(s.wire));
  }

  lemma SendKeepsPrefix(s: State, marshals: bool)
    requires PrefixOnWire(s)
    ensures PrefixOnWire(s.(accepted := s.accepted + [marshals], queue := s.queue + [|s.accepted|]))
  {
    var b: nat :| b <= |s.accepted| && TicketsOf(s.wire) == Marshalable(s.accepted, Tickets(b));
    MarshalableOfLonger(s.accepted, marshals, Tickets(b));
  }

  lemma Regroup<T>(w: seq<T>, h: seq<T>, q: seq<T>, x: seq<T>)
    ensures w + h + (q + x) == w + h + q + x
  {
  }

  lemma Advance<T>(w: seq<T>, rest: seq<T>, q: seq<T>)
    requires rest != []
    ensures w + rest + q == w + [rest[0]] + rest[1..] + q
  {
  }

  lemma MarshalableOne(accepted: seq<bool>, t: nat)
    requires t < |accepted|
    ensures Marshalable(accepted, [t]) == if accepted[t] then [t] else []
  {
    assert [t][..0] == [];
  }

  lemma MarshalableOfNext(accepted: seq<bool>, x: bool, ts: seq<nat>)
    requires forall k :: 0 <= k < |ts| ==> ts[k] < |accepted|
    ensures Marshalable(accepted + [x], ts + [|accepted|])
            == Marshalable(accepted, ts) + (if x then [|accepted|] else [])
  {
    MarshalableOfLonger(accepted, x, ts);
    MarshalableConcat(accepted + [x], ts, [|accepted|]);
    MarshalableOne(accepted + [x], |accepted|);
    hide Marshalable;
  }

  lemma HeldAreAccepted(c: Config, s: State)
    requires s.loops != [] && QueueInOrder(c, s) && LoopsInOrder(s)
    ensures forall k :: 0 <= k < |HeldBy(s.loops[0])| ==> HeldBy(s.loops[0])[k] < |s.accepted|
    ensures forall k :: 0 <= k < |s.queue| ==> s.queue[k] < |s.accepted|
  {
    var held := HeldBy(s.loops[0]);
    assert forall k :: 0 <= k < |held| ==> held[k] in held;
  }

  lemma SendKeepsInLine(c: Config, s: State, marshals: bool)
    requires |s.loops| == 1 && QueueInOrder(c, s) && LoopsInOrder(s) && InLine(s)
    ensures InLine(s.(accepted := s.accepted + [marshals], queue := s.queue + [|s.accepted|]))
  {
    hide Marshalable, TicketsOf, Tickets, QueueInOrder, LoopsInOrder;
    var n, held := |s.accepted|, HeldBy(s.loops[0]);
    HeldAreAccepted(c, s);
    MarshalableOfLonger(s.accepted, marshals, held);
    MarshalableOfNext(s.accepted, marshals, s.queue);
    MarshalableOfNext(s.accepted, marshals, Tickets(n));
    TicketsSnoc(n);
    Regroup(TicketsOf(s.wire), Marshalable(s.accepted, held), Marshalable(s.accepted, s.queue),
            if marshals then [n] else []);
  }

  lemma BatchKeepsInLine(c: Config, s: State, a: Action)
    requires |s.loops| == 1 && Enabled(c, s, a) && (a.Take? || a.Tick?)
    ensures var s' := Apply(c, s, a);
      && Marshalable(s.accepted, HeldBy(s'.loops[0])) == Marshalable(s.accepted, BatchAt(s, a))
      && (s'.loops[0].Flushing? ==> AllMarshalable(s.accepted, s'.loops[0].rest))
  {
    hide Marshalable, Unmarshalable, AllMarshalable;
    MarshaledAreMarshalable(s.accepted, BatchAt(s, a));
    MarshalableTwice(s.accepted, Marshalable(s.accepted, BatchAt(s, a)));
  }

  /** What a loop takes over goes from the front of the queue to the end of the batch. */
  lemma TakeMovesFront(s: State, a: Action)
    requires s.loops != [] && s.loops[0].Idle? && (a.Take? || a.Tick?) && (a.Take? ==> a.i == 0 && s.queue != [])
    requires a.Tick? ==> a.i == 0
    ensures var queue := if a.Take? then s.queue[1..] else s.queue;
      Marshalable(s.accepted, BatchAt(s, a)) + Marshalable(s.accepted, queue)
      == Marshalable(s.accepted, s.loops[0].batch) + Marshalable(s.accepted, s.queue)
  {
    if a.Take? {
      var head, tail := [s.queue[0]], s.queue[1..];
      assert s.queue == head + tail;
      MarshalableConcat(s.accepted, head, tail);
      MarshalableConcat(s.accepted, s.loops[0].batch, head);
      hide Marshalable;
    }
  }

  lemma TakeKeepsInLine(c: Config, s: State, a: Action)
    requires |s.loops| == 1 && InLine(s) && Enabled(c, s, a) && (a.Take? || a.Tick?)
    ensures InLine(Apply(c, s, a))
  {
    hide Marshalable, Unmarshalable, TicketsOf, Tickets, AllMarshalable;
    BatchKeepsInLine(c, s, a);
    TakeMovesFront(s, a);
    Associative(TicketsOf(s.wire), Marshalable(s.accepted, s.loops[0].batch), Marshalable(s.accepted, s.queue));
    Associative(TicketsOf(s.wire), Marshalable(s.accepted, BatchAt(s, a)),
                Marshalable(s.accepted, if a.Take? then s.queue[1..] else s.queue));
  }

  lemma WriteKeepsInLine(c: Config, s: State, i: nat)
    requires |s.loops| == 1 && InLine(s) && Enabled(c, s, WriteOk(i)) && AllMarshalable(s.accepted, s.loops[0].rest)
    ensures InLine(Apply(c, s, WriteOk(i)))
  {
    hide Marshalable, Tickets;
    var rest := s.loops[0].rest;
    MarshalableTwice(s.accepted, rest);
    MarshalableTwice(s.accepted, rest[1..]);
    assert TicketsOf(s.wire + [Frame(i, rest[0])]) == TicketsOf(s.wire) + [rest[0]];
    Advance(TicketsOf(s.wire), rest, Marshalable(s.accepted, s.queue));
  }

  lemma StepKeepsMarshaled(c: Config, s: State, a: Action)
    requires Enabled(c, s, a)
    requires forall i :: 0 <= i < |s.loops| && s.loops[i].Flushing? ==> AllMarshalable(s.accepted, s.loops[i].rest)
    ensures var t := Apply(c, s, a);
      forall i :: 0 <= i < |t.loops| && t.loops[i].Flushing? ==> AllMarshalable(t.accepted, t.loops[i].rest)
  {
    if a.Take? || a.Tick? {
      MarshaledAreMarshalable(s.accepted, BatchAt(s, a));
    }
  }

  lemma FirstConnectInLine(c: Config, s: State, a: Action)
    requires a.Connect? && Ledger(s) && OneLoopInOrder(s) && Undisturbed(Apply(c, s, a))
    ensures var t := Apply(c, s, a); if t.loops[0].Stopped? then PrefixOnWire(t) else InLine(t)
  {
    if Apply(c, s, a) != s {
      assert s.loops == [] && Tickets(0) == [];
    }
  }

  lemma StepKeepsUndisturbed(c: Config, s: State, a: Action)
    requires Ordered(c, s) && Ledger(s) && OneLoopInOrder(s) && Enabled(c, s, a)
    requires Undisturbed(Apply(c, s, a))
    ensures var t := Apply(c, s, a); if t.loops[0].Stopped? then PrefixOnWire(t) else InLine(t)
  {
    hide Marshalable, Tickets, TicketsOf, QueueInOrder, LoopsInOrder, WireInOrder, BatchesBounded;
    match a
    case Send(marshals) =>
      if s.connected && |s.queue| < c.capacity {
        if s.loops[0].Stopped? {
          SendKeepsPrefix(s, marshals);
        } else {
          SendKeepsInLine(c, s, marshals);
        }
      }
    case Connect(_) => FirstConnectInLine(c, s, a);
    case Disconnect =>
    case Close =>
    case Take(i) => TakeKeepsInLine(c, s, a);
    case Tick(i) => TakeKeepsInLine(c, s, a);
    case WriteOk(i) => WriteKeepsInLine(c, s, i);
    case WriteFail(_) =>
    case Flushed(_) =>
    case Stop(_) => InLineMeansPrefix(s);
  }

  lemma StepKeepsLedger(c: Config, s: State, a: Action)
    requires Ledger(s) && Enabled(c, s, a)
    ensures Ledger(Apply(c, s, a))
  {
    hide Marshalable, Unmarshalable, Labelled;
  }

  lemma DroppedByFlush(c: Config, s: State, a: Action, f: Frame)
    requires QueueInOrder(c, s) && LoopsInOrder(s) && Enabled(c, s, a) && (a.Take? || a.Tick?)
    requires f in Labelled(a.i, Unmarshalable(s.accepted, BatchAt(s, a)))
    ensures f.ticket < |s.accepted| && !s.accepted[f.ticket]
  {
    var ts := Unmarshalable(s.accepted, BatchAt(s, a));
    var k :| 0 <= k < |ts| && Labelled(a.i, ts)[k] == f;
    BatchInOrder(c, s, a);
    UnmarshalableOnly(s.accepted, BatchAt(s, a));
    assert f.ticket == ts[k] && ts[k] in ts;
    assert f.ticket in s.loops[a.i].batch ==> f.ticket in HeldBy(s.loops[a.i]);
  }

  lemma StepKeepsCause(c: Config, s: State, a: Action)
    requires DropsHaveCause(s) && QueueInOrder(c, s) && LoopsInOrder(s) && Ledger(s) && Enabled(c, s, a)
    ensures DropsHaveCause(Apply(c, s, a))
  {
    var t := Apply(c, s, a);
    if t.failures == 0 && !t.cancelled {
      if a.Take? || a.Tick? {
        forall f | f in Labelled(a.i, Unmarshalable(s.accepted, BatchAt(s, a)))
          ensures f.ticket < |s.accepted| && !s.accepted[f.ticket]
        {
          DroppedByFlush(c, s, a, f);
        }
      }
    }
    hide Unmarshalable, Marshalable, QueueInOrder, LoopsInOrder;
  }

  lemma {:induction false} UnmarshalableOnly(accepted: seq<bool>, ts: seq<nat>)
    ensures forall t :: t in Unmarshalable(accepted, ts) ==> t in ts && !(t < |accepted| && accepted[t])
  {
    if ts != [] {
      UnmarshalableOnly(accepted, ts[..|ts| - 1]);
    }
  }

  // ----- Every reachable state

  ghost predicate Inv(c: Config, s: State) {
    Conserved(s) && Ordered(c, s) && Ledger(s) && DropsHaveCause(s) && OneLoopInOrder(s)
  }

  lemma StepKeepsInv(c: Config, s: State, a: Action)
    requires Inv(c, s) && Enabled(c, s, a)
    ensures Inv(c, Apply(c, s, a))
  {
    StepConserves(c, s, a);
    StepKeepsQueueInOrder(c, s, a);
    StepKeepsBatchesBounded(c, s, a);
    StepKeepsLoopsInOrder(c, s, a);
    StepKeepsWireInOrder(c, s, a);
    StepKeepsLedger(c, s, a);
    StepKeepsCause(c, s, a);
    StepKeepsMarshaled(c, s, a);
    if Undisturbed(Apply(c, s, a)) {
      StepKeepsUndisturbed(c, s, a);
    }
    hide Conserved, QueueInOrder, BatchesBounded, LoopsInOrder, WireInOrder, DropsHaveCause, InLine, PrefixOnWire,
         AllMarshalable;
  }

  lemma {:induction false} RunKeepsInv(c: Config, s: State, actions: seq<Action>, t: State)
    requires Inv(c, s) && Leads(c, s, actions, t)
    ensures Inv(c, t)
    decreases actions
  {
    hide Inv, Apply;
    if actions != [] {
      StepKeepsInv(c, s, actions[0]);
      RunKeepsInv(c, Apply(c, s, actions[0]), actions[1..], t);
    }
  }

  lemma InitInv(c: Config)
    ensures Inv(c, INIT)
  {
    forall t: nat
      ensures Copies(INIT, t) == 0
    {
    }
  }

  /** Conservation over every run, with any number of reconnects and therefore of loops: every accepted message is
      in exactly one place (wire, dropped, held by one loop, queue), once, and nothing else is anywhere. */
  lemma EveryMessageInOnePlace(c: Config, actions: seq<Action>, s: State, t: nat)
    requires Leads(c, INIT, actions, s)
    ensures Copies(s, t) == if t < |s.accepted| then 1 else 0
    ensures |s.queue| <= c.capacity
    ensures s.failures == 0 && !s.cancelled && t < |s.accepted| && s.accepted[t] ==>
              OnWire(s.wire, t) + Held(s.loops, t) + Count(s.queue, t) == 1
  {
    InitInv(c);
    RunKeepsInv(c, INIT, actions, s);
    CountIn(TicketsOf(s.dropped), t);
    if t in TicketsOf(s.dropped) {
      var k :| 0 <= k < |s.dropped| && TicketsOf(s.dropped)[k] == t;
      assert s.dropped[k] in s.dropped;
    }
  }

  /** Every loop takes a subsequence of the accepted messages, in order, and the frames it wrote precede, in that order,
      what it still holds; at its select it holds less than a batch. */
  lemma LoopsWriteInAcceptedOrder(c: Config, actions: seq<Action>, s: State)
    requires Leads(c, INIT, actions, s)
    ensures forall j, k :: 0 <= j < k < |s.wire| && s.wire[j].loop == s.wire[k].loop ==>
              s.wire[j].ticket < s.wire[k].ticket
    ensures forall i :: 0 <= i < |s.loops| ==> Increasing(HeldBy(s.loops[i]))
    ensures forall k, t :: 0 <= k < |s.wire| && s.wire[k].loop < |s.loops| && t in HeldBy(s.loops[s.wire[k].loop]) ==>
              s.wire[k].ticket < t
    ensures BatchesBounded(c, s)
  {
    InitInv(c);
    RunKeepsInv(c, INIT, actions, s);
  }

  /** With one connect and no failed write the wire carries exactly the marshalable messages of a prefix of the accepted
      sequence, whatever the batch size; once nothing is held or queued, of all of it. */
  lemma OneLoopDeliversInOrder(c: Config, actions: seq<Action>, s: State)
    requires Leads(c, INIT, actions, s) && s.connects == 1 && s.failures == 0
    ensures PrefixOnWire(s) && |s.loops| == 1
    ensures !s.loops[0].Stopped? && HeldBy(s.loops[0]) == [] && s.queue == [] ==>
              TicketsOf(s.wire) == Marshalable(s.accepted, Tickets(|s.accepted|))
  {
    InitInv(c);
    RunKeepsInv(c, INIT, actions, s);
    if !s.loops[0].Stopped? {
      InLineMeansPrefix(s);
    }
  }

  /** A successful connect adds one loop and is followed by at most one disconnect event. */
  lemma OneDisconnectPerConnect(c: Config, actions: seq<Action>, s: State)
    requires Leads(c, INIT, actions, s)
    ensures s.disconnects + s.closes + (if s.connected then 1 else 0) == s.connects == |s.loops|
  {
    InitInv(c);
    RunKeepsInv(c, INIT, actions, s);
  }

  lemma LeadsOn(c: Config, s: State, a: Action, s': State, rest: seq<Action>, t: State)
    requires Enabled(c, s, a) && Apply(c, s, a) == s' && Leads(c, s', rest, t)
    ensures Leads(c, s, [a] + rest, t)
  {
    assert ([a] + rest)[1..] == rest;
  }

  // ----- When the wire follows the accepted order

  ghost predicate InAcceptedOrder(s: State) {
    forall j, k :: 0 <= j < k < |s.wire| ==> s.wire[j].ticket < s.wire[k].ticket
  }

  lemma OneConnectKeepsOrder(c: Config, actions: seq<Action>, s: State)
    requires Leads(c, INIT, actions, s) && s.connects <= 1
    ensures InAcceptedOrder(s)
  {
    InitInv(c);
    RunKeepsInv(c, INIT, actions, s);
    assert forall k :: 0 <= k < |s.wire| ==> s.wire[k].loop == 0;
  }

  lemma OneMessageMarshals(t: nat)
    requires t < 2
    ensures Marshalable([true, true], [t]) == [t] && Unmarshalable([true, true], [t]) == []
    ensures [] + [t] == [t] && [t][1..] == []
  {
    assert [t][..0] == [];
  }

  /** An idle loop takes the only queued message and starts to flush it, at once or on the next tick. */
  lemma TakeAndFlush(c: Config, s: State, i: nat, m: nat, rest: seq<Action>, t: State) returns (actions: seq<Action>)
    requires i < |s.loops| && s.loops[i] == Idle([]) && s.queue == [m]
    requires Marshalable(s.accepted, [m]) == [m] && Unmarshalable(s.accepted, [m]) == []
    requires Leads(c, s.(queue := [], loops := s.loops[i := Flushing([m])], takers := s.takers + [i]), rest, t)
    ensures Leads(c, s, actions, t)
  {
    assert [] + [m] == [m] && s.queue[1..] == [] && s.dropped + Labelled(i, []) == s.dropped;
    var flushing := s.(queue := [], loops := s.loops[i := Flushing([m])], takers := s.takers + [i]);
    if c.batchSize > 1 {
      var held := s.(queue := [], loops := s.loops[i := Idle([m])], takers := s.takers + [i]);
      assert held.loops[i := Flushing([m])] == flushing.loops;
      LeadsOn(c, held, Tick(i), flushing, rest, t);
      actions := [Tick(i)] + rest;
      LeadsOn(c, s, Take(i), held, actions, t);
      actions := [Take(i)] + actions;
    } else {
      LeadsOn(c, s, Take(i), flushing, rest, t);
      actions := [Take(i)] + rest;
    }
  }

  /** Two loops with a message each in hand: the second one writes first. */
  lemma SecondLoopOvertakes(c: Config) returns (actions: seq<Action>)
    ensures Leads(c, State([true, true], [], [Flushing([0]), Flushing([1])], [], [], true, false, 2, 1, 0, 0, [0, 1]),
                  actions, Overtaken())
  {
    var s := State([true, true], [], [Flushing([0]), Flushing([1])], [], [], true, false, 2, 1, 0, 0, [0, 1]);
    var s1 := s.(loops := [Flushing([0]), Flushing([])], wire := [Frame(1, 1)]);
    assert [0][1..] == [] && [1][1..] == [];
    LeadsOn(c, s1, WriteOk(0), Overtaken(), [], Overtaken());
    LeadsOn(c, s, WriteOk(1), s1, [WriteOk(0)] + [], Overtaken());
    actions := [WriteOk(1)] + ([WriteOk(0)] + []);
  }

  /** Message 1 is on the wire before message 0, after one reconnect and no failed write. */
  function Overtaken(): State {
    State([true, true], [], [Flushing([]), Flushing([])], [Frame(1, 1), Frame(0, 0)], [],
          true, false, 2, 1, 0, 0, [0, 1])
  }

  /** From a reconnected client whose first loop still holds message 0. */
  lemma NewLoopOvertakes(c: Config) returns (actions: seq<Action>)
    ensures Leads(c, State([true], [], [Flushing([0]), Idle([])], [], [], true, false, 2, 1, 0, 0, [0]), actions,
                  Overtaken())
  {
    hide Overtaken, Marshalable, Unmarshalable;
    OneMessageMarshals(1);
    var s := State([true], [], [Flushing([0]), Idle([])], [], [], true, false, 2, 1, 0, 0, [0]);
    var s1 := s.(accepted := [true, true], queue := [1]);
    assert s1.loops[1 := Flushing([1])] == [Flushing([0]), Flushing([1])] && s1.takers + [1] == [0, 1];
    actions := SecondLoopOvertakes(c);
    actions := TakeAndFlush(c, s1, 1, 1, actions, Overtaken());
    LeadsOn(c, s, Send(true), s1, actions, Overtaken());
    actions := [Send(true)] + actions;
  }

  /** The client loses its connection and connects again while the first loop still holds message 0. */
  lemma ReconnectOvertakes(c: Config) returns (actions: seq<Action>)
    ensures Leads(c, State([true], [], [Flushing([0])], [], [], true, false, 1, 0, 0, 0, [0]), actions, Overtaken())
  {
    hide Overtaken, Marshalable, Unmarshalable;
    var s := State([true], [], [Flushing([0])], [], [], true, false, 1, 0, 0, 0, [0]);
    var s1 := s.(connected := false, disconnects := 1);
    var s2 := State([true], [], [Flushing([0]), Idle([])], [], [], true, false, 2, 1, 0, 0, [0]);
    actions := NewLoopOvertakes(c);
    LeadsOn(c, s1, Connect(true), s2, actions, Overtaken());
    actions := [Connect(true)] + actions;
    LeadsOn(c, s, Disconnect, s1, actions, Overtaken());
    actions := [Disconnect] + actions;
  }

  /** The first loop takes message 0. */
  lemma FirstMessageTaken(c: Config) returns (actions: seq<Action>)
    ensures Leads(c, State([true], [0], [Idle([])], [], [], true, false, 1, 0, 0, 0, []), actions, Overtaken())
  {
    assert Marshalable([true], [0]) == [0] && Unmarshalable([true], [0]) == [] by {
      assert [0][..0] == [];
    }
    hide Overtaken, Marshalable, Unmarshalable, Apply;
    var s := State([true], [0], [Idle([])], [], [], true, false, 1, 0, 0, 0, []);
    assert s.loops[0 := Flushing([0])] == [Flushing([0])] && s.takers + [0] == [0];
    actions := ReconnectOvertakes(c);
    actions := TakeAndFlush(c, s, 0, 0, actions, Overtaken());
  }

  /** For every batch size there is a run with one reconnect and no failed write that reverses two messages. */
  lemma ReconnectReorders(c: Config) returns (actions: seq<Action>)
    ensures Leads(c, INIT, actions, Overtaken()) && Overtaken().failures == 0 && !InAcceptedOrder(Overtaken())
  {
    assert Overtaken().wire[0].ticket > Overtaken().wire[1].ticket;
    hide Overtaken, InAcceptedOrder, Marshalable, Unmarshalable;
    var s1 := State([], [], [Idle([])], [], [], true, false, 1, 0, 0, 0, []);
    actions := FirstMessageTaken(c);
    LeadsOn(c, s1, Send(true), s1.(accepted := [true], queue := [0]), actions, Overtaken());
    actions := [Send(true)] + actions;
    LeadsOn(c, INIT, Connect(true), s1, actions, Overtaken());
    actions := [Connect(true)] + actions;
  }

  /** Every run with at most n successful connects keeps the accepted order on the wire. */
  ghost predicate OrderedUpTo(c: Config, n: nat) {
    forall actions, s :: Leads(c, INIT, actions, s) && s.connects <= n ==> InAcceptedOrder(s)
  }

  /** For every batch size, the wire follows the accepted order for sure exactly as long as the client connects at most
      once; failed writes make no difference. */
  lemma WireFollowsOrderExactlyWhen(c: Config, n: nat)
    ensures OrderedUpTo(c, n) <==> n <= 1
  {
    if n <= 1 {
      forall actions, s | Leads(c, INIT, actions, s) && s.connects <= n
        ensures InAcceptedOrder(s)
      {
        OneConnectKeepsOrder(c, actions, s);
      }
    } else {
      var actions := ReconnectReorders(c);
      assert Overtaken().connects <= n;
    }
    hide Leads, InAcceptedOrder;
  }
}
