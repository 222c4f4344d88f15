/** The client pipeline loop by loop: what a loop took from the queue it wrote, dropped, or still holds. */
module Takers {
  import opened Common
  import opened Pipeline

  /** Copies of a ticket that lie with one loop: on the wire, dropped, or held by it. */
  function With(s: State, i: nat, t: nat): nat {
    Count(s.wire, Frame(i, t)) + Count(s.dropped, Frame(i, t))
    + (if i < |s.loops| then Count(HeldBy(s.loops[i]), t) else 0)
  }

  /** Loop i took ticket t. */
  predicate Took(s: State, i: nat, t: nat) {
    t < |s.takers| && s.takers[t] == i
  }

  ghost predicate Accounted(s: State) {
    forall i: nat, t: nat :: With(s, i, t) == if Took(s, i, t) then 1 else 0
  }

  /** The messages taken so far are the first ones accepted, in that order, and each was taken by a loop there is. */
  ghost predicate TakenInOrder(c: Config, s: State) {
    QueueInOrder(c, s) && |s.takers| == Consumed(s) && forall t :: 0 <= t < |s.takers| ==> s.takers[t] < |s.loops|
  }

  lemma {:induction false} LabelledCount(i: nat, ts: seq<nat>, j: nat, t: nat)
    ensures Count(Labelled(i, ts), Frame(j, t)) == if i == j then Count(ts, t) else 0
  {
    if ts != [] {
      var n := |ts| - 1;
      LabelledCount(i, ts[..n], j, t);
      assert Labelled(i, ts)[..n] == Labelled(i, ts[..n]);
    }
  }

  /** A loop's drops add to its own account only. */
  lemma DropsAdd(dropped: seq<Frame>, i: nat, ts: seq<nat>, j: nat, t: nat)
    ensures Count(dropped + Labelled(i, ts), Frame(j, t))
            == Count(dropped, Frame(j, t)) + (if i == j then Count(ts, t) else 0)
  {
    CountConcat(dropped, Labelled(i, ts), Frame(j, t));
    LabelledCount(i, ts, j, t);
  }

  lemma FlushKeepsAccounts(s: State, i: nat, batch: seq<nat>, j: nat, t: nat)
    requires i < |s.loops|
    ensures With(BeginFlush(s, i, batch), j, t)
            == With(s, j, t) + (if i == j then Count(batch, t) - Count(HeldBy(s.loops[i]), t) else 0)
  {
    MarshalSplits(s.accepted, batch, t);
    DropsAdd(s.dropped, i, Unmarshalable(s.accepted, batch), j, t);
    hide Count, Marshalable, Unmarshalable;
  }

  /** A loop takes the head of the queue, which is the next ticket nobody took yet. */
  lemma TakeKeepsAccounts(c: Config, s: State, i: nat, j: nat, t: nat)
    requires TakenInOrder(c, s) && Enabled(c, s, Take(i))
    ensures With(Apply(c, s, Take(i)), j, t) == With(s, j, t) + (if i == j && t == |s.takers| then 1 else 0)
  {
    assert s.queue[0] == |s.takers|;
    var batch := s.loops[i].batch + [s.queue[0]];
    CountConcat(s.loops[i].batch, [s.queue[0]], t);
    CountOne(s.queue[0], t);
    FlushKeepsAccounts(s.(queue := s.queue[1..], takers := s.takers + [i]), i, batch, j, t);
    hide Count, BeginFlush, QueueInOrder;
  }

  lemma WriteKeepsAccounts(c: Config, s: State, i: nat, j: nat, t: nat)
    requires Enabled(c, s, WriteOk(i))
    ensures With(Apply(c, s, WriteOk(i)), j, t) == With(s, j, t)
  {
    var rest := s.loops[i].rest;
    assert rest == [rest[0]] + rest[1..];
    CountConcat([rest[0]], rest[1..], t);
    CountOne(rest[0], t);
    CountConcat(s.wire, [Frame(i, rest[0])], Frame(j, t));
    CountOne(Frame(i, rest[0]), Frame(j, t));
    hide Count;
  }

  lemma DropKeepsAccounts(c: Config, s: State, a: Action, j: nat, t: nat)
    requires Enabled(c, s, a) && (a.WriteFail? || a.Flushed? || a.Stop?)
    ensures With(Apply(c, s, a), j, t) == With(s, j, t)
  {
    DropsAdd(s.dropped, a.i, HeldBy(s.loops[a.i]), j, t);
    CountNone(t);
    hide Count;
  }

  lemma OthersKeepAccounts(c: Config, s: State, a: Action, j: nat, t: nat)
    requires a.Send? || a.Connect? || a.Disconnect? || a.Close?
    ensures With(Apply(c, s, a), j, t) == With(s, j, t)
  {
    CountNone(t);
    hide Count;
  }

  lemma StepKeepsAccount(c: Config, s: State, a: Action, j: nat, t: nat)
    requires TakenInOrder(c, s) && Enabled(c, s, a)
    ensures With(Apply(c, s, a), j, t)
            == With(s, j, t) + (if a.Take? && a.i == j && t == |s.takers| then 1 else 0)
  {
    hide Apply, With, TakenInOrder;
    match a
    case Take(i) => TakeKeepsAccounts(c, s, i, j, t);
    case Tick(i) => TickKeepsAccounts(c, s, i, j, t);
    case WriteOk(i) => WriteKeepsAccounts(c, s, i, j, t);
    case WriteFail(_) => DropKeepsAccounts(c, s, a, j, t);
    case Flushed(_) => DropKeepsAccounts(c, s, a, j, t);
    case Stop(_) => DropKeepsAccounts(c, s, a, j, t);
    case _ => OthersKeepAccounts(c, s, a, j, t);
  }

  lemma TickKeepsAccounts(c: Config, s: State, i: nat, j: nat, t: nat)
    requires Enabled(c, s, Tick(i))
    ensures With(Apply(c, s, Tick(i)), j, t) == With(s, j, t)
  {
    FlushKeepsAccounts(s, i, s.loops[i].batch, j, t);
    hide Count, With;
  }

  lemma StepKeepsTaken(c: Config, s: State, a: Action)
    requires TakenInOrder(c, s) && Enabled(c, s, a)
    ensures TakenInOrder(c, Apply(c, s, a))
    ensures Apply(c, s, a).takers == if a.Take? then s.takers + [a.i] else s.takers
  {
    StepKeepsQueueInOrder(c, s, a);
    hide QueueInOrder, Consumed, Marshalable, Unmarshalable;
  }

  lemma {:induction false} RunKeepsAccounts(c: Config, s: State, actions: seq<Action>, t: State)
    requires TakenInOrder(c, s) && Accounted(s) && Leads(c, s, actions, t)
    ensures TakenInOrder(c, t) && Accounted(t)
    decreases actions
  {
    hide Apply, With, TakenInOrder;
    if actions != [] {
      StepKeepsTaken(c, s, actions[0]);
      forall i: nat, x: nat {
        StepKeepsAccount(c, s, actions[0], i, x);
      }
      RunKeepsAccounts(c, Apply(c, s, actions[0]), actions[1..], t);
    }
  }

  /** The tickets a loop took, in the order in which it took them. */
  function TakenBy(takers: seq<nat>, i: nat): seq<nat> {
    if takers == [] then []
    else
      var n := |takers| - 1;
      TakenBy(takers[..n], i) + (if takers[n] == i then [n] else [])
  }

  lemma {:induction false} TakenByIncreases(takers: seq<nat>, i: nat)
    ensures Increasing(TakenBy(takers, i))
    ensures forall t: nat :: t in TakenBy(takers, i) <==> t < |takers| && takers[t] == i
  {
    if takers != [] {
      var n: nat := |takers| - 1;
      TakenByIncreases(takers[..n], i);
      IncreasingSnoc(TakenBy(takers[..n], i), n);
    }
  }

  /** In every run each loop consumes a subsequence of the accepted messages, in their order, and every message it
      consumed is on the wire by it, dropped by it, or held by it, exactly once; what it did not consume is in none of
      these. */
  lemma EachLoopAccountsForWhatItTook(c: Config, actions: seq<Action>, s: State, i: nat, t: nat)
    requires Leads(c, INIT, actions, s)
    ensures Increasing(TakenBy(s.takers, i)) && |s.takers| + |s.queue| == |s.accepted|
    ensures With(s, i, t) == if t in TakenBy(s.takers, i) then 1 else 0
    ensures forall k :: 0 <= k < |s.takers| ==> s.takers[k] < |s.loops|
  {
    RunKeepsAccounts(c, INIT, actions, s);
    TakenByIncreases(s.takers, i);
    hide Leads, With;
  }
}
