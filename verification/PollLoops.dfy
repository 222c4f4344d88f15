/** Long polling end to end: server writes, client poll loops, lost responses, a bounded client queue, and the Connect
    and Close calls of the client, which start poll loops and may leave old ones behind. Accepted writes are numbered
    0, 1, 2, ... over all sessions. */
module PollLoops {
  import opened Common
  import LongPolling

  /** A poll loop sleeps after an error and before its first round, waits at its select on the context it has just read,
      has a request under way, or pushes a response into the queue. */
  datatype Loop = Asleep | Selecting(ctx: nat) | Fetching(session: nat) | Pushing(rest: seq<nat>) | Ended

  /** The server's side of a session. */
  datatype Session = Session(pending: seq<nat>, closed: bool)

  /** ctx: the transport's current context, out of all there were; while connected, the last session is the client's. */
  datatype State = State(accepted: nat, sessions: seq<Session>, loops: seq<Loop>, ctx: nat, cancelled: set<nat>,
                         connected: bool, queue: seq<nat>, received: seq<nat>, lost: seq<nat>)

  const INIT := State(0, [], [], 0, {}, false, [], [], [])

  datatype Action =
    | Connect(ok: bool)
    | Close
    | Wake(i: nat)
    | End(i: nat)
    | Fetch(i: nat)
    | Answer(i: nat)
    | NoAnswer(i: nat, drained: bool)
    | Push(i: nat)
    | Next(i: nat)
    | Receive
    | Write(k: nat)
    | CloseSession(k: nat)

  /** Successful connects so far; each started one loop and one session. */
  function Connects(s: State): nat {
    |s.sessions|
  }

  ghost predicate Enabled(s: State, a: Action) {
    match a
    case Connect(_) => true
    case Close => true
    case Wake(i) => i < |s.loops| && s.loops[i].Asleep?
    case End(i) => i < |s.loops| && s.loops[i].Selecting? && s.loops[i].ctx in s.cancelled
    case Fetch(i) => i < |s.loops| && s.loops[i].Selecting?
    case Answer(i) =>
      i < |s.loops| && s.loops[i].Fetching? && s.loops[i].session < |s.sessions|
      && !s.sessions[s.loops[i].session].closed
    case NoAnswer(i, _) => i < |s.loops| && s.loops[i].Fetching? && s.loops[i].session < |s.sessions|
    case Push(i) => i < |s.loops| && s.loops[i].Pushing? && s.loops[i].rest != []
    case Next(i) => i < |s.loops| && s.loops[i] == Pushing([])
    case Receive => s.queue != []
    case Write(k) => k < |s.sessions|
    case CloseSession(k) => k < |s.sessions|
  }

  function At(s: State, i: nat, l: Loop): State
    requires i < |s.loops|
  {
    s.(loops := s.loops[i := l])
  }

  function Drain(s: State, k: nat): State
    requires k < |s.sessions|
  {
    s.(sessions := s.sessions[k := s.sessions[k].(pending := [])])
  }

  ghost function Apply(s: State, a: Action): State
    requires Enabled(s, a)
  {
    match a
    case Connect(ok) =>
      // The context is replaced before the request is made, whether or not it succeeds.
      if s.connected then s
      else if ok then
        s.(ctx := s.ctx + 1, connected := true,
           sessions := s.sessions + [Session([], false)], loops := s.loops + [Asleep])
      else s.(ctx := s.ctx + 1)
    case Close => if s.connected then s.(cancelled := s.cancelled + {s.ctx}, connected := false) else s
    case Wake(i) => At(s, i, Selecting(s.ctx))
    case End(i) => At(s, i, Ended)
    case Fetch(i) => At(s, i, if s.connected && s.sessions != [] then Fetching(|s.sessions| - 1) else Asleep)
    case Answer(i) =>
      var k := s.loops[i].session;
      Drain(At(s, i, Pushing(s.sessions[k].pending)), k)
    case NoAnswer(i, drained) =>
      var k := s.loops[i].session;
      if drained && !s.sessions[k].closed then Drain(At(s, i, Asleep), k).(lost := s.lost + s.sessions[k].pending)
      else At(s, i, Asleep)
    case Push(i) =>
      var rest := s.loops[i].rest;
      var s' := At(s, i, Pushing(rest[1..]));
      if |s.queue| < LongPolling.CLIENT_QUEUE then s'.(queue := s.queue + [rest[0]])
      else s'.(lost := s.lost + [rest[0]])
    case Next(i) => At(s, i, Selecting(s.ctx))
    case Receive => s.(queue := s.queue[1..], received := s.received + [s.queue[0]])
    case Write(k) =>
      if s.sessions[k].closed then s
      else
        s.(accepted := s.accepted + 1,
           sessions := s.sessions[k := s.sessions[k].(pending := s.sessions[k].pending + [s.accepted])])
    case CloseSession(k) => s.(sessions := s.sessions[k := s.sessions[k].(closed := true)])
  }

  ghost predicate Leads(s: State, actions: seq<Action>, t: State)
    decreases actions
  {
    if actions == [] then s == t
    else Enabled(s, actions[0]) && Leads(Apply(s, actions[0]), actions[1..], t)
  }

  // ----- Every write is in one place, however many loops there are

  function Rest(l: Loop): seq<nat> {
    match l case Pushing(rest) => rest case _ => []
  }

  function InHands(loops: seq<Loop>, m: nat): nat {
    if loops == [] then 0 else InHands(loops[..|loops| - 1], m) + Count(Rest(loops[|loops| - 1]), m)
  }

  function Waiting(sessions: seq<Session>, m: nat): nat {
    if sessions == [] then 0
    else Waiting(sessions[..|sessions| - 1], m) + Count(sessions[|sessions| - 1].pending, m)
  }

  /** Copies of a write: received, queued, in a loop's hands, waiting on the server, or lost. */
  function Copies(s: State, m: nat): nat {
    Count(s.received, m) + Count(s.queue, m) + InHands(s.loops, m) + Waiting(s.sessions, m) + Count(s.lost, m)
  }

  ghost predicate Conserved(s: State) {
    |s.queue| <= LongPolling.CLIENT_QUEUE && forall m: nat :: Copies(s, m) == if m < s.accepted then 1 else 0
  }

  lemma {:induction false} InHandsUpdate(loops: seq<Loop>, i: nat, l: Loop, m: nat)
    requires i < |loops|
    ensures InHands(loops[i := l], m) == InHands(loops, m) - Count(Rest(loops[i]), m) + Count(Rest(l), m)
  {
    var n := |loops| - 1;
    if i < n {
      InHandsUpdate(loops[..n], i, l, m);
      assert loops[i := l][..n] == loops[..n][i := l];
    } else {
      assert loops[i := l][..n] == loops[..n];
    }
  }

  lemma {:induction false} WaitingUpdate(sessions: seq<Session>, k: nat, x: Session, m: nat)
    requires k < |sessions|
    ensures Waiting(sessions[k := x], m) == Waiting(sessions, m) - Count(sessions[k].pending, m) + Count(x.pending, m)
  {
    var n := |sessions| - 1;
    if k < n {
      WaitingUpdate(sessions[..n], k, x, m);
      assert sessions[k := x][..n] == sessions[..n][k := x];
    } else {
      assert sessions[k := x][..n] == sessions[..n];
    }
  }

  /** One message moves from the front of a sequence to the end of another. */
  lemma MovesOn(a: seq<nat>, b: seq<nat>, m: nat)
    requires a != []
    ensures Count(a[1..], m) + Count(b + [a[0]], m) == Count(a, m) + Count(b, m)
  {
    assert a == [a[0]] + a[1..];
    CountConcat([a[0]], a[1..], m);
    CountConcat(b, [a[0]], m);
  }

  lemma ConnectKeepsCopies(s: State, ok: bool, m: nat)
    ensures Copies(Apply(s, Connect(ok)), m) == Copies(s, m)
  {
    CountNone(m);
    assert (s.loops + [Asleep])[..|s.loops|] == s.loops;
    assert (s.sessions + [Session([], false)])[..|s.sessions|] == s.sessions;
  }

  /** What a poll loop does on its own. */
  lemma LoopKeepsCopies(s: State, a: Action, m: nat)
    requires Enabled(s, a) && (a.Wake? || a.End? || a.Fetch? || a.Next?)
    ensures Copies(Apply(s, a), m) == Copies(s, m)
  {
    CountNone(m);
    InHandsUpdate(s.loops, a.i, Apply(s, a).loops[a.i], m);
    hide Count, InHands, Waiting;
  }

  lemma FetchedKeepsCopies(s: State, a: Action, m: nat)
    requires Enabled(s, a) && (a.Answer? || a.NoAnswer?)
    ensures Copies(Apply(s, a), m) == Copies(s, m)
  {
    var k := s.loops[a.i].session;
    CountNone(m);
    CountConcat(s.lost, s.sessions[k].pending, m);
    InHandsUpdate(s.loops, a.i, Apply(s, a).loops[a.i], m);
    WaitingUpdate(s.sessions, k, s.sessions[k].(pending := []), m);
    hide Count, InHands, Waiting;
  }

  lemma StepKeepsCopies(s: State, a: Action, m: nat)
    requires Enabled(s, a)
    ensures Copies(Apply(s, a), m) == Copies(s, m) + (if m == s.accepted < Apply(s, a).accepted then 1 else 0)
  {
    hide Count, InHands, Waiting;
    match a
    case Connect(ok) => ConnectKeepsCopies(s, ok, m);
    case Close =>
    case Answer(_) => FetchedKeepsCopies(s, a, m);
    case NoAnswer(_, _) => FetchedKeepsCopies(s, a, m);
    case Push(i) =>
      InHandsUpdate(s.loops, i, Pushing(s.loops[i].rest[1..]), m);
      MovesOn(s.loops[i].rest, s.queue, m);
      MovesOn(s.loops[i].rest, s.lost, m);
    case Receive => MovesOn(s.queue, s.received, m);
    case Write(k) =>
      var pending := s.sessions[k].pending;
      WaitingUpdate(s.sessions, k, s.sessions[k].(pending := pending + [s.accepted]), m);
      CountConcat(pending, [s.accepted], m);
      CountOne(s.accepted, m);
    case CloseSession(k) => WaitingUpdate(s.sessions, k, s.sessions[k].(closed := true), m);
    case _ => LoopKeepsCopies(s, a, m);
  }

  lemma StepKeepsBounds(s: State, a: Action)
    requires Enabled(s, a) && |s.queue| <= LongPolling.CLIENT_QUEUE
    ensures |Apply(s, a).queue| <= LongPolling.CLIENT_QUEUE && s.accepted <= Apply(s, a).accepted <= s.accepted + 1
  {
  }

  lemma {:induction false} RunConserves(s: State, actions: seq<Action>, t: State)
    requires Conserved(s) && Leads(s, actions, t)
    ensures Conserved(t)
    decreases actions
  {
    hide Copies, Apply;
    if actions != [] {
      StepKeepsBounds(s, actions[0]);
      forall m: nat {
        StepKeepsCopies(s, actions[0], m);
      }
      RunConserves(Apply(s, actions[0]), actions[1..], t);
    }
  }

  /** In every run, with any number of connects and loops, every accepted write is received, on its way, or lost, once
      and in one place; nothing else is ever received. */
  lemma EachWriteInOnePlace(actions: seq<Action>, s: State, m: nat)
    requires Leads(INIT, actions, s)
    ensures Copies(s, m) == if m < s.accepted then 1 else 0
    ensures |s.queue| <= LongPolling.CLIENT_QUEUE
  {
    assert forall k: nat :: Copies(INIT, k) == 0;
    RunConserves(INIT, actions, s);
  }

  // ----- Order, as long as no loop outlives its session

  /** Only the last loop is left, and it polls the last session. */
  ghost predicate Lone(s: State) {
    && |s.loops| == |s.sessions|
    && (forall i :: 0 <= i < |s.loops| - 1 ==> s.loops[i].Ended?)
    && (s.loops != [] && s.loops[|s.loops| - 1].Fetching? ==> s.loops[|s.loops| - 1].session == |s.sessions| - 1)
  }

  /** A connect while an older loop has not ended. */
  ghost predicate Crowds(s: State, a: Action) {
    a == Connect(true) && !s.connected && exists i :: 0 <= i < |s.loops| && !s.loops[i].Ended?
  }

  function Hand(s: State): seq<nat> {
    if s.loops == [] then [] else Rest(s.loops[|s.loops| - 1])
  }

  function Backlog(s: State): seq<nat> {
    if s.sessions == [] then [] else s.sessions[|s.sessions| - 1].pending
  }

  /** What the client has seen and will see, in this order. */
  function Line(s: State): seq<nat> {
    s.received + s.queue + Hand(s) + Backlog(s)
  }

  lemma MiddleDropped(a: seq<nat>, x: nat, b: seq<nat>)
    requires Increasing(a + [x] + b)
    ensures Increasing(a + b) && x !in a + b
    ensures forall m :: m in a + [x] + b <==> m in a + b || m == x
  {
    var all, rest := a + [x] + b, a + b;
    assert all[|a|] == x;
    assert forall i :: 0 <= i < |rest| ==> rest[i] == all[if i < |a| then i else i + 1];
    assert forall m :: m in all <==> m in a || m == x || m in b;
  }

  lemma TailDropped(a: seq<nat>, b: seq<nat>)
    requires Increasing(a + b)
    ensures Increasing(a) && forall m :: m in a ==> m !in b
    ensures forall m :: m in a + b <==> m in a || m in b
  {
    var all := a + b;
    assert forall i :: 0 <= i < |a| ==> a[i] == all[i];
    assert forall i :: 0 <= i < |b| ==> b[i] == all[|a| + i];
  }

  lemma StepKeepsLone(s: State, a: Action)
    requires Lone(s) && Enabled(s, a) && !Crowds(s, a)
    ensures Lone(Apply(s, a))
  {
  }

  lemma FrontMoves(r: seq<nat>, q: seq<nat>, h: seq<nat>, b: seq<nat>)
    requires h != []
    ensures r + q + h + b == r + q + [h[0]] + (h[1..] + b)
    ensures r + (q + [h[0]]) + h[1..] + b == r + q + h + b
    ensures r + q + h[1..] + b == r + q + (h[1..] + b)
  {
    assert h == [h[0]] + h[1..];
  }

  lemma PushAdvances(s: State, i: nat)
    requires Lone(s) && Enabled(s, Push(i))
    ensures var t, head, tail := Apply(s, Push(i)), s.received + s.queue, Hand(s)[1..] + Backlog(s);
      && Hand(s) != [] && Line(s) == head + [Hand(s)[0]] + tail
      && (if |s.queue| < LongPolling.CLIENT_QUEUE then Line(t) == Line(s) && t.lost == s.lost
          else Line(t) == head + tail && t.lost == s.lost + [Hand(s)[0]])
  {
    FrontMoves(s.received, s.queue, Hand(s), Backlog(s));
    assert Backlog(Apply(s, Push(i))) == Backlog(s) && Hand(Apply(s, Push(i))) == Hand(s)[1..];
    hide Hand, Backlog, Lone;
  }

  lemma ReceiveAdvances(s: State)
    requires Enabled(s, Receive)
    ensures Line(Apply(s, Receive)) == Line(s)
  {
    assert s.queue == [s.queue[0]] + s.queue[1..];
  }

  lemma FetchedAdvances(s: State, a: Action)
    requires Lone(s) && Enabled(s, a) && (a.Answer? || a.NoAnswer?)
    ensures var l, l', lost := Line(s), Line(Apply(s, a)), Apply(s, a).lost;
      || (l' == l && lost == s.lost)
      || (l == l' + Backlog(s) && l' == s.received + s.queue && lost == s.lost + Backlog(s))
  {
    assert a.i == |s.loops| - 1;
  }

  lemma LoopAdvances(s: State, a: Action)
    requires Lone(s) && Enabled(s, a) && (a.Wake? || a.End? || a.Fetch? || a.Next?)
    ensures Line(Apply(s, a)) == Line(s) && Apply(s, a).lost == s.lost
  {
  }

  /** A write goes to the end of the line, or to a session the client has left; a connect leaves the backlog of the old
      session behind. */
  lemma SessionAdvances(s: State, a: Action)
    requires Lone(s) && Enabled(s, a) && !Crowds(s, a)
    requires a.Connect? || a.Close? || a.Write? || a.CloseSession?
    ensures var t, l, l' := Apply(s, a), Line(s), Line(Apply(s, a));
      && t.lost == s.lost
      && (|| (l' == l && (t.accepted == s.accepted || (a.Write? && a.k < |s.sessions| - 1)))
          || (t.accepted == s.accepted + 1 && l' == l + [s.accepted])
          || (a.Connect? && t.accepted == s.accepted && l == l' + Backlog(s) && |t.sessions| == |s.sessions| + 1))
  {
  }

  ghost predicate InOrder(s: State) {
    Lone(s) && Increasing(Line(s)) && forall m :: m in Line(s) ==> m < s.accepted
  }

  lemma StepKeepsOrder(s: State, a: Action)
    requires InOrder(s) && Enabled(s, a) && !Crowds(s, a)
    ensures InOrder(Apply(s, a))
  {
    StepKeepsLone(s, a);
    hide Line, Lone;
    match a
    case Push(i) =>
      PushAdvances(s, i);
      MiddleDropped(s.received + s.queue, Hand(s)[0], Hand(s)[1..] + Backlog(s));
    case Receive => ReceiveAdvances(s);
    case Answer(_) =>
      FetchedAdvances(s, a);
      MaybeTailDropped(Line(Apply(s, a)), Backlog(s), Line(s));
    case NoAnswer(_, _) =>
      FetchedAdvances(s, a);
      MaybeTailDropped(Line(Apply(s, a)), Backlog(s), Line(s));
    case Wake(_) => LoopAdvances(s, a);
    case End(_) => LoopAdvances(s, a);
    case Fetch(_) => LoopAdvances(s, a);
    case Next(_) => LoopAdvances(s, a);
    case _ =>
      SessionAdvances(s, a);
      MaybeTailDropped(Line(Apply(s, a)), Backlog(s), Line(s));
      if Line(Apply(s, a)) == Line(s) + [s.accepted] {
        IncreasingSnoc(Line(s), s.accepted);
      }
  }

  lemma MaybeTailDropped(a: seq<nat>, b: seq<nat>, all: seq<nat>)
    requires Increasing(all)
    ensures all == a + b ==> Increasing(a) && forall m :: m in a ==> m in all
  {
    if all == a + b {
      TailDropped(a, b);
    }
  }

  /** No connect of the run finds an older loop still there. */
  ghost predicate NoneCrowds(s: State, actions: seq<Action>)
    decreases actions
  {
    actions != [] && Enabled(s, actions[0]) ==>
      !Crowds(s, actions[0]) && NoneCrowds(Apply(s, actions[0]), actions[1..])
  }

  lemma {:induction false} RunKeepsOrder(s: State, actions: seq<Action>, t: State)
    requires InOrder(s) && Leads(s, actions, t) && NoneCrowds(s, actions)
    ensures InOrder(t)
    decreases actions
  {
    hide Apply, InOrder, Crowds;
    if actions != [] {
      StepKeepsOrder(s, actions[0]);
      RunKeepsOrder(Apply(s, actions[0]), actions[1..], t);
    }
  }

  /** Any number of connects keeps the order, if each waits until the older loops have ended. */
  lemma UncrowdedKeepsOrder(actions: seq<Action>, s: State)
    requires Leads(INIT, actions, s) && NoneCrowds(INIT, actions)
    ensures Increasing(s.received)
  {
    RunKeepsOrder(INIT, actions, s);
    assert Line(s) == s.received + (s.queue + Hand(s) + Backlog(s));
    TailDropped(s.received, s.queue + Hand(s) + Backlog(s));
    hide Leads, NoneCrowds;
  }

  // ----- One connect: the whole story

  /** Every accepted write is in line or lost, not both, and the line is in the order of the writes. */
  ghost predicate Inv(s: State) {
    && Increasing(Line(s))
    && (forall m: nat :: m < s.accepted <==> m in Line(s) || m in s.lost)
    && (forall m :: m in Line(s) ==> m !in s.lost)
  }

  lemma {:induction false} ConnectsGrow(s: State, actions: seq<Action>, t: State)
    requires Leads(s, actions, t) && |s.loops| == |s.sessions|
    ensures |s.sessions| <= |t.sessions| && |t.loops| == |t.sessions|
    decreases actions
  {
    if actions != [] {
      ConnectsGrow(Apply(s, actions[0]), actions[1..], t);
    }
  }

  lemma {:induction false} OneConnectNeverCrowds(s: State, actions: seq<Action>, t: State)
    requires Leads(s, actions, t) && |s.loops| == |s.sessions| && Connects(t) <= 1
    ensures NoneCrowds(s, actions)
    decreases actions
  {
    if actions != [] {
      ConnectsGrow(s, actions[..1], Apply(s, actions[0]));
      ConnectsGrow(Apply(s, actions[0]), actions[1..], t);
      OneConnectNeverCrowds(Apply(s, actions[0]), actions[1..], t);
    }
  }

  lemma CopiesOfLine(s: State, m: nat)
    requires |s.loops| == |s.sessions| <= 1
    ensures Copies(s, m) == Count(Line(s), m) + Count(s.lost, m)
  {
    CountConcat(s.received + s.queue + Hand(s), Backlog(s), m);
    CountConcat(s.received + s.queue, Hand(s), m);
    CountConcat(s.received, s.queue, m);
    assert s.loops != [] ==> InHands(s.loops[..0], m) == 0 && Waiting(s.sessions[..0], m) == 0;
  }

  lemma OneConnectKeepsInv(actions: seq<Action>, s: State)
    requires Leads(INIT, actions, s) && Connects(s) <= 1
    ensures Inv(s)
  {
    ConnectsGrow(INIT, actions, s);
    OneConnectNeverCrowds(INIT, actions, s);
    RunKeepsOrder(INIT, actions, s);
    hide Leads, Line, Copies, Lone, NoneCrowds;
    forall m: nat
      ensures m < s.accepted <==> m in Line(s) || m in s.lost
      ensures m in Line(s) ==> m !in s.lost
    {
      EachWriteInOnePlace(actions, s, m);
      CopiesOfLine(s, m);
      CountIn(Line(s), m);
      CountIn(s.lost, m);
    }
  }

  function FirstWrites(n: nat): (ms: seq<nat>)
    ensures |ms| == n && forall k :: 0 <= k < n ==> ms[k] == k
  {
    seq(n, (k: nat) => k)
  }

  /** An increasing sequence that contains 0, ..., k - 1 starts with them. */
  lemma {:induction false} StartsFromZero(s: seq<nat>, k: nat)
    requires Increasing(s) && forall m: nat :: m < k ==> m in s
    ensures k <= |s| && forall i :: 0 <= i < k ==> s[i] == i
  {
    if k > 0 {
      StartsFromZero(s, k - 1);
      var last: nat := k - 1;
      assert last in s;
      var j :| 0 <= j < |s| && s[j] == last;
      assert j >= k - 1;
      IncreasingClimbs(s, j);
    }
  }

  lemma {:induction false} IncreasingClimbs(s: seq<nat>, i: nat)
    requires Increasing(s) && i < |s|
    ensures s[i] >= i
  {
    if i > 0 {
      IncreasingClimbs(s, i - 1);
    }
  }

  /** With one connect, under any poll losses and queue overflows: what Receive yields is an order-preserving
      subsequence of the accepted writes, each at most once, and nothing unlost is missing from the line. */
  lemma ReceivedIsSubsequence(actions: seq<Action>, s: State)
    requires Leads(INIT, actions, s) && Connects(s) <= 1
    ensures Increasing(s.received) && forall m :: m in s.received ==> m < s.accepted && m !in s.lost
    ensures s.lost == [] ==> Line(s) == FirstWrites(s.accepted)
  {
    OneConnectKeepsInv(actions, s);
    var rest := s.queue + Hand(s) + Backlog(s);
    assert Line(s) == s.received + rest;
    TailDropped(s.received, rest);
    hide Leads, Hand, Backlog;
    if s.lost == [] {
      StartsFromZero(Line(s), s.accepted);
      assert forall i :: 0 <= i < |Line(s)| ==> Line(s)[i] in Line(s);
      if |Line(s)| > s.accepted {
        IncreasingClimbs(Line(s), s.accepted);
      }
    }
  }

  lemma PrefixLostNothingOlder(s: State)
    requires Inv(s) && s.received == FirstWrites(|s.received|)
    ensures forall m :: m in s.lost ==> m >= |s.received|
  {
    hide Increasing;
    forall m: nat | m < |s.received|
      ensures m in Line(s)
    {
      assert s.received[m] == m;
    }
  }

  lemma NothingOlderLostIsPrefix(s: State)
    requires Inv(s) && Increasing(s.received) && (forall m :: m in s.received ==> m < s.accepted)
    requires forall m :: m in s.lost ==> m >= |s.received|
    ensures s.received == FirstWrites(|s.received|)
  {
    var k := |s.received|;
    if k > 0 {
      IncreasingClimbs(s.received, k - 1);
      assert s.received[k - 1] in s.received;
    }
    StartsFromZero(Line(s), k);
    assert Line(s)[..k] == s.received;
    hide Line, Inv, Increasing;
  }

  /** It is a prefix of the writes exactly when nothing lost is older than what was received. */
  lemma ReceivedIsPrefixExactlyWhen(actions: seq<Action>, s: State)
    requires Leads(INIT, actions, s) && Connects(s) <= 1
    ensures s.received == FirstWrites(|s.received|) <==> forall m :: m in s.lost ==> m >= |s.received|
  {
    OneConnectKeepsInv(actions, s);
    ReceivedIsSubsequence(actions, s);
    if s.received == FirstWrites(|s.received|) {
      PrefixLostNothingOlder(s);
    }
    if forall m :: m in s.lost ==> m >= |s.received| {
      NothingOlderLostIsPrefix(s);
    }
    hide Leads, Inv, Line, Increasing, FirstWrites;
  }

  // ----- How many connects keep the order

  lemma LeadsOn(s: State, a: Action, s': State, rest: seq<Action>, t: State)
    requires Enabled(s, a) && Apply(s, a) == s' && Leads(s', rest, t)
    ensures Leads(s, [a] + rest, t)
  {
    assert ([a] + rest)[1..] == rest;
  }

  const EMPTY := Session([], false)

  /** A client on its second session, with these loops. */
  function Second(loops: seq<Loop>): State {
    State(0, [EMPTY, EMPTY], loops, 2, {1}, true, [], [], [])
  }

  /** Two loops with a write each in hand; the second one pushes first. */
  lemma SecondPushesFirst(s: State) returns (actions: seq<Action>, t: State)
    requires s.loops == [Pushing([0]), Pushing([1])] && s.queue == [] && s.received == []
    ensures Leads(s, actions, t) && t.received == [1, 0] && Connects(t) == Connects(s)
  {
    var s1 := s.(loops := [Pushing([0]), Pushing([])], queue := [1]);
    var s2 := s1.(loops := [Pushing([]), Pushing([])], queue := [1, 0]);
    var s3 := s2.(queue := [0], received := [1]);
    t := s2.(queue := [], received := [1, 0]);
    assert [0][1..] == [] && [1][1..] == [] && [1, 0][1..] == [0];
    LeadsOn(s3, Receive, t, [], t);
    LeadsOn(s2, Receive, s3, [Receive] + [], t);
    actions := [Receive] + ([Receive] + []);
    LeadsOn(s1, Push(0), s2, actions, t);
    actions := [Push(0)] + actions;
    LeadsOn(s, Push(1), s1, actions, t);
    actions := [Push(1)] + actions;
  }

  /** Two requests for the same session under way; each is answered with one write. */
  lemma BothAnswered() returns (actions: seq<Action>, t: State)
    ensures Leads(Second([Fetching(1), Fetching(1)]), actions, t) && t.received == [1, 0] && Connects(t) == 2
  {
    var s := Second([Fetching(1), Fetching(1)]);
    var s1 := s.(accepted := 1, sessions := [EMPTY, Session([0], false)]);
    var s2 := s.(accepted := 1, loops := [Pushing([0]), Fetching(1)]);
    var s3 := s2.(accepted := 2, sessions := [EMPTY, Session([1], false)]);
    var s4 := s.(accepted := 2, loops := [Pushing([0]), Pushing([1])]);
    assert [] + [0] == [0] && [] + [1] == [1];
    actions, t := SecondPushesFirst(s4);
    LeadsOn(s3, Answer(1), s4, actions, t);
    actions := [Answer(1)] + actions;
    LeadsOn(s2, Write(1), s3, actions, t);
    actions := [Write(1)] + actions;
    LeadsOn(s1, Answer(0), s2, actions, t);
    actions := [Answer(0)] + actions;
    LeadsOn(s, Write(1), s1, actions, t);
    actions := [Write(1)] + actions;
  }

  /** The old loop, back from its sleep, reads the new context and polls the new session beside the new loop. */
  lemma BothPoll() returns (actions: seq<Action>, t: State)
    ensures Leads(Second([Asleep, Asleep]), actions, t) && t.received == [1, 0] && Connects(t) == 2
  {
    actions, t := BothAnswered();
    LeadsOn(Second([Fetching(1), Selecting(2)]), Fetch(1), Second([Fetching(1), Fetching(1)]), actions, t);
    actions := [Fetch(1)] + actions;
    LeadsOn(Second([Selecting(2), Selecting(2)]), Fetch(0), Second([Fetching(1), Selecting(2)]), actions, t);
    actions := [Fetch(0)] + actions;
    LeadsOn(Second([Selecting(2), Asleep]), Wake(1), Second([Selecting(2), Selecting(2)]), actions, t);
    actions := [Wake(1)] + actions;
    LeadsOn(Second([Asleep, Asleep]), Wake(0), Second([Selecting(2), Asleep]), actions, t);
    actions := [Wake(0)] + actions;
  }

  /** The client connects, closes while its loop has a request under way, and connects again: nothing is lost, and
      Receive reverses two writes. */
  lemma CloseDuringFetchReorders() returns (actions: seq<Action>, t: State)
    ensures Leads(INIT, actions, t) && t.received == [1, 0] && Connects(t) == 2
  {
    var s1 := INIT.(ctx := 1, connected := true, sessions := [EMPTY], loops := [Asleep]);
    var s2 := s1.(loops := [Selecting(1)]);
    var s3 := s1.(loops := [Fetching(0)]);
    var s4 := s3.(cancelled := {1}, connected := false);
    actions, t := BothPoll();
    LeadsOn(Second([Fetching(0), Asleep]), NoAnswer(0, false), Second([Asleep, Asleep]), actions, t);
    actions := [NoAnswer(0, false)] + actions;
    LeadsOn(s4, Connect(true), Second([Fetching(0), Asleep]), actions, t);
    actions := [Connect(true)] + actions;
    LeadsOn(s3, Close, s4, actions, t);
    actions := [Close] + actions;
    LeadsOn(s2, Fetch(0), s3, actions, t);
    actions := [Fetch(0)] + actions;
    LeadsOn(s1, Wake(0), s2, actions, t);
    actions := [Wake(0)] + actions;
    LeadsOn(INIT, Connect(true), s1, actions, t);
    actions := [Connect(true)] + actions;
  }

  /** Receive follows the order of the writes in every run with at most n successful connects. */
  ghost predicate InOrderUpTo(n: nat) {
    forall actions, s :: Leads(INIT, actions, s) && Connects(s) <= n ==> Increasing(s.received)
  }

  /** It does for sure exactly as long as the client connects at most once. */
  lemma InOrderExactlyWhen(n: nat)
    ensures InOrderUpTo(n) <==> n <= 1
  {
    if n <= 1 {
      forall actions, s | Leads(INIT, actions, s) && Connects(s) <= n
        ensures Increasing(s.received)
      {
        ReceivedIsSubsequence(actions, s);
      }
    } else {
      var actions, t := CloseDuringFetchReorders();
      assert t.received[0] > t.received[1];
    }
    hide Leads;
  }
}
