/** The server's socket index against its rooms: sockets connect, fail, are closed, removed and cleaned up
    asynchronously while others join and leave. Connect-and-register is one step, and so is each removal from the
    index with its Close; a disconnect event queues a clean-up that runs later. Joins are taken both as one step and
    as the two they are. */
module ServerIndex {
  type Id = string

  /** Socket `id` is in the room of that name. */
  datatype Pair = Pair(id: Id, room: string)

  /** open: the connected flag of each socket. pending: clean-ups fired but not yet run. used: identifiers given out.
      joining: joins that have found their socket in the index but not yet entered the room. fired: all disconnect
      events so far. polled: the long-polling sockets, whose reads never fail. failed: sockets whose receive loop has
      ended. */
  datatype State = State(registered: set<Id>, open: set<Id>, sessions: set<Id>, pending: multiset<Id>, pairs: set<Pair>,
                         joining: multiset<Pair>, used: set<Id>, fired: multiset<Id>, polled: set<Id>, failed: set<Id>)

  const INIT := State({}, {}, {}, multiset{}, {}, multiset{}, {}, multiset{}, {}, {})

  datatype Action =
    | Connect(id: Id, longPolling: bool)
    | ReadFails(id: Id)
    | CloseSocket(id: Id)
    | RemoveSession(id: Id)
    | CleanUp(id: Id)
    | Join(id: Id, room: string)
    | JoinLookup(id: Id, room: string)
    | JoinAdd(id: Id, room: string)
    | Leave(id: Id, room: string)
    | LeaveAll(id: Id)

  predicate Enabled(s: State, a: Action) {
    match a
    case Connect(id, _) => id !in s.used
    case ReadFails(id) => id in s.used && id !in s.polled && id !in s.failed
    case CleanUp(id) => id in s.pending
    case JoinAdd(id, room) => Pair(id, room) in s.joining
    case _ => true
  }

  function Fired(s: State, id: Id): State {
    s.(pending := s.pending + multiset{id}, fired := s.fired + multiset{id})
  }

  /** Only the first Close fires a disconnect event. */
  function Closed(s: State, id: Id): State {
    if id in s.open then Fired(s.(open := s.open - {id}), id) else s
  }

  function WithoutSocket(pairs: set<Pair>, id: Id): set<Pair> {
    set p | p in pairs && p.id != id
  }

  function Apply(s: State, a: Action): State
    requires Enabled(s, a)
  {
    match a
    case Connect(id, longPolling) =>
      s.(registered := s.registered + {id}, open := s.open + {id}, used := s.used + {id},
         sessions := if longPolling then s.sessions + {id} else s.sessions,
         polled := if longPolling then s.polled + {id} else s.polled)
    case ReadFails(id) => Fired(s.(failed := s.failed + {id}), id)
    case CloseSocket(id) => Closed(s, id)
    case RemoveSession(id) =>
      if id in s.sessions then Closed(s.(sessions := s.sessions - {id}, registered := s.registered - {id}), id) else s
    case CleanUp(id) =>
      s.(registered := s.registered - {id}, pairs := WithoutSocket(s.pairs, id), pending := s.pending - multiset{id})
    case Join(id, room) => if id in s.registered then s.(pairs := s.pairs + {Pair(id, room)}) else s
    case JoinLookup(id, room) => if id in s.registered then s.(joining := s.joining + multiset{Pair(id, room)}) else s
    case JoinAdd(id, room) => s.(joining := s.joining - multiset{Pair(id, room)}, pairs := s.pairs + {Pair(id, room)})
    case Leave(id, room) => s.(pairs := s.pairs - {Pair(id, room)})
    case LeaveAll(id) => s.(pairs := WithoutSocket(s.pairs, id))
  }

  lemma ConnectRegisters(s: State, id: Id, longPolling: bool)
    requires id !in s.used
    ensures Apply(s, Connect(id, longPolling))
            == s.(registered := s.registered + {id}, open := s.open + {id}, used := s.used + {id},
                  sessions := s.sessions + (if longPolling then {id} else {}),
                  polled := s.polled + (if longPolling then {id} else {}))
  {
  }

  predicate Known(s: State, id: Id) {
    id in s.registered || id in s.pending
  }

  /** Every room member is registered or has a clean-up to come. */
  ghost predicate MembersKnown(s: State) {
    forall p :: p in s.pairs ==> Known(s, p.id)
  }

  /** A registered socket is open or has a clean-up to come. */
  ghost predicate Inv(s: State) {
    MembersKnown(s) && forall id :: id in s.registered && id !in s.open ==> id in s.pending
  }

  /** A join that enters its room after the socket has left the index and its clean-ups have run. */
  predicate Late(s: State, a: Action) {
    a.JoinAdd? && !Known(s, a.id)
  }

  /** A step keeps the invariant exactly when it is not a late join. */
  lemma StepKeepsInvExactlyWhen(s: State, a: Action)
    requires Inv(s) && Enabled(s, a)
    ensures Inv(Apply(s, a)) <==> !Late(s, a)
  {
    if Late(s, a) {
      assert Pair(a.id, a.room) in Apply(s, a).pairs;
    }
  }

  ghost predicate Runs(s: State, actions: seq<Action>)
    decreases actions
  {
    actions == [] || (Enabled(s, actions[0]) && Runs(Apply(s, actions[0]), actions[1..]))
  }

  function After(s: State, actions: seq<Action>): State
    requires Runs(s, actions)
    decreases actions
  {
    if actions == [] then s else After(Apply(s, actions[0]), actions[1..])
  }

  ghost predicate InvThroughout(s: State, actions: seq<Action>)
    requires Runs(s, actions)
    decreases actions
  {
    Inv(s) && (actions == [] || InvThroughout(Apply(s, actions[0]), actions[1..]))
  }

  ghost predicate NoneLate(s: State, actions: seq<Action>)
    requires Runs(s, actions)
    decreases actions
  {
    actions == [] || (!Late(s, actions[0]) && NoneLate(Apply(s, actions[0]), actions[1..]))
  }

  lemma {:induction false} InvThroughoutExactlyWhen(s: State, actions: seq<Action>)
    requires Inv(s) && Runs(s, actions)
    ensures InvThroughout(s, actions) <==> NoneLate(s, actions)
    ensures NoneLate(s, actions) ==> Inv(After(s, actions))
    decreases actions
  {
    if actions != [] {
      StepKeepsInvExactlyWhen(s, actions[0]);
      if !Late(s, actions[0]) {
        InvThroughoutExactlyWhen(Apply(s, actions[0]), actions[1..]);
      }
    }
  }

  lemma {:induction false} AtomicJoinsAreNeverLate(s: State, actions: seq<Action>)
    requires Runs(s, actions) && forall a :: a in actions ==> !a.JoinAdd?
    ensures NoneLate(s, actions)
    decreases actions
  {
    if actions != [] {
      AtomicJoinsAreNeverLate(Apply(s, actions[0]), actions[1..]);
    }
  }

  /** Main result, with every join one step: in every reachable state each room member is registered or awaits a
      clean-up, so with nothing pending the members are among the registered sockets. */
  lemma MembersAreRegistered(actions: seq<Action>)
    requires Runs(INIT, actions) && forall a :: a in actions ==> !a.JoinAdd?
    ensures MembersKnown(After(INIT, actions))
    ensures After(INIT, actions).pending == multiset{} ==>
              forall p :: p in After(INIT, actions).pairs ==> p.id in After(INIT, actions).registered
  {
    AtomicJoinsAreNeverLate(INIT, actions);
    InvThroughoutExactlyWhen(INIT, actions);
  }

  /** The clean-up runs once per event; a second run changes neither the index nor the rooms. */
  lemma CleanUpTwice(s: State, id: Id)
    requires s.pending[id] >= 2
    ensures var once := Apply(s, CleanUp(id));
      id in once.pending && Apply(once, CleanUp(id)) == once.(pending := once.pending - multiset{id})
  {
    var once := Apply(s, CleanUp(id));
    assert once.pending[id] == s.pending[id] - 1;
  }

  lemma {:induction false} RunsSnoc(s: State, actions: seq<Action>, a: Action)
    requires Runs(s, actions) && Enabled(After(s, actions), a)
    ensures Runs(s, actions + [a]) && After(s, actions + [a]) == Apply(After(s, actions), a)
    decreases actions
  {
    if actions == [] {
      assert [a][1..] == [];
    } else {
      RunsSnoc(Apply(s, actions[0]), actions[1..], a);
      assert (actions + [a])[1..] == actions[1..] + [a];
    }
  }

  /** The sessions in `gone` are removed and their sockets closed: those still open fire one event each. */
  function WithoutSessions(s: State, gone: set<Id>): State {
    s.(sessions := s.sessions - gone, registered := s.registered - gone, open := s.open - gone,
       pending := s.pending + multiset(s.open * gone), fired := s.fired + multiset(s.open * gone))
  }

  lemma RemoveNone(s: State)
    ensures WithoutSessions(s, {}) == s && Runs(s, []) && After(s, []) == s
  {
  }

  lemma RemoveOneMore(s: State, gone: set<Id>, id: Id)
    requires id in s.sessions && id !in gone
    ensures Apply(WithoutSessions(s, gone), RemoveSession(id)) == WithoutSessions(s, gone + {id})
  {
    var t, u := Apply(WithoutSessions(s, gone), RemoveSession(id)), WithoutSessions(s, gone + {id});
    assert t.sessions == u.sessions && t.registered == u.registered && t.open == u.open;
    if id in s.open {
      assert s.open * (gone + {id}) == s.open * gone + {id};
      assert multiset(s.open * gone + {id}) == multiset(s.open * gone) + multiset{id};
    } else {
      assert s.open * (gone + {id}) == s.open * gone;
    }
  }

  /** Removing sessions in bulk is removing them one after the other. */
  lemma {:induction false} RemovalsAreARun(s: State, gone: set<Id>) returns (actions: seq<Action>)
    requires gone <= s.sessions
    ensures Runs(s, actions) && After(s, actions) == WithoutSessions(s, gone)
    ensures forall a :: a in actions ==> a.RemoveSession? && a.id in gone
  {
    hide WithoutSessions, Apply, Runs, After;
    if gone == {} {
      actions := [];
      RemoveNone(s);
    } else {
      var id :| id in gone;
      actions := RemovalsAreARun(s, gone - {id});
      RemoveOneMore(s, gone - {id}, id);
      assert gone - {id} + {id} == gone;
      RunsSnoc(s, actions, RemoveSession(id));
      actions := actions + [RemoveSession(id)];
    }
  }

  lemma RunsOn(s: State, a: Action, s': State, rest: seq<Action>)
    requires Enabled(s, a) && Apply(s, a) == s' && Runs(s', rest)
    ensures Runs(s, [a] + rest) && After(s, [a] + rest) == After(s', rest)
  {
    assert ([a] + rest)[1..] == rest;
  }

  /** With joins as two steps any socket can end up as a member that is neither registered nor awaiting a clean-up. */
  lemma LateJoinLeavesOrphan(id: Id, room: string)
    ensures exists actions :: Runs(INIT, actions)
              && After(INIT, actions)
                 == State({}, {}, {}, multiset{}, {Pair(id, room)}, multiset{}, {id}, multiset{id}, {}, {})
  {
    var s1 := State({id}, {id}, {}, multiset{}, {}, multiset{}, {id}, multiset{}, {}, {});
    var s2 := s1.(joining := multiset{Pair(id, room)});
    var s3 := s2.(open := {}, pending := multiset{id}, fired := multiset{id});
    var s4 := s3.(registered := {}, pending := multiset{});
    var s5 := s4.(joining := multiset{}, pairs := {Pair(id, room)});
    var rest: seq<Action> := [];
    RunsOn(s4, JoinAdd(id, room), s5, rest);
    rest := [JoinAdd(id, room)] + rest;
    assert {id} - {id} == {};
    RunsOn(s3, CleanUp(id), s4, rest);
    rest := [CleanUp(id)] + rest;
    RunsOn(s2, CloseSocket(id), s3, rest);
    rest := [CloseSocket(id)] + rest;
    RunsOn(s1, JoinLookup(id, room), s2, rest);
    rest := [JoinLookup(id, room)] + rest;
    RunsOn(INIT, Connect(id, false), s1, rest);
  }

  // ----- How often a socket is told that it is disconnected

  /** One event for the failed read of its receive loop, and one for the first Close, in either order. */
  ghost predicate EventsHaveCause(s: State) {
    && s.open <= s.used && s.polled <= s.used && s.failed <= s.used && s.polled !! s.failed
    && (forall id :: id !in s.used ==> s.fired[id] == 0)
    && (forall id :: id in s.used ==>
          s.fired[id] == (if id in s.failed then 1 else 0) + (if id in s.open then 0 else 1))
    && s.sessions <= s.polled
  }

  lemma StepKeepsEvents(s: State, a: Action)
    requires EventsHaveCause(s) && Enabled(s, a)
    ensures EventsHaveCause(Apply(s, a))
  {
  }

  lemma {:induction false} RunKeepsEvents(s: State, actions: seq<Action>)
    requires EventsHaveCause(s) && Runs(s, actions)
    ensures EventsHaveCause(After(s, actions))
    decreases actions
  {
    if actions != [] {
      StepKeepsEvents(s, actions[0]);
      RunKeepsEvents(Apply(s, actions[0]), actions[1..]);
    }
  }

  /** In every run a socket gets at most two disconnect events, and two exactly if its read has failed and it is
      closed. A long-polling socket gets at most one, so the channel that its waiter closes on each event is closed at
      most once. */
  lemma TwoDisconnectsExactlyWhen(actions: seq<Action>, id: Id)
    requires Runs(INIT, actions)
    ensures var s := After(INIT, actions);
      && s.fired[id] <= 2
      && (s.fired[id] == 2 <==> id in s.failed && id !in s.open)
      && (id in s.polled ==> s.fired[id] <= 1)
  {
    RunKeepsEvents(INIT, actions);
    hide Runs, After;
  }

  function CleanUps(actions: seq<Action>, id: Id): nat {
    if actions == [] then 0 else (if actions[0] == CleanUp(id) then 1 else 0) + CleanUps(actions[1..], id)
  }

  lemma PendingStep(s: State, a: Action, id: Id)
    requires Enabled(s, a)
    ensures Apply(s, a).pending[id] + (if a == CleanUp(id) then 1 else 0) + s.fired[id]
            == Apply(s, a).fired[id] + s.pending[id]
  {
  }

  /** Over every run each disconnect event has run its clean-up once, or has it still to come. */
  lemma {:induction false} OneCleanUpPerEvent(s: State, actions: seq<Action>, id: Id)
    requires Runs(s, actions)
    ensures After(s, actions).pending[id] + CleanUps(actions, id) + s.fired[id]
            == After(s, actions).fired[id] + s.pending[id]
    decreases actions
  {
    if actions != [] {
      PendingStep(s, actions[0], id);
      OneCleanUpPerEvent(Apply(s, actions[0]), actions[1..], id);
      hide Apply;
    }
  }

  /** A WebSocket socket whose read fails is told twice once its receive loop closes it. */
  lemma FailedReadTellsTwice(id: Id)
    ensures exists actions :: Runs(INIT, actions) && After(INIT, actions).fired[id] == 2
  {
    var s1 := Apply(INIT, Connect(id, false));
    var s2 := Apply(s1, ReadFails(id));
    var s3 := Apply(s2, CloseSocket(id));
    RunsOn(s2, CloseSocket(id), s3, []);
    RunsOn(s1, ReadFails(id), s2, [CloseSocket(id)] + []);
    RunsOn(INIT, Connect(id, false), s1, [ReadFails(id)] + ([CloseSocket(id)] + []));
    hide Runs, After;
  }

  // ----- Who is where, told from the run alone

  /** The state before the k-th action of the run. */
  function Before(s: State, actions: seq<Action>, k: nat): State
    requires Runs(s, actions) && k <= |actions|
    decreases actions
  {
    if k == 0 then s else Before(Apply(s, actions[0]), actions[1..], k - 1)
  }

  /** A join of a registered socket, or the second half of one. */
  predicate Enters(s: State, a: Action, p: Pair) {
    (a == Join(p.id, p.room) && p.id in s.registered) || a == JoinAdd(p.id, p.room)
  }

  /** A leave of that room or of all rooms, or a clean-up. */
  predicate Exits(a: Action, p: Pair) {
    a == Leave(p.id, p.room) || a == LeaveAll(p.id) || a == CleanUp(p.id)
  }

  /** Some join of the socket to the room was not undone since. */
  ghost predicate Standing(s: State, actions: seq<Action>, p: Pair)
    requires Runs(s, actions)
  {
    exists k :: 0 <= k < |actions| && Enters(Before(s, actions, k), actions[k], p)
                && forall j :: k < j < |actions| ==> !Exits(actions[j], p)
  }

  ghost predicate NoneExits(actions: seq<Action>, p: Pair) {
    forall a :: a in actions ==> !Exits(a, p)
  }

  lemma StandingStep(s: State, actions: seq<Action>, p: Pair)
    requires actions != [] && Runs(s, actions)
    ensures Standing(s, actions, p)
            <==> || Standing(Apply(s, actions[0]), actions[1..], p)
                 || (Enters(s, actions[0], p) && NoneExits(actions[1..], p))
  {
    var s', rest := Apply(s, actions[0]), actions[1..];
    hide Apply, Enters, Exits;
    if Standing(s, actions, p) {
      var k :| 0 <= k < |actions| && Enters(Before(s, actions, k), actions[k], p)
               && forall j :: k < j < |actions| ==> !Exits(actions[j], p);
      if k > 0 {
        assert Before(s, actions, k) == Before(s', rest, k - 1) && rest[k - 1] == actions[k];
      }
    }
    if Standing(s', rest, p) {
      var k :| 0 <= k < |rest| && Enters(Before(s', rest, k), rest[k], p)
               && forall j :: k < j < |rest| ==> !Exits(rest[j], p);
      assert Before(s, actions, k + 1) == Before(s', rest, k) && actions[k + 1] == rest[k];
    }
    if Enters(s, actions[0], p) && NoneExits(rest, p) {
      assert Before(s, actions, 0) == s && forall j :: 0 < j < |actions| ==> actions[j] in rest;
    }
  }

  /** Nothing else touches the memberships. */
  lemma OthersKeepPairs(s: State, a: Action)
    requires Enabled(s, a) && (a.Connect? || a.ReadFails? || a.CloseSocket? || a.RemoveSession? || a.JoinLookup?)
    ensures Apply(s, a).pairs == s.pairs
  {
  }

  lemma JoinAddsPair(s: State, a: Action)
    requires Enabled(s, a) && (a.Join? || a.JoinAdd?)
    ensures Apply(s, a).pairs == if a.JoinAdd? || a.id in s.registered then s.pairs + {Pair(a.id, a.room)} else s.pairs
  {
  }

  lemma LeaveRemovesPairs(s: State, a: Action)
    requires Enabled(s, a) && (a.Leave? || a.LeaveAll? || a.CleanUp?)
    ensures Apply(s, a).pairs == if a.Leave? then s.pairs - {Pair(a.id, a.room)} else WithoutSocket(s.pairs, a.id)
  {
  }

  lemma PairStep(s: State, a: Action, p: Pair)
    requires Enabled(s, a)
    ensures p in Apply(s, a).pairs <==> Enters(s, a, p) || (p in s.pairs && !Exits(a, p))
    ensures Enters(s, a, p) ==> !Exits(a, p)
  {
    hide Apply, Enabled;
    match a
    case Join(_, _) => JoinAddsPair(s, a);
    case JoinAdd(_, _) => JoinAddsPair(s, a);
    case Leave(_, _) => LeaveRemovesPairs(s, a);
    case LeaveAll(_) => LeaveRemovesPairs(s, a);
    case CleanUp(_) => LeaveRemovesPairs(s, a);
    case _ => OthersKeepPairs(s, a);
  }

  /** Main result: over every run a socket is in a room exactly if some join of it was not undone since by a leave of
      that room, a leave of all rooms or a clean-up of that socket, or it was there before and none of these came. */
  lemma {:induction false} PairOverRun(s: State, actions: seq<Action>, p: Pair)
    requires Runs(s, actions)
    ensures p in After(s, actions).pairs <==> Standing(s, actions, p) || (p in s.pairs && NoneExits(actions, p))
    decreases actions
  {
    if actions != [] {
      hide Apply, Enters, Exits;
      PairStep(s, actions[0], p);
      PairOverRun(Apply(s, actions[0]), actions[1..], p);
      StandingStep(s, actions, p);
      assert actions == [actions[0]] + actions[1..];
    }
  }

  /** How often a join found its socket registered, and how often one entered the room afterwards. */
  function LookUps(s: State, actions: seq<Action>, p: Pair): nat
    requires Runs(s, actions)
    decreases actions
  {
    if actions == [] then 0
    else (if actions[0] == JoinLookup(p.id, p.room) && p.id in s.registered then 1 else 0)
         + LookUps(Apply(s, actions[0]), actions[1..], p)
  }

  function Adds(actions: seq<Action>, p: Pair): nat {
    if actions == [] then 0 else (if actions[0] == JoinAdd(p.id, p.room) then 1 else 0) + Adds(actions[1..], p)
  }

  lemma JoiningStep(s: State, a: Action, p: Pair)
    requires Enabled(s, a)
    ensures Apply(s, a).joining[p] == s.joining[p]
            + (if a == JoinLookup(p.id, p.room) && p.id in s.registered then 1 else 0)
            - (if a == JoinAdd(p.id, p.room) then 1 else 0)
  {
  }

  /** Each join in two steps enters its room at most once, and only if it found its socket registered before. */
  lemma {:induction false} EachAddWasLookedUp(s: State, actions: seq<Action>, p: Pair)
    requires Runs(s, actions)
    ensures After(s, actions).joining[p] + Adds(actions, p) == s.joining[p] + LookUps(s, actions, p)
    decreases actions
  {
    if actions != [] {
      JoiningStep(s, actions[0], p);
      EachAddWasLookedUp(Apply(s, actions[0]), actions[1..], p);
    }
  }

  /** The three sets a connection enters: the index, the open sockets, and, if it is long-polling, the sessions. */
  datatype Kind = Index | Open | Session

  function In(s: State, kind: Kind): set<Id> {
    match kind case Index => s.registered case Open => s.open case Session => s.sessions
  }

  /** The action takes a socket, with or without a session, out of the set. */
  predicate TakesOut(a: Action, kind: Kind, id: Id, session: bool) {
    match kind
    case Index => a == CleanUp(id) || (session && a == RemoveSession(id))
    case Open => a == CloseSocket(id) || (session && a == RemoveSession(id))
    case Session => a == RemoveSession(id)
  }

  predicate Stays(actions: seq<Action>, kind: Kind, id: Id, session: bool) {
    forall a :: a in actions ==> !TakesOut(a, kind, id, session)
  }

  /** The action puts a new connection into the set. */
  predicate PutsIn(a: Action, kind: Kind, id: Id) {
    a.Connect? && a.id == id && (kind == Session ==> a.longPolling)
  }

  /** The socket connected, and nothing took it out of the set since. */
  ghost predicate StaysIn(actions: seq<Action>, kind: Kind, id: Id) {
    exists k :: 0 <= k < |actions| && PutsIn(actions[k], kind, id)
                && Stays(actions[k + 1..], kind, id, actions[k].longPolling)
  }

  lemma StaysOn(a: Action, rest: seq<Action>, kind: Kind, id: Id, session: bool)
    ensures Stays([a] + rest, kind, id, session) <==> !TakesOut(a, kind, id, session) && Stays(rest, kind, id, session)
  {
    assert a in [a] + rest && forall x :: x in [a] + rest <==> x == a || x in rest;
  }

  lemma StaysInStep(a: Action, rest: seq<Action>, kind: Kind, id: Id)
    ensures StaysIn([a] + rest, kind, id)
            <==> StaysIn(rest, kind, id) || (PutsIn(a, kind, id) && Stays(rest, kind, id, a.longPolling))
  {
    hide Stays;
    var actions := [a] + rest;
    assert actions[1..] == rest;
    if StaysIn(actions, kind, id) {
      var k :| 0 <= k < |actions| && PutsIn(actions[k], kind, id)
               && Stays(actions[k + 1..], kind, id, actions[k].longPolling);
      if k > 0 {
        assert PutsIn(rest[k - 1], kind, id) && rest[k..] == actions[k + 1..];
      }
    }
    if StaysIn(rest, kind, id) {
      var k :| 0 <= k < |rest| && PutsIn(rest[k], kind, id) && Stays(rest[k + 1..], kind, id, rest[k].longPolling);
      assert PutsIn(actions[k + 1], kind, id) && actions[k + 2..] == rest[k + 1..];
    }
    if PutsIn(a, kind, id) && Stays(rest, kind, id, a.longPolling) {
      assert PutsIn(actions[0], kind, id);
    }
  }

  ghost predicate AllUsed(s: State) {
    s.registered <= s.used && s.open <= s.used && s.sessions <= s.used
  }

  /** What a step does to the three sets. */
  lemma SetsStep(s: State, a: Action)
    requires Enabled(s, a)
    ensures var t := Apply(s, a);
      match a
      case Connect(id, longPolling) =>
        && id !in s.used && t.used == s.used + {id} && t.registered == s.registered + {id} && t.open == s.open + {id}
        && t.sessions == s.sessions + (if longPolling then {id} else {})
      case CloseSocket(id) => t.used == s.used && t.registered == s.registered && t.open == s.open - {id}
                              && t.sessions == s.sessions
      case RemoveSession(id) =>
        var gone := if id in s.sessions then {id} else {};
        t.used == s.used && t.registered == s.registered - gone && t.open == s.open - gone
        && t.sessions == s.sessions - gone
      case CleanUp(id) => t.used == s.used && t.registered == s.registered - {id} && t.open == s.open
                          && t.sessions == s.sessions
      case _ => t.used == s.used && t.registered == s.registered && t.open == s.open && t.sessions == s.sessions
  {
  }

  lemma KindStep(s: State, a: Action, kind: Kind, id: Id)
    requires Enabled(s, a) && AllUsed(s)
    ensures AllUsed(Apply(s, a))
    ensures id in In(Apply(s, a), kind)
            <==> PutsIn(a, kind, id) || (id in In(s, kind) && !TakesOut(a, kind, id, id in s.sessions))
    ensures a.Connect? && a.id == id ==> id !in s.used && (id in Apply(s, a).sessions <==> a.longPolling)
    ensures id in In(s, kind) && id in In(Apply(s, a), kind) ==> (id in Apply(s, a).sessions <==> id in s.sessions)
  {
    SetsStep(s, a);
    hide Apply, Enabled;
  }

  /** Over every run a socket is in the index exactly if it connected and neither its clean-up nor the removal of its
      session came since; it is open exactly if neither a Close nor that removal did; and it has a session exactly if it
      connected by long polling and the session was not removed. */
  lemma {:induction false} KindOverRun(s: State, actions: seq<Action>, kind: Kind, id: Id)
    requires Runs(s, actions) && AllUsed(s)
    ensures id in In(After(s, actions), kind)
            <==> StaysIn(actions, kind, id) || (id in In(s, kind) && Stays(actions, kind, id, id in s.sessions))
    decreases actions
  {
    if actions != [] {
      var a, rest := actions[0], actions[1..];
      assert actions == [a] + rest;
      StaysOn(a, rest, kind, id, id in s.sessions);
      KindStep(s, a, kind, id);
      KindOverRun(Apply(s, a), rest, kind, id);
      StaysInStep(a, rest, kind, id);
      hide Apply, Stays, TakesOut, In, AllUsed;
    }
  }

  /** Told from a whole run alone: who is in the index, open, and with a session, and who is in which room. */
  lemma IndexTellsTheRun(actions: seq<Action>, kind: Kind, p: Pair)
    requires Runs(INIT, actions)
    ensures p.id in In(After(INIT, actions), kind) <==> StaysIn(actions, kind, p.id)
    ensures p in After(INIT, actions).pairs <==> Standing(INIT, actions, p)
  {
    KindOverRun(INIT, actions, kind, p.id);
    PairOverRun(INIT, actions, p);
    hide Runs, After;
  }
}
