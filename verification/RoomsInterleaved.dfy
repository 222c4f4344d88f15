/** The room manager under concurrent callers: every lock section is one step, so JoinRoom, LeaveRoom and LeaveAllRooms
    interleave. Room objects are numbered in order of creation. */
module RoomsInterleaved {
  /** Where a caller stands between two lock sections. */
  datatype Pc =
    | JoinLookup(name: string, id: string)
    | JoinCreate(name: string, id: string)
    | JoinAdd(name: string, id: string, room: nat)
    | LeaveLookup(name: string, id: string)
    | LeaveRemove(name: string, id: string, room: nat)
    | LeaveCount(name: string, room: nat)
    | LeavePrune(name: string)
    | AllSnapshot(id: string)
    | AllVisit(id: string, rest: set<nat>)
    | AllRemove(id: string, room: nat, rest: set<nat>)
    | AllCount(id: string, room: nat, rest: set<nat>)
    | AllPrune(id: string, room: nat, rest: set<nat>)
    | Finished

  datatype RoomObject = RoomObject(name: string, members: set<string>)

  datatype State = State(rooms: map<string, nat>, objects: seq<RoomObject>, callers: map<nat, Pc>)

  const INIT := State(map[], [], map[])

  datatype Call = Join(name: string, id: string) | Leave(name: string, id: string) | LeaveAll(id: string)

  /** A caller starts a call, takes its next step, or, inside LeaveAllRooms, picks the next room of its snapshot. */
  datatype Action = Start(c: nat, call: Call) | Step(c: nat) | Visit(c: nat, room: nat)

  /** What a step does to the shared state, as seen from outside. */
  datatype Event =
    | Got(name: string, room: nat)
    | Added(id: string, room: nat)
    | Removed(id: string, room: nat)
    | Pruned(name: string)
    | Quiet

  ghost predicate Closed(s: State) {
    && (forall n :: n in s.rooms ==> s.rooms[n] < |s.objects| && s.objects[s.rooms[n]].name == n)
    && (forall c :: c in s.callers ==> InRange(s.callers[c], |s.objects|))
  }

  ghost predicate InRange(p: Pc, n: nat) {
    && (p.JoinAdd? || p.LeaveRemove? || p.LeaveCount? ==> p.room < n)
    && (p.AllRemove? || p.AllCount? || p.AllPrune? ==> p.room < n)
    && (p.AllVisit? || p.AllRemove? || p.AllCount? || p.AllPrune? ==> forall r :: r in p.rest ==> r < n)
  }

  predicate Enabled(s: State, a: Action) {
    match a
    case Start(c, _) => c in s.callers ==> s.callers[c].Finished?
    case Step(c) => c in s.callers && !s.callers[c].Finished? && (s.callers[c].AllVisit? ==> s.callers[c].rest == {})
    case Visit(c, r) => c in s.callers && s.callers[c].AllVisit? && r in s.callers[c].rest
  }

  function At(s: State, c: nat, p: Pc): State {
    s.(callers := s.callers[c := p])
  }

  function WithMembers(s: State, r: nat, members: set<string>): State
    requires r < |s.objects|
  {
    s.(objects := s.objects[r := s.objects[r].(members := members)])
  }

  ghost function Apply(s: State, a: Action): State
    requires Closed(s) && Enabled(s, a)
  {
    match a
    case Start(c, Join(n, id)) => At(s, c, JoinLookup(n, id))
    case Start(c, Leave(n, id)) => At(s, c, LeaveLookup(n, id))
    case Start(c, LeaveAll(id)) => At(s, c, AllSnapshot(id))
    case Visit(c, r) =>
      var p := s.callers[c];
      var rest := p.rest - {r};
      At(s, c, if r < |s.objects| && p.id in s.objects[r].members then AllRemove(p.id, r, rest)
               else AllVisit(p.id, rest))
    case Step(c) =>
      match s.callers[c]
      case JoinLookup(n, id) => At(s, c, if n in s.rooms then JoinAdd(n, id, s.rooms[n]) else JoinCreate(n, id))
      case JoinCreate(n, id) =>
        if n in s.rooms then At(s, c, JoinAdd(n, id, s.rooms[n]))
        else
          var r := |s.objects|;
          State(s.rooms[n := r], s.objects + [RoomObject(n, {})], s.callers[c := JoinAdd(n, id, r)])
      case JoinAdd(_, id, r) => At(WithMembers(s, r, s.objects[r].members + {id}), c, Finished)
      case LeaveLookup(n, id) => At(s, c, if n in s.rooms then LeaveRemove(n, id, s.rooms[n]) else Finished)
      case LeaveRemove(n, id, r) => At(WithMembers(s, r, s.objects[r].members - {id}), c, LeaveCount(n, r))
      case LeaveCount(n, r) => At(s, c, if s.objects[r].members == {} then LeavePrune(n) else Finished)
      case LeavePrune(n) => At(s.(rooms := s.rooms - {n}), c, Finished)
      case AllSnapshot(id) => At(s, c, AllVisit(id, s.rooms.Values))
      case AllVisit(_, _) => At(s, c, Finished)
      case AllRemove(id, r, rest) => At(WithMembers(s, r, s.objects[r].members - {id}), c, AllCount(id, r, rest))
      case AllCount(id, r, rest) =>
        At(s, c, if s.objects[r].members == {} then AllPrune(id, r, rest) else AllVisit(id, rest))
      case AllPrune(id, r, rest) => At(s.(rooms := s.rooms - {s.objects[r].name}), c, AllVisit(id, rest))
      case Finished => s
  }

  ghost function EventOf(s: State, a: Action): Event
    requires Closed(s) && Enabled(s, a)
  {
    if !a.Step? then Quiet
    else
      match s.callers[a.c]
      case JoinLookup(n, _) => if n in s.rooms then Got(n, s.rooms[n]) else Quiet
      case JoinCreate(n, _) => Got(n, if n in s.rooms then s.rooms[n] else |s.objects|)
      case JoinAdd(_, id, r) => Added(id, r)
      case LeaveRemove(_, id, r) => Removed(id, r)
      case AllRemove(id, r, _) => Removed(id, r)
      case LeavePrune(n) => Pruned(n)
      case AllPrune(_, r, _) => Pruned(s.objects[r].name)
      case _ => Quiet
  }

  lemma RoomsStayClosed(s: State, a: Action)
    requires Closed(s) && Enabled(s, a)
    ensures var t := Apply(s, a);
      && |s.objects| <= |t.objects|
      && forall n :: n in t.rooms ==> t.rooms[n] < |t.objects| && t.objects[t.rooms[n]].name == n
  {
  }

  lemma ActorStaysInRange(s: State, a: Action)
    requires Closed(s) && Enabled(s, a)
    ensures var t := Apply(s, a); a.c in t.callers && InRange(t.callers[a.c], |t.objects|)
  {
    if a.c in s.callers {
      assert InRange(s.callers[a.c], |s.objects|);
    }
    hide Closed;
  }

  lemma OthersStay(s: State, a: Action)
    requires Closed(s) && Enabled(s, a)
    ensures var t := Apply(s, a);
      && t.callers.Keys == s.callers.Keys + {a.c}
      && forall c :: c in s.callers && c != a.c ==> t.callers[c] == s.callers[c]
  {
    hide Closed, InRange;
  }

  lemma StepKeepsClosed(s: State, a: Action)
    requires Closed(s) && Enabled(s, a)
    ensures Closed(Apply(s, a))
  {
    RoomsStayClosed(s, a);
    ActorStaysInRange(s, a);
    OthersStay(s, a);
    hide Apply;
  }

  /** `t` is reached from `s` by the actions, in this order. */
  ghost predicate Leads(s: State, actions: seq<Action>, t: State)
    decreases actions
  {
    if actions == [] then s == t
    else Closed(s) && Enabled(s, actions[0]) && Leads(Apply(s, actions[0]), actions[1..], t)
  }

  ghost function Trace(s: State, actions: seq<Action>, t: State): seq<Event>
    requires Leads(s, actions, t)
    decreases actions
  {
    if actions == [] then [] else [EventOf(s, actions[0])] + Trace(Apply(s, actions[0]), actions[1..], t)
  }

  // ----- What one step does to a name and to a membership

  lemma NameStep(s: State, a: Action, n: string, r: nat)
    requires Closed(s) && Enabled(s, a) && r < |s.objects|
    ensures var t := Apply(s, a);
      (n in t.rooms && t.rooms[n] == r) <==> (n in s.rooms && s.rooms[n] == r && EventOf(s, a) != Pruned(n))
  {
  }

  lemma MemberStep(s: State, a: Action, id: string, r: nat)
    requires Closed(s) && Enabled(s, a) && r < |s.objects|
    ensures r < |Apply(s, a).objects|
    ensures id in Apply(s, a).objects[r].members
            <==> EventOf(s, a) == Added(id, r) || (id in s.objects[r].members && EventOf(s, a) != Removed(id, r))
  {
  }

  /** A GetRoom step returns the room the manager holds under that name when the step is done. */
  lemma GotIsRegistered(s: State, a: Action, n: string, r: nat)
    requires Closed(s) && Enabled(s, a) && EventOf(s, a) == Got(n, r)
    ensures n in Apply(s, a).rooms && Apply(s, a).rooms[n] == r
  {
  }

  // ----- Whole runs

  lemma {:induction false} NameOverRun(s: State, actions: seq<Action>, t: State, n: string, r: nat)
    requires Closed(s) && Leads(s, actions, t) && r < |s.objects|
    ensures (n in t.rooms && t.rooms[n] == r)
            <==> n in s.rooms && s.rooms[n] == r && Pruned(n) !in Trace(s, actions, t)
    decreases actions
  {
    if actions != [] {
      var s' := Apply(s, actions[0]);
      RoomsStayClosed(s, actions[0]);
      StepKeepsClosed(s, actions[0]);
      NameStep(s, actions[0], n, r);
      hide Apply, EventOf;
      NameOverRun(s', actions[1..], t, n, r);
    }
  }

  /** Two GetRoom results for a name are the same object if no RemoveRoom of that name lies between them. */
  lemma SameRoomUnlessPruned(s: State, first: Action, actions: seq<Action>, t: State, second: Action, n: string,
                             r: nat, r': nat)
    requires Closed(s) && Enabled(s, first) && EventOf(s, first) == Got(n, r)
    requires Leads(Apply(s, first), actions, t)
    requires Closed(t) && Enabled(t, second) && EventOf(t, second) == Got(n, r')
    requires Pruned(n) !in Trace(Apply(s, first), actions, t)
    ensures r' == r
  {
    StepKeepsClosed(s, first);
    GotIsRegistered(s, first, n, r);
    NameOverRun(Apply(s, first), actions, t, n, r);
  }

  /** The last thing that happened to a membership was an AddSocket. */
  ghost predicate AddedLast(trace: seq<Event>, id: string, r: nat) {
    exists k :: 0 <= k < |trace| && trace[k] == Added(id, r)
                && forall j :: k < j < |trace| ==> trace[j] != Removed(id, r)
  }

  lemma AddedLastOfTail(e: Event, trace: seq<Event>, id: string, r: nat)
    requires AddedLast(trace, id, r)
    ensures AddedLast([e] + trace, id, r)
  {
    var all := [e] + trace;
    var k :| 0 <= k < |trace| && trace[k] == Added(id, r) && forall j :: k < j < |trace| ==> trace[j] != Removed(id, r);
    assert all[k + 1] == Added(id, r);
    assert forall j :: k + 1 < j < |all| ==> all[j] == trace[j - 1];
  }

  lemma AddedLastOfAll(e: Event, trace: seq<Event>, id: string, r: nat)
    requires AddedLast([e] + trace, id, r)
    ensures AddedLast(trace, id, r) || (e == Added(id, r) && Removed(id, r) !in trace)
  {
    var all := [e] + trace;
    var k :| 0 <= k < |all| && all[k] == Added(id, r) && forall j :: k < j < |all| ==> all[j] != Removed(id, r);
    assert forall j :: 0 <= j < |trace| ==> trace[j] == all[j + 1];
    if k > 0 {
      assert trace[k - 1] == Added(id, r);
    }
  }

  lemma AddedLastCons(e: Event, trace: seq<Event>, id: string, r: nat)
    ensures AddedLast([e] + trace, id, r)
            <==> AddedLast(trace, id, r) || (e == Added(id, r) && Removed(id, r) !in trace)
  {
    var all := [e] + trace;
    if AddedLast(all, id, r) {
      AddedLastOfAll(e, trace, id, r);
    }
    if AddedLast(trace, id, r) {
      AddedLastOfTail(e, trace, id, r);
    }
    if e == Added(id, r) && Removed(id, r) !in trace {
      assert all[0] == Added(id, r);
      assert forall j :: 0 < j < |all| ==> all[j] in trace;
    }
  }

  lemma {:induction false} MemberOverRun(s: State, actions: seq<Action>, t: State, id: string, r: nat)
    requires Closed(s) && Leads(s, actions, t) && r < |s.objects|
    ensures r < |t.objects|
    ensures id in t.objects[r].members
            <==> AddedLast(Trace(s, actions, t), id, r)
                 || (id in s.objects[r].members && Removed(id, r) !in Trace(s, actions, t))
    decreases actions
  {
    if actions != [] {
      var s' := Apply(s, actions[0]);
      MemberStep(s, actions[0], id, r);
      StepKeepsClosed(s, actions[0]);
      hide Apply, EventOf;
      AddedLastCons(EventOf(s, actions[0]), Trace(s', actions[1..], t), id, r);
      MemberOverRun(s', actions[1..], t, id, r);
    }
  }

  /** The manager shows socket `id` in the room object `r` under the name `n`. */
  ghost predicate Shows(s: State, n: string, id: string, r: nat) {
    n in s.rooms && s.rooms[n] == r && r < |s.objects| && id in s.objects[r].members
  }

  /** A join that got `r` from GetRoom and completed is visible through `r` exactly when since its GetRoom step no
      RemoveRoom of that name happened, and no RemoveSocket of that id on that room after the last AddSocket. */
  lemma JoinVisibleExactlyWhen(s: State, got: Action, actions: seq<Action>, t: State, n: string, id: string, r: nat)
    requires Closed(s) && Enabled(s, got) && EventOf(s, got) == Got(n, r)
    requires Leads(Apply(s, got), actions, t)
    requires Added(id, r) in Trace(Apply(s, got), actions, t)
    ensures var trace := Trace(Apply(s, got), actions, t);
      Shows(t, n, id, r) <==> Pruned(n) !in trace && AddedLast(trace, id, r)
  {
    var s1 := Apply(s, got);
    var trace := Trace(s1, actions, t);
    StepKeepsClosed(s, got);
    GotIsRegistered(s, got, n, r);
    NameOverRun(s1, actions, t, n, r);
    MemberOverRun(s1, actions, t, id, r);
    if Removed(id, r) !in trace {
      var k :| 0 <= k < |trace| && trace[k] == Added(id, r);
      assert AddedLast(trace, id, r);
    }
  }

  lemma LeadsOn(s: State, a: Action, s': State, rest: seq<Action>, t: State)
    requires Closed(s) && Enabled(s, a) && Apply(s, a) == s' && Leads(s', rest, t)
    ensures Leads(s, [a] + rest, t)
  {
    assert ([a] + rest)[1..] == rest;
  }

  /** The leave prunes the room, then the join adds its socket to the pruned object. */
  lemma AddAfterPrune(s: State, n: string, b: string, r: nat, c1: nat, c2: nat) returns (actions: seq<Action>, t: State)
    requires Closed(s) && c1 != c2 && r < |s.objects| && s.objects[r] == RoomObject(n, {})
    requires c1 in s.callers && s.callers[c1] == LeavePrune(n) && c2 in s.callers && s.callers[c2] == JoinAdd(n, b, r)
    ensures Leads(s, actions, t) && c2 in t.callers && t.callers[c2].Finished? && n !in t.rooms
    ensures t.objects == s.objects[r := RoomObject(n, {b})]
  {
    var s1 := At(s.(rooms := s.rooms - {n}), c1, Finished);
    t := At(WithMembers(s1, r, {b}), c2, Finished);
    StepKeepsClosed(s, Step(c1));
    assert {} + {b} == {b};
    LeadsOn(s1, Step(c2), t, [], t);
    LeadsOn(s, Step(c1), s1, [Step(c2)] + [], t);
    actions := [Step(c1)] + ([Step(c2)] + []);
  }

  /** The join looks the room up after the leave has counted no members and before it prunes the room. */
  lemma JoinIntoPrunedRoom(s: State, n: string, b: string, r: nat, c1: nat, c2: nat)
    returns (actions: seq<Action>, t: State)
    requires Closed(s) && c1 != c2 && n in s.rooms && s.rooms[n] == r && s.objects[r].members == {}
    requires c1 in s.callers && s.callers[c1] == LeavePrune(n) && (c2 in s.callers ==> s.callers[c2].Finished?)
    ensures Leads(s, actions, t) && c2 in t.callers && t.callers[c2].Finished? && n !in t.rooms
    ensures t.objects == s.objects[r := RoomObject(n, {b})]
  {
    var s1 := At(s, c2, JoinLookup(n, b));
    var s2 := At(s1, c2, JoinAdd(n, b, r));
    StepKeepsClosed(s, Start(c2, Join(n, b)));
    StepKeepsClosed(s1, Step(c2));
    actions, t := AddAfterPrune(s2, n, b, r, c1, c2);
    LeadsOn(s1, Step(c2), s2, actions, t);
    actions := [Step(c2)] + actions;
    LeadsOn(s, Start(c2, Join(n, b)), s1, actions, t);
    actions := [Start(c2, Join(n, b))] + actions;
  }

  /** The last two sections of the leave before the join comes in: remove the only member, count none. */
  lemma LeaveOfLastMember(s: State, n: string, a: string, b: string, r: nat, c1: nat, c2: nat)
    returns (actions: seq<Action>, t: State)
    requires Closed(s) && c1 != c2 && n in s.rooms && s.rooms[n] == r && s.objects[r].members == {a}
    requires c1 in s.callers && s.callers[c1] == LeaveRemove(n, a, r) && (c2 in s.callers ==> s.callers[c2].Finished?)
    ensures Leads(s, actions, t) && c2 in t.callers && t.callers[c2].Finished? && n !in t.rooms
    ensures t.objects == s.objects[r := RoomObject(n, {b})]
  {
    var s1 := At(WithMembers(s, r, {}), c1, LeaveCount(n, r));
    var s2 := At(s1, c1, LeavePrune(n));
    assert {a} - {a} == {};
    StepKeepsClosed(s, Step(c1));
    StepKeepsClosed(s1, Step(c1));
    actions, t := JoinIntoPrunedRoom(s2, n, b, r, c1, c2);
    LeadsOn(s1, Step(c1), s2, actions, t);
    actions := [Step(c1)] + actions;
    LeadsOn(s, Step(c1), s1, actions, t);
    actions := [Step(c1)] + actions;
  }

  /** From any state in which a room has a single member, a leave of that member and a concurrent join of another socket
      can both complete with the joined socket in no room of the manager. */
  lemma LastLeaveCanLoseJoin(s: State, n: string, a: string, b: string, c1: nat, c2: nat)
    requires Closed(s) && n in s.rooms && s.objects[s.rooms[n]].members == {a} && c1 != c2
    requires c1 in s.callers ==> s.callers[c1].Finished?
    requires c2 in s.callers ==> s.callers[c2].Finished?
    ensures exists actions, t :: Leads(s, actions, t) && n !in t.rooms && c2 in t.callers && t.callers[c2].Finished?
                                 && t.objects == s.objects[s.rooms[n] := RoomObject(n, {b})]
  {
    var r := s.rooms[n];
    var s1 := At(s, c1, LeaveLookup(n, a));
    var s2 := At(s1, c1, LeaveRemove(n, a, r));
    StepKeepsClosed(s, Start(c1, Leave(n, a)));
    StepKeepsClosed(s1, Step(c1));
    var rest, t := LeaveOfLastMember(s2, n, a, b, r, c1, c2);
    LeadsOn(s1, Step(c1), s2, rest, t);
    rest := [Step(c1)] + rest;
    LeadsOn(s, Start(c1, Leave(n, a)), s1, rest, t);
  }

  /** A manager with one room and one member, after one caller has finished. */
  function OneJoined(n: string, a: string, c: nat): State {
    State(map[n := 0], [RoomObject(n, {a})], map[c := Finished])
  }

  /** The only caller creates the room and adds its socket. */
  lemma CreateAndAdd(s: State, n: string, a: string, c: nat, rest: seq<Action>, t: State) returns (actions: seq<Action>)
    requires s == State(map[], [], map[c := JoinCreate(n, a)])
    requires Closed(OneJoined(n, a, c)) && Leads(OneJoined(n, a, c), rest, t)
    ensures Closed(s) && Leads(s, actions, t)
  {
    var s' := State(map[n := 0], [RoomObject(n, {})], map[c := JoinAdd(n, a, 0)]);
    assert Apply(s, Step(c)) == s';
    assert {} + {a} == {a};
    assert Apply(s', Step(c)) == OneJoined(n, a, c);
    hide Apply, OneJoined, Leads;
    LeadsOn(s', Step(c), OneJoined(n, a, c), rest, t);
    actions := [Step(c)] + rest;
    LeadsOn(s, Step(c), s', actions, t);
    actions := [Step(c)] + actions;
  }

  lemma FirstJoin(n: string, a: string, c: nat, rest: seq<Action>, t: State) returns (actions: seq<Action>)
    requires Closed(OneJoined(n, a, c)) && Leads(OneJoined(n, a, c), rest, t)
    ensures Closed(INIT) && Leads(INIT, actions, t)
  {
    var s1 := State(map[], [], map[c := JoinLookup(n, a)]);
    var s2 := State(map[], [], map[c := JoinCreate(n, a)]);
    assert Apply(INIT, Start(c, Join(n, a))) == s1 && Apply(s1, Step(c)) == s2;
    hide Apply, OneJoined, Leads;
    actions := CreateAndAdd(s2, n, a, c, rest, t);
    LeadsOn(s1, Step(c), s2, actions, t);
    actions := [Step(c)] + actions;
    LeadsOn(INIT, Start(c, Join(n, a)), s1, actions, t);
    actions := [Start(c, Join(n, a))] + actions;
  }

  /** The same from a fresh manager: one join makes the room, then the leave and the other join race. */
  lemma FreshManagerCanLoseJoin(n: string, a: string, b: string, c1: nat, c2: nat)
    requires c1 != c2
    ensures exists actions, t :: Closed(INIT) && Leads(INIT, actions, t) && n !in t.rooms
                                 && c2 in t.callers && t.callers[c2].Finished? && t.objects == [RoomObject(n, {b})]
  {
    var s := OneJoined(n, a, c1);
    LastLeaveCanLoseJoin(s, n, a, b, c1, c2);
    hide Leads;
    var rest, t :| Leads(s, rest, t) && n !in t.rooms && c2 in t.callers && t.callers[c2].Finished?
                   && t.objects == s.objects[s.rooms[n] := RoomObject(n, {b})];
    var actions := FirstJoin(n, a, c1, rest, t);
  }
}
