/** Calls of the room manager over runs of its lock sections: what a call makes of the memberships when nobody
    interferes, when a leave prunes a room, and when a member stays visible whoever interferes. */
module RoomCalls {
  import Rooms
  import opened RoomsInterleaved

  // ----- Who is where, by identifiers

  type Ids = map<string, set<string>>

  ghost function Contents(s: State): Ids
    requires Closed(s)
  {
    map n | n in s.rooms :: s.objects[s.rooms[n]].members
  }

  ghost function IdsOf(v: Rooms.View): Ids {
    map n | n in v :: v[n].Keys
  }

  function WithMember(v: Ids, n: string, id: string): Ids {
    v[n := (if n in v then v[n] else {}) + {id}]
  }

  function Swept(v: Ids, n: string): Ids {
    if n in v && v[n] == {} then v - {n} else v
  }

  function Without(v: Ids, n: string, id: string): Ids {
    if n in v then Swept(v[n := v[n] - {id}], n) else v
  }

  function WithoutSome(v: Ids, id: string, names: set<string>): Ids {
    map n | n in v && !(n in names && id in v[n] && v[n] - {id} == {}) :: if n in names then v[n] - {id} else v[n]
  }

  /** The memberships after a call that nobody disturbs. */
  function Effect(v: Ids, call: Call): Ids {
    match call
    case Join(n, id) => WithMember(v, n, id)
    case Leave(n, id) => Without(v, n, id)
    case LeaveAll(id) => WithoutSome(v, id, v.Keys)
  }

  /** The sequential view of the rooms says the same. */
  lemma EffectOnViews(v: Rooms.View, n: string, x: Rooms.Socket, id: string)
    ensures Effect(IdsOf(v), Join(n, x.id)) == IdsOf(Rooms.Joined(v, n, x))
    ensures Effect(IdsOf(v), Leave(n, id)) == IdsOf(Rooms.Left(v, n, id))
    ensures Effect(IdsOf(v), LeaveAll(id)) == IdsOf(Rooms.LeftAll(v, id))
  {
    hide IdsOf, Rooms.Joined, Rooms.Left, Rooms.LeftAll;
    JoinOnViews(v, n, x);
    LeaveOnViews(v, n, id);
    LeaveAllOnViews(v, id);
  }

  lemma JoinOnViews(v: Rooms.View, n: string, x: Rooms.Socket)
    ensures WithMember(IdsOf(v), n, x.id) == IdsOf(Rooms.Joined(v, n, x))
  {
    var a, b := WithMember(IdsOf(v), n, x.id), IdsOf(Rooms.Joined(v, n, x));
    assert a[n] == b[n] by {
      assert Rooms.MembersOf(v, n)[x.id := x].Keys == Rooms.MembersOf(v, n).Keys + {x.id};
    }
    assert a.Keys == b.Keys && forall k :: k in v && k != n ==> a[k] == b[k];
  }

  lemma LeaveOnViews(v: Rooms.View, n: string, id: string)
    ensures Without(IdsOf(v), n, id) == IdsOf(Rooms.Left(v, n, id))
  {
    if n in v {
      KeysLeft(v[n], id);
    }
  }

  lemma LeaveAllOnViews(v: Rooms.View, id: string)
    ensures WithoutSome(IdsOf(v), id, IdsOf(v).Keys) == IdsOf(Rooms.LeftAll(v, id))
  {
    forall n | n in v
      ensures (v[n] - {id}).Keys == v[n].Keys - {id} && (v[n] - {id} == map[] <==> v[n].Keys - {id} == {})
    {
      KeysLeft(v[n], id);
    }
  }

  lemma KeysLeft(m: Rooms.Members, id: string)
    ensures (m - {id}).Keys == m.Keys - {id} && (m - {id} == map[] <==> m.Keys - {id} == {})
  {
    assert (m - {id}).Keys == m.Keys - {id};
  }

  // ----- A call that nobody disturbs

  function NamesOf(objects: seq<RoomObject>, rs: set<nat>): set<string> {
    set r | r in rs && r < |objects| :: objects[r].name
  }

  /** The manager holds the room object under its own name. */
  predicate Bound(s: State, r: nat) {
    r < |s.objects| && s.objects[r].name in s.rooms && s.rooms[s.objects[r].name] == r
  }

  /** The room objects in a caller's hands are those of the manager. */
  ghost predicate Tied(s: State, p: Pc) {
    match p
    case JoinAdd(n, _, r) => Bound(s, r) && s.objects[r].name == n
    case LeaveRemove(n, _, r) => Bound(s, r) && s.objects[r].name == n
    case LeaveCount(n, r) => Bound(s, r) && s.objects[r].name == n
    case AllVisit(_, rest) => forall r :: r in rest ==> Bound(s, r)
    case AllRemove(_, r, rest) => Bound(s, r) && r !in rest && forall x :: x in rest ==> Bound(s, x)
    case AllCount(_, r, rest) => Bound(s, r) && r !in rest && forall x :: x in rest ==> Bound(s, x)
    case AllPrune(_, r, rest) => Bound(s, r) && r !in rest && forall x :: x in rest ==> Bound(s, x)
    case _ => true
  }

  /** What the call still to be finished by a caller will make of the memberships. */
  ghost function Outcome(s: State, p: Pc): Ids
    requires Closed(s) && Tied(s, p)
  {
    var v := Contents(s);
    match p
    case JoinLookup(n, id) => WithMember(v, n, id)
    case JoinCreate(n, id) => WithMember(v, n, id)
    case JoinAdd(n, id, _) => WithMember(v, n, id)
    case LeaveLookup(n, id) => Without(v, n, id)
    case LeaveRemove(n, id, _) => Without(v, n, id)
    case LeaveCount(n, _) => Swept(v, n)
    case LeavePrune(n) => v - {n}
    case AllSnapshot(id) => WithoutSome(v, id, v.Keys)
    case AllVisit(id, rest) => WithoutSome(v, id, NamesOf(s.objects, rest))
    case AllRemove(id, r, rest) => WithoutSome(Without(v, s.objects[r].name, id), id, NamesOf(s.objects, rest))
    case AllCount(id, r, rest) => WithoutSome(Swept(v, s.objects[r].name), id, NamesOf(s.objects, rest))
    case AllPrune(id, r, rest) => WithoutSome(v - {s.objects[r].name}, id, NamesOf(s.objects, rest))
    case Finished => v
  }

  /** Adding or removing a member of a bound room changes the contents under its name. */
  lemma ContentsUpdate(s: State, c: nat, r: nat, members: set<string>, p: Pc)
    requires Closed(s) && Bound(s, r) && Closed(At(WithMembers(s, r, members), c, p))
    ensures Contents(At(WithMembers(s, r, members), c, p)) == Contents(s)[s.objects[r].name := members]
  {
    var t, n := At(WithMembers(s, r, members), c, p), s.objects[r].name;
    forall k | k in s.rooms
      ensures t.objects[t.rooms[k]].members == if k == n then members else s.objects[s.rooms[k]].members
    {
    }
  }

  /** One step of the only caller that moves. */
  ghost predicate KeepsOutcome(s: State, a: Action)
    requires Closed(s) && Enabled(s, a) && a.c in s.callers && Tied(s, s.callers[a.c])
  {
    var t := Apply(s, a);
    && Closed(t) && a.c in t.callers && Tied(t, t.callers[a.c])
    && Outcome(t, t.callers[a.c]) == Outcome(s, s.callers[a.c])
  }

  lemma JoinAddKeeps(s: State, c: nat)
    requires Closed(s) && Enabled(s, Step(c)) && Tied(s, s.callers[c]) && s.callers[c].JoinAdd?
    ensures KeepsOutcome(s, Step(c))
  {
    StepKeepsClosed(s, Step(c));
    var r := s.callers[c].room;
    ContentsUpdate(s, c, r, s.objects[r].members + {s.callers[c].id}, Finished);
    hide Contents, Closed;
  }

  lemma JoinLookupKeeps(s: State, c: nat)
    requires Closed(s) && Enabled(s, Step(c)) && (s.callers[c].JoinLookup? || s.callers[c].JoinCreate?)
    ensures KeepsOutcome(s, Step(c))
  {
    StepKeepsClosed(s, Step(c));
    hide InRange;
  }

  lemma LeaveRemoveKeeps(s: State, c: nat)
    requires Closed(s) && Enabled(s, Step(c)) && Tied(s, s.callers[c]) && s.callers[c].LeaveRemove?
    ensures KeepsOutcome(s, Step(c))
  {
    StepKeepsClosed(s, Step(c));
    var p := s.callers[c];
    ContentsUpdate(s, c, p.room, s.objects[p.room].members - {p.id}, LeaveCount(p.name, p.room));
    hide Closed;
  }

  lemma LeaveLookupKeeps(s: State, c: nat)
    requires Closed(s) && Enabled(s, Step(c)) && Tied(s, s.callers[c])
    requires s.callers[c].LeaveLookup? || s.callers[c].LeaveCount? || s.callers[c].LeavePrune?
    ensures KeepsOutcome(s, Step(c))
  {
    StepKeepsClosed(s, Step(c));
    hide InRange;
  }

  /** In the map of the manager no two names share an object. */
  lemma NamesWithout(s: State, rest: set<nat>, r: nat)
    requires Bound(s, r) && forall x :: x in rest ==> Bound(s, x)
    ensures NamesOf(s.objects, rest - {r}) == NamesOf(s.objects, rest) - {s.objects[r].name}
  {
  }

  lemma VisitedName(v: Ids, id: string, names: set<string>, n: string)
    requires n in v && n in names
    ensures id in v[n] ==> WithoutSome(Without(v, n, id), id, names - {n}) == WithoutSome(v, id, names)
    ensures id !in v[n] ==> WithoutSome(v, id, names - {n}) == WithoutSome(v, id, names)
  {
    if id !in v[n] {
      assert v[n] - {id} == v[n];
    }
  }

  lemma VisitKeeps(s: State, c: nat, r: nat)
    requires Closed(s) && Enabled(s, Visit(c, r)) && Tied(s, s.callers[c])
    ensures KeepsOutcome(s, Visit(c, r))
  {
    StepKeepsClosed(s, Visit(c, r));
    var p := s.callers[c];
    NamesWithout(s, p.rest, r);
    VisitedName(Contents(s), p.id, NamesOf(s.objects, p.rest), s.objects[r].name);
    assert s.objects[r].name in NamesOf(s.objects, p.rest);
    assert Contents(Apply(s, Visit(c, r))) == Contents(s);
    hide WithoutSome, Without, NamesOf, Contents, Closed, InRange;
  }

  lemma AllRemoveKeeps(s: State, c: nat)
    requires Closed(s) && Enabled(s, Step(c)) && Tied(s, s.callers[c]) && s.callers[c].AllRemove?
    ensures KeepsOutcome(s, Step(c))
  {
    StepKeepsClosed(s, Step(c));
    var p := s.callers[c];
    ContentsUpdate(s, c, p.room, s.objects[p.room].members - {p.id}, AllCount(p.id, p.room, p.rest));
    var t := Apply(s, Step(c));
    assert NamesOf(t.objects, p.rest) == NamesOf(s.objects, p.rest);
    hide WithoutSome, NamesOf, Closed, InRange;
  }

  lemma AllCountKeeps(s: State, c: nat)
    requires Closed(s) && Enabled(s, Step(c)) && Tied(s, s.callers[c])
    requires s.callers[c].AllCount? || s.callers[c].AllPrune?
    ensures KeepsOutcome(s, Step(c))
  {
    StepKeepsClosed(s, Step(c));
    var p, n := s.callers[c], s.objects[s.callers[c].room].name;
    assert Contents(Apply(s, Step(c))) == if p.AllPrune? then Contents(s) - {n} else Contents(s);
    assert Contents(s)[n] == s.objects[p.room].members;
    hide WithoutSome, NamesOf, Contents, Closed, InRange;
  }

  lemma AllBeginsAndEnds(s: State, c: nat)
    requires Closed(s) && Enabled(s, Step(c)) && Tied(s, s.callers[c])
    requires s.callers[c].AllSnapshot? || s.callers[c].AllVisit?
    ensures KeepsOutcome(s, Step(c))
  {
    StepKeepsClosed(s, Step(c));
    var v, p := Contents(s), s.callers[c];
    assert Contents(Apply(s, Step(c))) == v;
    if p.AllSnapshot? {
      assert NamesOf(s.objects, s.rooms.Values) == v.Keys by {
        forall n | n in s.rooms
          ensures n in NamesOf(s.objects, s.rooms.Values)
        {
          assert s.rooms[n] in s.rooms.Values;
        }
      }
    } else {
      assert NamesOf(s.objects, {}) == {};
      assert WithoutSome(v, p.id, {}) == v;
    }
    hide NamesOf, WithoutSome, InRange;
  }

  lemma StepKeepsOutcome(s: State, a: Action)
    requires Closed(s) && Enabled(s, a) && !a.Start? && Tied(s, s.callers[a.c])
    ensures KeepsOutcome(s, a)
  {
    hide KeepsOutcome, Closed, Tied, Outcome;
    match a
    case Visit(c, r) => VisitKeeps(s, c, r);
    case Step(c) =>
      match s.callers[c]
      case JoinLookup(_, _) => JoinLookupKeeps(s, c);
      case JoinCreate(_, _) => JoinLookupKeeps(s, c);
      case JoinAdd(_, _, _) => JoinAddKeeps(s, c);
      case LeaveRemove(_, _, _) => LeaveRemoveKeeps(s, c);
      case LeaveLookup(_, _) => LeaveLookupKeeps(s, c);
      case LeaveCount(_, _) => LeaveLookupKeeps(s, c);
      case LeavePrune(_) => LeaveLookupKeeps(s, c);
      case AllRemove(_, _, _) => AllRemoveKeeps(s, c);
      case AllCount(_, _, _) => AllCountKeeps(s, c);
      case AllPrune(_, _, _) => AllCountKeeps(s, c);
      case AllSnapshot(_) => AllBeginsAndEnds(s, c);
      case AllVisit(_, _) => AllBeginsAndEnds(s, c);
  }

  /** Only caller c moves, and it does not start another call. */
  predicate Alone(actions: seq<Action>, c: nat) {
    forall a :: a in actions ==> a.c == c && !a.Start?
  }

  lemma {:induction false} AloneKeepsOutcome(s: State, actions: seq<Action>, t: State, c: nat)
    requires Closed(s) && Leads(s, actions, t) && Alone(actions, c) && c in s.callers && Tied(s, s.callers[c])
    ensures Closed(t) && c in t.callers && Tied(t, t.callers[c])
    ensures Outcome(t, t.callers[c]) == Outcome(s, s.callers[c])
    decreases actions
  {
    hide Apply, Closed, Tied, Outcome;
    if actions != [] {
      StepKeepsOutcome(s, actions[0]);
      AloneKeepsOutcome(Apply(s, actions[0]), actions[1..], t, c);
    }
  }

  lemma StartChangesNothing(s: State, c: nat, call: Call)
    requires Closed(s) && Enabled(s, Start(c, call)) && Closed(Apply(s, Start(c, call)))
    ensures var t := Apply(s, Start(c, call));
      && Contents(t) == Contents(s) && c in t.callers
      && Tied(t, t.callers[c]) && Outcome(t, t.callers[c]) == Effect(Contents(s), call)
  {
    assert Contents(Apply(s, Start(c, call))) == Contents(s);
    hide Contents, InRange, WithMember, Without, WithoutSome;
  }

  /** Main result: a call that starts and completes while nobody else moves makes of the memberships what the sequential
      operation does (EffectOnViews), from every state, whatever other callers are in the middle of. */
  lemma CallAlone(s: State, c: nat, call: Call, actions: seq<Action>, t: State)
    requires Closed(s) && Enabled(s, Start(c, call)) && Leads(Apply(s, Start(c, call)), actions, t)
    requires Alone(actions, c) && c in t.callers && t.callers[c].Finished?
    ensures Closed(t) && Contents(t) == Effect(Contents(s), call)
  {
    var s' := Apply(s, Start(c, call));
    StepKeepsClosed(s, Start(c, call));
    StartChangesNothing(s, c, call);
    hide Leads, Contents, InRange, Apply, Closed, Effect;
    AloneKeepsOutcome(s', actions, t, c);
  }

  /** Socket `id` is in the room the manager holds under the name. */
  ghost predicate Member(s: State, n: string, id: string)
    requires Closed(s)
  {
    n in s.rooms && id in s.objects[s.rooms[n]].members
  }

  /** The effect on one membership: a join adds one pair, a leave removes one, LeaveAllRooms those of one socket. */
  predicate Remains(was: bool, n: string, id: string, call: Call) {
    match call
    case Join(r, i) => was || (n == r && id == i)
    case Leave(r, i) => was && !(n == r && id == i)
    case LeaveAll(i) => was && id != i
  }

  lemma EffectOnOne(v: Ids, call: Call, n: string, id: string)
    ensures n in Effect(v, call) && id in Effect(v, call)[n] <==> Remains(n in v && id in v[n], n, id, call)
  {
  }

  /** In terms of single memberships: what the call names is added or removed, and every other member stays visible. */
  lemma MembersAfterCallAlone(s: State, c: nat, call: Call, actions: seq<Action>, t: State, n: string, id: string)
    requires Closed(s) && Enabled(s, Start(c, call)) && Leads(Apply(s, Start(c, call)), actions, t)
    requires Alone(actions, c) && c in t.callers && t.callers[c].Finished?
    ensures Closed(t) && (Member(t, n, id) <==> Remains(Member(s, n, id), n, id, call))
  {
    hide Leads, Apply, Enabled, Closed, Effect, Remains;
    CallAlone(s, c, call, actions, t);
    EffectOnOne(Contents(s), call, n, id);
  }

  /** Sections a caller still has before it, once it has taken its snapshot. */
  function Ahead(p: Pc): nat {
    match p
    case JoinLookup(_, _) => 3
    case JoinCreate(_, _) => 2
    case JoinAdd(_, _, _) => 1
    case LeaveLookup(_, _) => 4
    case LeaveRemove(_, _, _) => 3
    case LeaveCount(_, _) => 2
    case LeavePrune(_) => 1
    case AllSnapshot(_) => 0
    case AllVisit(_, rest) => 4 * |rest| + 1
    case AllRemove(_, _, rest) => 4 * |rest| + 4
    case AllCount(_, _, rest) => 4 * |rest| + 3
    case AllPrune(_, _, rest) => 4 * |rest| + 2
    case Finished => 0
  }

  lemma StepAhead(s: State, c: nat)
    requires Closed(s) && Enabled(s, Step(c))
    ensures c in Apply(s, Step(c)).callers
    ensures var p, q := s.callers[c], Apply(s, Step(c)).callers[c];
      !q.AllSnapshot? && (p.AllSnapshot? || Ahead(q) < Ahead(p))
  {
    hide Closed, InRange;
  }

  lemma VisitAhead(s: State, c: nat, r: nat)
    requires Closed(s) && Enabled(s, Visit(c, r))
    ensures c in Apply(s, Visit(c, r)).callers
    ensures var p, q := s.callers[c], Apply(s, Visit(c, r)).callers[c]; !q.AllSnapshot? && Ahead(q) < Ahead(p)
  {
    hide Closed, InRange;
  }

  lemma NextSection(s: State, c: nat) returns (a: Action)
    requires Closed(s) && c in s.callers && !s.callers[c].Finished?
    ensures a.c == c && !a.Start? && Enabled(s, a) && Closed(Apply(s, a)) && c in Apply(s, a).callers
    ensures var p, q := s.callers[c], Apply(s, a).callers[c]; !q.AllSnapshot? && (p.AllSnapshot? || Ahead(q) < Ahead(p))
  {
    hide Apply, Closed, Ahead;
    var p := s.callers[c];
    if p.AllVisit? && p.rest != {} {
      var r :| r in p.rest;
      a := Visit(c, r);
      VisitAhead(s, c, r);
    } else {
      a := Step(c);
      StepAhead(s, c);
    }
    StepKeepsClosed(s, a);
  }

  /** Left alone, every call completes, from every state. */
  lemma {:induction false} CallCompletes(s: State, c: nat) returns (actions: seq<Action>, t: State)
    requires Closed(s) && c in s.callers
    ensures Leads(s, actions, t) && Alone(actions, c) && c in t.callers && t.callers[c].Finished?
    decreases s.callers[c].AllSnapshot?, Ahead(s.callers[c])
  {
    hide Apply, Closed, Enabled, Ahead;
    if s.callers[c].Finished? {
      actions, t := [], s;
    } else {
      var a := NextSection(s, c);
      actions, t := CallCompletes(Apply(s, a), c);
      LeadsOn(s, a, Apply(s, a), actions, t);
      actions := [a] + actions;
    }
  }

  // ----- When a leave prunes

  predicate Quiet(actions: seq<Action>, c: nat) {
    forall a :: a in actions ==> a.c != c
  }

  /** The step is the one in which a leave of caller c counts the members of room r, and there are none. */
  ghost predicate CountsNone(s: State, a: Action, c: nat, r: nat) {
    && a == Step(c) && c in s.callers && (s.callers[c].LeaveCount? || s.callers[c].AllCount?) && s.callers[c].room == r
    && r < |s.objects| && s.objects[r].members == {}
  }

  /** The last step of the caller in this run was such a count. */
  ghost predicate CountedNone(s: State, actions: seq<Action>, c: nat, r: nat)
    requires Closed(s)
    decreases actions
  {
    && actions != [] && Enabled(s, actions[0]) && Closed(Apply(s, actions[0]))
    && (|| (CountsNone(s, actions[0], c, r) && Quiet(actions[1..], c))
        || CountedNone(Apply(s, actions[0]), actions[1..], c, r))
  }

  /** Caller c is about to remove the name from the manager. */
  ghost predicate Pruning(s: State, c: nat, n: string) {
    && c in s.callers
    && (s.callers[c] == LeavePrune(n)
        || (s.callers[c].AllPrune? && s.callers[c].room < |s.objects| && s.objects[s.callers[c].room].name == n))
  }

  /** In the middle of a leave the room object carries the name the caller asked for. */
  ghost predicate Named(s: State) {
    forall c :: c in s.callers && (s.callers[c].LeaveRemove? || s.callers[c].LeaveCount?) ==>
      s.callers[c].room < |s.objects| && s.objects[s.callers[c].room].name == s.callers[c].name
  }

  lemma ObjectsKeepNames(s: State, a: Action)
    requires Closed(s) && Enabled(s, a)
    ensures |s.objects| <= |Apply(s, a).objects|
    ensures forall r :: 0 <= r < |s.objects| ==> Apply(s, a).objects[r].name == s.objects[r].name
  {
  }

  lemma StepKeepsNamed(s: State, a: Action)
    requires Closed(s) && Named(s) && Enabled(s, a)
    ensures Named(Apply(s, a))
  {
    ObjectsKeepNames(s, a);
    OthersStay(s, a);
    ActorKeepsNamed(s, a);
    hide Apply, Closed;
  }

  lemma ActorKeepsNamed(s: State, a: Action)
    requires Closed(s) && Named(s) && Enabled(s, a)
    ensures var t := Apply(s, a);
      a.c in t.callers
      && (t.callers[a.c].LeaveRemove? || t.callers[a.c].LeaveCount? ==>
            t.callers[a.c].room < |t.objects| && t.objects[t.callers[a.c].room].name == t.callers[a.c].name)
  {
    hide InRange;
  }

  /** A caller gets to the point of pruning by counting no member, and in no other way. */
  lemma PruningStep(s: State, a: Action, n: string)
    requires Closed(s) && Named(s) && Enabled(s, a) && Pruning(Apply(s, a), a.c, n)
    ensures exists r: nat :: CountsNone(s, a, a.c, r) && s.objects[r].name == n
  {
    assert a.Step? && a.c in s.callers && (s.callers[a.c].LeaveCount? || s.callers[a.c].AllCount?);
    assert CountsNone(s, a, a.c, s.callers[a.c].room);
    hide InRange;
  }

  lemma OthersKeepPruning(s: State, a: Action, c: nat, n: string)
    requires Closed(s) && Enabled(s, a) && a.c != c
    ensures Pruning(Apply(s, a), c, n) ==> Pruning(s, c, n)
  {
    OthersStay(s, a);
    ObjectsKeepNames(s, a);
    hide Apply;
  }

  lemma {:induction false} NamesOverRun(s: State, actions: seq<Action>, t: State, r: nat)
    requires Closed(s) && Leads(s, actions, t) && r < |s.objects|
    ensures r < |t.objects| && t.objects[r].name == s.objects[r].name
    decreases actions
  {
    hide Apply, Closed;
    if actions != [] {
      StepKeepsClosed(s, actions[0]);
      ObjectsKeepNames(s, actions[0]);
      NamesOverRun(Apply(s, actions[0]), actions[1..], t, r);
    }
  }

  lemma FirstStepCounts(s: State, actions: seq<Action>, t: State, n: string)
    requires Closed(s) && Named(s) && actions != [] && Leads(s, actions, t) && Quiet(actions[1..], actions[0].c)
    requires Pruning(Apply(s, actions[0]), actions[0].c, n)
    ensures exists r: nat :: r < |t.objects| && t.objects[r].name == n && CountedNone(s, actions, actions[0].c, r)
  {
    hide Apply, Named, Pruning;
    StepKeepsClosed(s, actions[0]);
    PruningStep(s, actions[0], n);
    var r: nat :| CountsNone(s, actions[0], actions[0].c, r) && s.objects[r].name == n;
    NamesOverRun(s, actions, t, r);
    assert CountedNone(s, actions, actions[0].c, r);
  }

  lemma LaterStepCounts(s: State, actions: seq<Action>, t: State, c: nat, n: string)
    requires Closed(s) && actions != [] && Leads(s, actions, t) && Closed(Apply(s, actions[0]))
    requires exists r: nat :: r < |t.objects| && t.objects[r].name == n
                              && CountedNone(Apply(s, actions[0]), actions[1..], c, r)
    ensures exists r: nat :: r < |t.objects| && t.objects[r].name == n && CountedNone(s, actions, c, r)
  {
    hide Apply, Closed;
    var r: nat :| r < |t.objects| && t.objects[r].name == n
                  && CountedNone(Apply(s, actions[0]), actions[1..], c, r);
    assert CountedNone(s, actions, c, r);
  }

  lemma {:induction false} PruningWasCounted(s: State, actions: seq<Action>, t: State, c: nat, n: string)
    requires Closed(s) && Named(s) && Leads(s, actions, t) && Pruning(t, c, n)
    ensures || (Pruning(s, c, n) && Quiet(actions, c))
            || exists r: nat :: r < |t.objects| && t.objects[r].name == n && CountedNone(s, actions, c, r)
    decreases actions
  {
    hide Apply, Closed, Named, Pruning, CountedNone, Enabled;
    if actions != [] {
      var a, s' := actions[0], Apply(s, actions[0]);
      StepKeepsClosed(s, a);
      StepKeepsNamed(s, a);
      PruningWasCounted(s', actions[1..], t, c, n);
      assert actions == [a] + actions[1..];
      if Pruning(s', c, n) && Quiet(actions[1..], c) {
        if a.c == c {
          FirstStepCounts(s, actions, t, n);
        } else {
          OthersKeepPruning(s, a, c, n);
        }
      } else {
        LaterStepCounts(s, actions, t, c, n);
      }
    }
  }

  /** Main result: in every interleaving, whoever removes a name from the manager had, in its last step before, counted
      no member in a room object of that name. */
  lemma PrunedRoomWasCountedEmpty(actions: seq<Action>, t: State, a: Action, n: string)
    requires Closed(INIT) && Leads(INIT, actions, t) && Closed(t) && Enabled(t, a) && EventOf(t, a) == Pruned(n)
    ensures exists r: nat :: r < |t.objects| && t.objects[r].name == n && CountedNone(INIT, actions, a.c, r)
  {
    PruningWasCounted(INIT, actions, t, a.c, n);
    hide Leads, Apply, CountedNone;
  }

  // ----- Where a join got its room

  /** The last step of the caller in this run was a GetRoom that returned room r for the name. */
  ghost predicate GotLast(s: State, actions: seq<Action>, c: nat, n: string, r: nat)
    requires Closed(s)
    decreases actions
  {
    && actions != [] && Enabled(s, actions[0]) && Closed(Apply(s, actions[0]))
    && (|| (actions[0].c == c && EventOf(s, actions[0]) == Got(n, r) && Quiet(actions[1..], c))
        || GotLast(Apply(s, actions[0]), actions[1..], c, n, r))
  }

  /** The caller is about to add its socket to room r, which it got under this name. */
  predicate Adding(s: State, c: nat, n: string, r: nat) {
    c in s.callers && s.callers[c].JoinAdd? && s.callers[c].name == n && s.callers[c].room == r
  }

  lemma AddingStep(s: State, a: Action, c: nat, n: string, r: nat)
    requires Closed(s) && Enabled(s, a)
    ensures Adding(Apply(s, a), c, n, r) <==> if a.c == c then EventOf(s, a) == Got(n, r) else Adding(s, c, n, r)
  {
    hide Closed, InRange;
  }

  /** Over every run a caller is about to add its socket to a room exactly if its last step got that room. */
  lemma {:induction false} AddingWasGot(s: State, actions: seq<Action>, t: State, c: nat, n: string, r: nat)
    requires Closed(s) && Leads(s, actions, t)
    ensures Adding(t, c, n, r) <==> GotLast(s, actions, c, n, r) || (Adding(s, c, n, r) && Quiet(actions, c))
    decreases actions
  {
    hide Apply, Closed, Adding, EventOf;
    if actions != [] {
      StepKeepsClosed(s, actions[0]);
      AddingStep(s, actions[0], c, n, r);
      AddingWasGot(Apply(s, actions[0]), actions[1..], t, c, n, r);
      assert actions == [actions[0]] + actions[1..];
    }
  }

  // ----- When a member stays visible whoever interferes

  /** A leave in the middle holds another room object of the name, or is past its count: it can prune the name although
      the room has members. */
  ghost predicate Threatens(s: State, p: Pc, n: string, r: nat)
    requires Closed(s) && InRange(p, |s.objects|)
  {
    match p
    case LeaveRemove(m, _, x) => m == n && x != r
    case LeaveCount(m, x) => m == n && x != r
    case LeavePrune(m) => m == n
    case AllVisit(_, rest) => exists x :: x in rest && Other(s, x, n, r)
    case AllRemove(_, x, rest) => Other(s, x, n, r) || exists y :: y in rest && Other(s, y, n, r)
    case AllCount(_, x, rest) => Other(s, x, n, r) || exists y :: y in rest && Other(s, y, n, r)
    case AllPrune(_, x, rest) => s.objects[x].name == n || exists y :: y in rest && Other(s, y, n, r)
    case _ => false
  }

  predicate Other(s: State, x: nat, n: string, r: nat) {
    x < |s.objects| && s.objects[x].name == n && x != r
  }

  ghost predicate Unthreatened(s: State, n: string, r: nat)
    requires Closed(s)
  {
    forall c :: c in s.callers ==> !Threatens(s, s.callers[c], n, r)
  }

  /** The actor of the step neither threatens the room afterwards nor prunes its name. */
  ghost predicate StaysHarmless(s: State, a: Action, n: string, r: nat)
    requires Closed(s) && Enabled(s, a)
  {
    var t := Apply(s, a);
    && Closed(t) && a.c in t.callers && !Threatens(t, t.callers[a.c], n, r) && EventOf(s, a) != Pruned(n)
  }

  lemma LeaverStaysHarmless(s: State, a: Action, n: string, id: string, r: nat)
    requires Closed(s) && Enabled(s, a) && Shows(s, n, id, r)
    requires a.Step? && !Threatens(s, s.callers[a.c], n, r)
    requires var p := s.callers[a.c]; p.LeaveLookup? || p.LeaveRemove? || p.LeaveCount? || p.LeavePrune?
    ensures StaysHarmless(s, a, n, r)
  {
    StepKeepsClosed(s, a);
    hide Closed;
  }

  lemma VisitorStaysHarmless(s: State, a: Action, n: string, r: nat)
    requires Closed(s) && Enabled(s, a) && n in s.rooms && s.rooms[n] == r
    requires a.c in s.callers && !Threatens(s, s.callers[a.c], n, r)
    requires a.Visit? || (a.Step? && (s.callers[a.c].AllSnapshot? || s.callers[a.c].AllVisit?))
    ensures StaysHarmless(s, a, n, r)
  {
    StepKeepsClosed(s, a);
    hide InRange;
  }

  lemma AllLeaverStaysHarmless(s: State, a: Action, n: string, id: string, r: nat)
    requires Closed(s) && Enabled(s, a) && Shows(s, n, id, r)
    requires a.Step? && !Threatens(s, s.callers[a.c], n, r)
    requires var p := s.callers[a.c]; p.AllRemove? || p.AllCount? || p.AllPrune?
    ensures StaysHarmless(s, a, n, r)
  {
    StepKeepsClosed(s, a);
    ObjectsKeepNames(s, a);
    hide Closed;
  }

  lemma JoinerStaysHarmless(s: State, a: Action, n: string, r: nat)
    requires Closed(s) && Enabled(s, a)
    requires a.Step? ==> s.callers[a.c].JoinLookup? || s.callers[a.c].JoinCreate? || s.callers[a.c].JoinAdd?
    requires !a.Visit?
    ensures StaysHarmless(s, a, n, r)
  {
    StepKeepsClosed(s, a);
    hide Closed;
  }

  lemma ActorStaysHarmless(s: State, a: Action, n: string, id: string, r: nat)
    requires Closed(s) && Enabled(s, a) && Shows(s, n, id, r)
    requires a.c in s.callers ==> !Threatens(s, s.callers[a.c], n, r)
    ensures StaysHarmless(s, a, n, r)
  {
    hide StaysHarmless, Closed, Threatens, Apply;
    match a
    case Start(_, _) => JoinerStaysHarmless(s, a, n, r);
    case Visit(_, _) => VisitorStaysHarmless(s, a, n, r);
    case Step(c) =>
      match s.callers[c]
      case JoinLookup(_, _) => JoinerStaysHarmless(s, a, n, r);
      case JoinCreate(_, _) => JoinerStaysHarmless(s, a, n, r);
      case JoinAdd(_, _, _) => JoinerStaysHarmless(s, a, n, r);
      case LeaveLookup(_, _) => LeaverStaysHarmless(s, a, n, id, r);
      case LeaveRemove(_, _, _) => LeaverStaysHarmless(s, a, n, id, r);
      case LeaveCount(_, _) => LeaverStaysHarmless(s, a, n, id, r);
      case LeavePrune(_) => LeaverStaysHarmless(s, a, n, id, r);
      case AllSnapshot(_) => VisitorStaysHarmless(s, a, n, r);
      case AllVisit(_, _) => VisitorStaysHarmless(s, a, n, r);
      case AllRemove(_, _, _) => AllLeaverStaysHarmless(s, a, n, id, r);
      case AllCount(_, _, _) => AllLeaverStaysHarmless(s, a, n, id, r);
      case AllPrune(_, _, _) => AllLeaverStaysHarmless(s, a, n, id, r);
  }

  lemma ThreatStays(s: State, t: State, p: Pc, n: string, r: nat)
    requires Closed(s) && Closed(t) && InRange(p, |s.objects|) && |s.objects| <= |t.objects|
    requires forall x :: 0 <= x < |s.objects| ==> t.objects[x].name == s.objects[x].name
    ensures InRange(p, |t.objects|) && (Threatens(t, p, n, r) ==> Threatens(s, p, n, r))
  {
    hide Closed;
  }

  lemma StepKeepsUnthreatened(s: State, a: Action, n: string, id: string, r: nat)
    requires Closed(s) && Enabled(s, a) && Shows(s, n, id, r) && Unthreatened(s, n, r)
    ensures Closed(Apply(s, a)) && Unthreatened(Apply(s, a), n, r) && EventOf(s, a) != Pruned(n)
  {
    ActorStaysHarmless(s, a, n, id, r);
    OthersStay(s, a);
    ObjectsKeepNames(s, a);
    hide Apply, EventOf, Threatens, InRange, Shows;
    forall c | c in s.callers && c != a.c
      ensures !Threatens(Apply(s, a), s.callers[c], n, r)
    {
      ThreatStays(s, Apply(s, a), s.callers[c], n, r);
    }
  }

  lemma StepKeepsVisible(s: State, a: Action, n: string, id: string, r: nat)
    requires Closed(s) && Enabled(s, a) && Shows(s, n, id, r) && Unthreatened(s, n, r)
    ensures Closed(Apply(s, a)) && Unthreatened(Apply(s, a), n, r)
    ensures EventOf(s, a) != Removed(id, r) ==> Shows(Apply(s, a), n, id, r)
  {
    StepKeepsUnthreatened(s, a, n, id, r);
    NameStep(s, a, n, r);
    MemberStep(s, a, id, r);
    hide Apply, EventOf, Closed, Unthreatened;
  }

  /** Main result: from a state in which no leave under way holds an older room of that name or is past its count, a
      member that nobody removes stays visible, in every interleaving. */
  lemma {:induction false} MemberStaysVisible(s: State, actions: seq<Action>, t: State, n: string, id: string, r: nat)
    requires Closed(s) && Shows(s, n, id, r) && Unthreatened(s, n, r) && Leads(s, actions, t)
    requires Removed(id, r) !in Trace(s, actions, t)
    ensures Shows(t, n, id, r)
    decreases actions
  {
    hide Apply, EventOf, Closed, Shows;
    if actions != [] {
      StepKeepsVisible(s, actions[0], n, id, r);
      MemberStaysVisible(Apply(s, actions[0]), actions[1..], t, n, id, r);
    }
  }

  /** A leave that still holds the old room object of the name removes from it, counts none, and prunes the new one. */
  lemma OldRoomPrunesNew(s: State, n: string, id: string, stale: nat, c: nat) returns (actions: seq<Action>, t: State)
    requires Closed(s) && n in s.rooms && s.rooms[n] != stale
    requires stale < |s.objects| && s.objects[stale] == RoomObject(n, {})
    requires c in s.callers && s.callers[c] == LeaveRemove(n, id, stale)
    ensures Leads(s, actions, t) && n !in t.rooms && t.objects == s.objects
  {
    var s1 := At(s, c, LeaveCount(n, stale));
    var s2 := At(s, c, LeavePrune(n));
    t := At(s.(rooms := s.rooms - {n}), c, Finished);
    StepKeepsClosed(s, Step(c));
    assert {} - {id} == {} && s.objects[stale := RoomObject(n, {})] == s.objects;
    assert Apply(s, Step(c)) == s1;
    StepKeepsClosed(s1, Step(c));
    LeadsOn(s2, Step(c), t, [], t);
    LeadsOn(s1, Step(c), s2, [Step(c)] + [], t);
    LeadsOn(s, Step(c), s1, [Step(c)] + ([Step(c)] + []), t);
    actions := [Step(c)] + ([Step(c)] + ([Step(c)] + []));
  }

  /** The last two sections of a join into a name that is free. */
  lemma CreateRoom(s: State, n: string, id: string, c: nat, rest: seq<Action>, t: State) returns (actions: seq<Action>)
    requires Closed(s) && n !in s.rooms && c in s.callers && s.callers[c] == JoinCreate(n, id)
    requires Leads(State(s.rooms[n := |s.objects|], s.objects + [RoomObject(n, {id})], s.callers[c := Finished]), rest,
                   t)
    ensures Leads(s, actions, t)
  {
    var k, os := |s.objects|, s.objects + [RoomObject(n, {})];
    var s1 := State(s.rooms[n := k], os, s.callers[c := JoinAdd(n, id, k)]);
    var s2 := State(s.rooms[n := k], s.objects + [RoomObject(n, {id})], s.callers[c := Finished]);
    StepKeepsClosed(s, Step(c));
    assert Apply(s1, Step(c)) == s2 by {
      assert {} + {id} == {id} && os[k := RoomObject(n, {id})] == s.objects + [RoomObject(n, {id})];
    }
    LeadsOn(s1, Step(c), s2, rest, t);
    LeadsOn(s, Step(c), s1, [Step(c)] + rest, t);
    actions := [Step(c)] + ([Step(c)] + rest);
  }

  /** A whole join into a name that is free makes a new room. */
  lemma JoinMakesRoom(s: State, n: string, id: string, c: nat, rest: seq<Action>, t: State)
    returns (actions: seq<Action>)
    requires Closed(s) && n !in s.rooms && c in s.callers && s.callers[c].Finished?
    requires Leads(State(s.rooms[n := |s.objects|], s.objects + [RoomObject(n, {id})], s.callers), rest, t)
    ensures Leads(s, actions, t)
  {
    var s1, s2 := At(s, c, JoinLookup(n, id)), At(s, c, JoinCreate(n, id));
    StepKeepsClosed(s, Start(c, Join(n, id)));
    StepKeepsClosed(s1, Step(c));
    assert s2.callers[c := Finished] == s.callers;
    actions := CreateRoom(s2, n, id, c, rest, t);
    hide Leads, Closed, InRange;
    LeadsOn(s1, Step(c), s2, actions, t);
    actions := [Step(c)] + actions;
    LeadsOn(s, Start(c, Join(n, id)), s1, actions, t);
    actions := [Start(c, Join(n, id))] + actions;
  }

  /** The last three sections of the leave of an only member. */
  lemma RemoveLastMember(s: State, n: string, id: string, c: nat, rest: seq<Action>, t: State)
    returns (actions: seq<Action>)
    requires Closed(s) && n in s.rooms && s.objects[s.rooms[n]].members == {id}
    requires c in s.callers && s.callers[c] == LeaveRemove(n, id, s.rooms[n])
    requires Leads(State(s.rooms - {n}, s.objects[s.rooms[n] := RoomObject(n, {})], s.callers[c := Finished]), rest,
                   t)
    ensures Leads(s, actions, t)
  {
    var r := s.rooms[n];
    var s1 := At(WithMembers(s, r, {}), c, LeaveCount(n, r));
    var s2 := At(s1, c, LeavePrune(n));
    var s3 := State(s.rooms - {n}, s.objects[r := RoomObject(n, {})], s.callers[c := Finished]);
    assert {id} - {id} == {};
    StepKeepsClosed(s, Step(c));
    StepKeepsClosed(s1, Step(c));
    LeadsOn(s2, Step(c), s3, rest, t);
    LeadsOn(s1, Step(c), s2, [Step(c)] + rest, t);
    LeadsOn(s, Step(c), s1, [Step(c)] + ([Step(c)] + rest), t);
    actions := [Step(c)] + ([Step(c)] + ([Step(c)] + rest));
  }

  /** A whole leave of the only member removes its room. */
  lemma LeaveRemovesRoom(s: State, n: string, id: string, c: nat, rest: seq<Action>, t: State)
    returns (actions: seq<Action>)
    requires Closed(s) && n in s.rooms && s.objects[s.rooms[n]].members == {id}
    requires c in s.callers && s.callers[c].Finished?
    requires Leads(State(s.rooms - {n}, s.objects[s.rooms[n] := RoomObject(n, {})], s.callers), rest, t)
    ensures Leads(s, actions, t)
  {
    var s1, s2 := At(s, c, LeaveLookup(n, id)), At(s, c, LeaveRemove(n, id, s.rooms[n]));
    StepKeepsClosed(s, Start(c, Leave(n, id)));
    StepKeepsClosed(s1, Step(c));
    assert s2.callers[c := Finished] == s.callers;
    actions := RemoveLastMember(s2, n, id, c, rest, t);
    hide Leads, Closed, InRange;
    LeadsOn(s1, Step(c), s2, actions, t);
    actions := [Step(c)] + actions;
    LeadsOn(s, Start(c, Leave(n, id)), s1, actions, t);
    actions := [Start(c, Leave(n, id))] + actions;
  }

  /** A leave has looked its room up. Another leave and then a join of a new member start and complete; the new room is
      pruned with its member in it. */
  lemma LeaveAndJoinInBetween(s: State, n: string, a: string, b: string, c1: nat, c2: nat)
    returns (actions: seq<Action>, t: State)
    requires Closed(s) && n in s.rooms && s.objects[s.rooms[n]] == RoomObject(n, {a}) && c1 != c2
    requires c1 in s.callers && s.callers[c1] == LeaveRemove(n, a, s.rooms[n])
    requires c2 in s.callers && s.callers[c2].Finished?
    ensures Leads(s, actions, t) && n !in t.rooms
    ensures t.objects == s.objects[s.rooms[n] := RoomObject(n, {})] + [RoomObject(n, {b})]
  {
    var r, k := s.rooms[n], |s.objects|;
    var left := State(s.rooms - {n}, s.objects[r := RoomObject(n, {})], s.callers);
    var joined := State(left.rooms[n := k], left.objects + [RoomObject(n, {b})], left.callers);
    assert Closed(left) && Closed(joined);
    hide Leads, Closed;
    actions, t := OldRoomPrunesNew(joined, n, a, r, c1);
    actions := JoinMakesRoom(left, n, b, c2, actions, t);
    actions := LeaveRemovesRoom(s, n, a, c2, actions, t);
  }

  /** Two leaves of the same socket are enough: from every state in which a room has a single member there is an
      interleaving of them with a later join that prunes the joined member's room although nobody removed that member.
      */
  lemma TwoLeavesCanLoseMember(s: State, n: string, a: string, b: string, c1: nat, c2: nat)
    returns (actions: seq<Action>, t: State)
    requires Closed(s) && n in s.rooms && s.objects[s.rooms[n]].members == {a} && c1 != c2
    requires (c1 in s.callers ==> s.callers[c1].Finished?) && c2 in s.callers && s.callers[c2].Finished?
    ensures Leads(s, actions, t) && n !in t.rooms
    ensures t.objects == s.objects[s.rooms[n] := RoomObject(n, {})] + [RoomObject(n, {b})]
  {
    var s1 := At(s, c1, LeaveLookup(n, a));
    var s2 := At(s1, c1, LeaveRemove(n, a, s.rooms[n]));
    StepKeepsClosed(s, Start(c1, Leave(n, a)));
    StepKeepsClosed(s1, Step(c1));
    actions, t := LeaveAndJoinInBetween(s2, n, a, b, c1, c2);
    LeadsOn(s1, Step(c1), s2, actions, t);
    actions := [Step(c1)] + actions;
    LeadsOn(s, Start(c1, Leave(n, a)), s1, actions, t);
    actions := [Start(c1, Leave(n, a))] + actions;
  }

  /** The same from a fresh manager. */
  lemma FreshManagerCanLoseMember(n: string, a: string, b: string, c1: nat, c2: nat)
    returns (actions: seq<Action>, t: State)
    requires c1 != c2
    ensures Closed(INIT) && Leads(INIT, actions, t) && n !in t.rooms
    ensures t.objects == [RoomObject(n, {}), RoomObject(n, {b})]
  {
    var s := OneJoined(n, a, c2);
    actions, t := TwoLeavesCanLoseMember(s, n, a, b, c1, c2);
    hide Leads;
    actions := FirstJoin(n, a, c2, actions, t);
  }
}
