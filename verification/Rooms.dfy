/** Rooms and the room manager, one caller at a time: a map of heap-allocated rooms refines a plain view of who is
    where. */
module Rooms {
  import opened Common

  type Members = map<string, Socket>
  type View = map<string, Members>

  class Socket {
    const id: string

    constructor (id: string)
      ensures this.id == id
    {
      this.id := id;
    }
  }

  // ----- The view and its operations

  predicate InRoom(v: View, id: string, room: string) {
    room in v && id in v[room]
  }

  function MembersOf(v: View, room: string): Members {
    if room in v then v[room] else map[]
  }

  /** Looking a room up creates it. */
  function Opened(v: View, room: string): View {
    if room in v then v else v[room := map[]]
  }

  function Joined(v: View, room: string, s: Socket): View {
    v[room := MembersOf(v, room)[s.id := s]]
  }

  /** A leave that finds or makes the room empty prunes it. */
  function Left(v: View, room: string, id: string): View {
    if room !in v then v
    else if v[room] - {id} == map[] then v - {room}
    else v[room := v[room] - {id}]
  }

  /** LeaveAllRooms restricted to some rooms. Only rooms the socket was in are pruned. */
  function LeftSome(v: View, id: string, rooms: set<string>): View {
    map room | room in v && !(room in rooms && id in v[room] && v[room] - {id} == map[])
      :: if room in rooms then v[room] - {id} else v[room]
  }

  function LeftAll(v: View, id: string): View {
    LeftSome(v, id, v.Keys)
  }

  lemma LeftSomeStep(v: View, id: string, done: set<string>, room: string)
    requires room in v && room !in done
    ensures var u := LeftSome(v, id, done);
      && room in u && u[room] == v[room]
      && LeftSome(v, id, done + {room}) == if InRoom(u, id, room) then Left(u, room, id) else u
  {
    if id !in v[room] {
      assert v[room] - {id} == v[room];
    }
  }

  /** Join adds one pair; looking a room up adds none. */
  lemma JoinOnPairs(v: View, room: string, s: Socket)
    ensures forall i, r :: InRoom(Joined(v, room, s), i, r) <==> InRoom(v, i, r) || (i == s.id && r == room)
    ensures forall i, r :: InRoom(Opened(v, room), i, r) <==> InRoom(v, i, r)
  {
  }

  /** Leave removes one pair, LeaveAll removes exactly the pairs of one socket. */
  lemma LeaveOnPairs(v: View, room: string, id: string)
    ensures forall i, r :: InRoom(Left(v, room, id), i, r) <==> InRoom(v, i, r) && !(i == id && r == room)
    ensures forall i, r :: InRoom(LeftAll(v, id), i, r) <==> InRoom(v, i, r) && i != id
  {
    forall i, r
      ensures InRoom(Left(v, room, id), i, r) <==> InRoom(v, i, r) && !(i == id && r == room)
      ensures InRoom(LeftAll(v, id), i, r) <==> InRoom(v, i, r) && i != id
    {
      if r in v {
        assert i in v[r] && i != id ==> i in v[r] - {id};
      }
    }
  }

  /** Leaving undoes joining exactly when the socket was not a member and the room was not standing empty. */
  lemma LeaveUndoesJoin(v: View, room: string, s: Socket)
    ensures Left(Joined(v, room, s), room, s.id) == v <==> !InRoom(v, s.id, room) && (room in v ==> v[room] != map[])
  {
    var m := MembersOf(v, room);
    assert m[s.id := s] - {s.id} == m - {s.id};
    if s.id !in m {
      assert m - {s.id} == m;
    }
    if room in v && s.id in m {
      assert s.id !in (m - {s.id});
    }
  }

  ghost predicate NoEmptyRoom(v: View) {
    forall room :: room in v ==> v[room] != map[]
  }

  /** Joins and leaves never leave an empty room behind. */
  lemma NoEmptyRoomKept(v: View, room: string, s: Socket, id: string)
    requires NoEmptyRoom(v)
    ensures NoEmptyRoom(Joined(v, room, s)) && NoEmptyRoom(Left(v, room, id)) && NoEmptyRoom(LeftAll(v, id))
  {
    assert s.id in Joined(v, room, s)[room];
    forall r | r in LeftAll(v, id)
      ensures LeftAll(v, id)[r] != map[]
    {
      if id !in v[r] {
        assert v[r] - {id} == v[r];
      }
    }
  }

  function LeftEach(v: View, id: string, rooms: seq<string>): View {
    if rooms == [] then v else LeftEach(Left(v, rooms[0], id), id, rooms[1..])
  }

  lemma LeftOneOfAll(v: View, id: string, room: string)
    requires InRoom(v, id, room)
    ensures LeftAll(Left(v, room, id), id) == LeftAll(v, id)
  {
    var v' := Left(v, room, id);
    forall r | r in v && r != room
      ensures r in v' && v'[r] == v[r]
    {
    }
    if room in v' {
      assert v'[room] - {id} == v[room] - {id};
      assert id !in v'[room];
    }
  }

  lemma LeftAllOfStranger(v: View, id: string)
    requires forall r :: !InRoom(v, id, r)
    ensures LeftAll(v, id) == v
  {
    forall r | r in v
      ensures v[r] - {id} == v[r]
    {
      assert !InRoom(v, id, r);
    }
  }

  /** Leaving all rooms is leaving, one after another and in any order, the rooms GetSocketRooms lists. */
  lemma {:induction false} LeaveAllIsLeavingEach(v: View, id: string, rooms: seq<string>)
    requires Distinct(rooms) && forall r :: r in rooms <==> InRoom(v, id, r)
    ensures LeftEach(v, id, rooms) == LeftAll(v, id)
  {
    if rooms == [] {
      LeftAllOfStranger(v, id);
    } else {
      var r0 := rooms[0];
      assert InRoom(v, id, r0);
      LeftOneOfAll(v, id, r0);
      forall r
        ensures r in rooms[1..] <==> InRoom(Left(v, r0, id), id, r)
      {
        if r in v && r != r0 {
          assert r in Left(v, r0, id) && Left(v, r0, id)[r] == v[r];
        }
        assert r in rooms <==> r == r0 || r in rooms[1..];
      }
      LeaveAllIsLeavingEach(Left(v, r0, id), id, rooms[1..]);
    }
  }

  /** The clean-up may run twice: once more changes nothing. */
  lemma LeaveAllTwice(v: View, id: string)
    ensures LeftAll(LeftAll(v, id), id) == LeftAll(v, id)
  {
    forall r
      ensures !InRoom(LeftAll(v, id), id, r)
    {
    }
    LeftAllOfStranger(LeftAll(v, id), id);
  }

  // ----- The objects

  class Room {
    const name: string
    var sockets: Members

    constructor (name: string)
      ensures this.name == name && sockets == map[]
    {
      this.name, sockets := name, map[];
    }

    method AddSocket(s: Socket)
      modifies this
      ensures sockets == old(sockets)[s.id := s]
    {
      sockets := sockets[s.id := s];
    }

    method RemoveSocket(id: string)
      modifies this
      ensures sockets == old(sockets) - {id}
    {
      sockets := sockets - {id};
    }

    predicate HasSocket(id: string)
      reads this
    {
      id in sockets
    }

    method GetSockets() returns (ss: seq<Socket>)
      ensures |ss| == |sockets| && forall s :: s in ss <==> s in sockets.Values
    {
      ss := [];
      var left := sockets.Keys;
      while left != {}
        invariant left <= sockets.Keys && |ss| + |left| == |sockets|
        invariant forall s :: s in ss <==> exists id :: id in sockets && id !in left && sockets[id] == s
        decreases left
      {
        var id :| id in left;
        ss := ss + [sockets[id]];
        left := left - {id};
      }
    }
  }

  class RoomManager {
    var rooms: map<string, Room>

    /** Every room is stored under its own name, so no two names share a room. */
    ghost predicate Valid()
      reads this
    {
      forall n :: n in rooms ==> rooms[n].name == n
    }

    ghost function Contents(): View
      reads this, rooms.Values
    {
      map n | n in rooms :: rooms[n].sockets
    }

    constructor ()
      ensures Valid() && Contents() == map[] && rooms == map[]
    {
      rooms := map[];
    }

    /** The room of that name, created on demand. */
    method GetRoom(name: string) returns (room: Room)
      requires Valid()
      modifies this
      ensures Valid() && Contents() == Opened(old(Contents()), name)
      ensures name in rooms && room == rooms[name] && rooms == old(rooms)[name := room]
      ensures name in old(rooms) ==> room == old(rooms)[name]
      ensures name !in old(rooms) ==> fresh(room)
    {
      if name in rooms {
        return rooms[name];
      }
      room := new Room(name);
      rooms := rooms[name := room];
    }

    method RemoveRoom(name: string)
      requires Valid()
      modifies this
      ensures Valid() && rooms == old(rooms) - {name}
    {
      rooms := rooms - {name};
    }

    method JoinRoom(roomName: string, socket: Socket)
      requires Valid()
      modifies this, (if roomName in rooms then {rooms[roomName]} else {})
      ensures Valid() && Contents() == Joined(old(Contents()), roomName, socket)
      ensures roomName in rooms && rooms == old(rooms)[roomName := rooms[roomName]]
      ensures if roomName in old(rooms) then rooms[roomName] == old(rooms)[roomName] else fresh(rooms[roomName])
    {
      var room := GetRoom(roomName);
      room.AddSocket(socket);
    }

    method LeaveRoom(roomName: string, socketID: string)
      requires Valid()
      modifies this, (if roomName in rooms then {rooms[roomName]} else {})
      ensures Valid() && Contents() == Left(old(Contents()), roomName, socketID)
      ensures rooms == if roomName in Contents() then old(rooms) else old(rooms) - {roomName}
    {
      if roomName in rooms {
        var room := rooms[roomName];
        room.RemoveSocket(socketID);
        if |room.sockets| == 0 {
          RemoveRoom(roomName);
        }
      }
    }

    /** One room of the snapshot LeaveAllRooms works on. */
    method VisitRoom(room: Room, socketID: string)
      requires Valid() && room.name in rooms && rooms[room.name] == room
      modifies this, room
      ensures Valid() && rooms == if room.name in rooms then old(rooms) else old(rooms) - {room.name}
      ensures Contents() == if InRoom(old(Contents()), socketID, room.name)
                            then Left(old(Contents()), room.name, socketID)
                            else old(Contents())
    {
      if room.HasSocket(socketID) {
        room.RemoveSocket(socketID);
        if |room.sockets| == 0 {
          RemoveRoom(room.name);
        }
      }
    }

    method LeaveAllRooms(socketID: string)
      requires Valid()
      modifies this, rooms.Values
      ensures Valid() && Contents() == LeftAll(old(Contents()), socketID)
      ensures rooms.Keys <= old(rooms).Keys && forall n :: n in rooms ==> rooms[n] == old(rooms)[n]
    {
      ghost var was, v := rooms, Contents();
      ghost var done: set<string> := {};
      var left := rooms.Values;
      while left != {}
        invariant Valid()
        invariant left <= was.Values && done == set n | n in was && was[n] !in left
        invariant rooms.Keys <= was.Keys && forall n :: n in rooms ==> rooms[n] == was[n]
        invariant Contents() == LeftSome(v, socketID, done)
        invariant forall n :: n in was && n !in done ==> n in rooms && was[n].sockets == v[n]
        decreases left
      {
        var room :| room in left;
        LeftSomeStep(v, socketID, done, room.name);
        VisitRoom(room, socketID);
        done := done + {room.name};
        left := left - {room};
      }
      assert done == v.Keys;
    }

    method GetSocketRooms(socketID: string) returns (names: seq<string>)
      requires Valid()
      ensures Distinct(names) && forall n :: n in names <==> InRoom(Contents(), socketID, n)
    {
      names := [];
      var left := rooms.Keys;
      while left != {}
        invariant left <= rooms.Keys && Distinct(names)
        invariant forall n :: n in names <==> n !in left && InRoom(Contents(), socketID, n)
        decreases left
      {
        var n :| n in left;
        if rooms[n].HasSocket(socketID) {
          names := names + [n];
        }
        left := left - {n};
      }
    }
  }
}
