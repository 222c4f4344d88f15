/** The server object: its socket index, its long-polling sessions and its room manager, with disconnect handlers
    queued. Every method is proved to be a step, or a run of steps, of the index machine. */
module Server {
  import opened Rooms
  import I = ServerIndex

  /** The rooms of the manager as a set of (socket, room) pairs. */
  ghost function Pairs(v: View): set<I.Pair> {
    set room, id | room in v && id in v[room] :: I.Pair(id, room)
  }

  lemma PairsAfterJoin(v: View, room: string, s: Socket)
    ensures Pairs(Joined(v, room, s)) == Pairs(v) + {I.Pair(s.id, room)}
  {
    JoinOnPairs(v, room, s);
    PairsAreMemberships(v);
    PairsAreMemberships(Joined(v, room, s));
    hide Pairs, InRoom, Joined;
  }

  lemma PairsAfterLeave(v: View, room: string, id: string)
    ensures Pairs(Left(v, room, id)) == Pairs(v) - {I.Pair(id, room)}
    ensures Pairs(LeftAll(v, id)) == I.WithoutSocket(Pairs(v), id)
  {
    LeaveOnPairs(v, room, id);
    PairsAreMemberships(v);
    PairsAreMemberships(Left(v, room, id));
    PairsAreMemberships(LeftAll(v, id));
    hide Pairs, InRoom, Left, LeftAll;
  }

  lemma PairsAreMemberships(v: View)
    ensures forall p :: p in Pairs(v) <==> InRoom(v, p.id, p.room)
  {
  }

  class Server {
    var sockets: map<string, Socket>
    var open: set<string>
    var sessions: set<string>
    const roomManager: RoomManager
    /** Disconnect handlers fired but not yet run. */
    var pending: multiset<string>
    ghost var used: set<string>
    /** All disconnect events so far, the long-polling sockets, and the sockets whose receive loop has ended. */
    ghost var fired: multiset<string>
    ghost var polled: set<string>
    ghost var failed: set<string>

    ghost predicate Valid()
      reads this, roomManager
    {
      && roomManager.Valid()
      && (forall id :: id in sockets ==> sockets[id].id == id)
    }

    ghost function Abstract(): I.State
      reads this, roomManager, roomManager.rooms.Values
    {
      I.State(sockets.Keys, open, sessions, pending, Pairs(roomManager.Contents()), multiset{}, used,
              fired, polled, failed)
    }

    constructor ()
      ensures Valid() && Abstract() == I.INIT && fresh(roomManager)
    {
      sockets, open, sessions, pending, used := map[], {}, {}, multiset{}, {};
      fired, polled, failed := multiset{}, {}, {};
      roomManager := new RoomManager();
    }

    /** A connection is accepted and registered; a long-polling one also becomes a session. */
    method Connect(socket: Socket, longPolling: bool)
      requires Valid() && socket.id !in used
      modifies this
      ensures Valid() && Abstract() == I.Apply(old(Abstract()), I.Connect(socket.id, longPolling))
    {
      hide Pairs, RoomManager.Contents, RoomManager.Valid, I.Apply;
      ghost var s := Abstract();
      I.ConnectRegisters(s, socket.id, longPolling);
      sockets, open, used := sockets[socket.id := socket], open + {socket.id}, used + {socket.id};
      var session := if longPolling then {socket.id} else {};
      sessions, polled := sessions + session, polled + session;
      assert sockets.Keys == s.registered + {socket.id};
    }

    /** Close of one socket: only the first call fires the disconnect handlers. */
    method CloseSocket(id: string)
      requires Valid()
      modifies this`open, this`pending, this`fired
      ensures Valid() && Abstract() == I.Apply(old(Abstract()), I.CloseSocket(id))
    {
      if id in open {
        open, pending, fired := open - {id}, pending + multiset{id}, fired + multiset{id};
      }
    }

    /** The receive loop's read fails: it fires the disconnect handlers and then closes, which fires them again. A
        receive loop ends with its first failed read, and the reads of long-polling sockets never fail. */
    method ReadFails(id: string)
      requires Valid() && id in used && id !in polled && id !in failed
      modifies this`open, this`pending, this`fired, this`failed
      ensures Valid()
      ensures Abstract() == I.Apply(I.Apply(old(Abstract()), I.ReadFails(id)), I.CloseSocket(id))
    {
      hide Pairs, RoomManager.Contents, RoomManager.Valid, I.Closed;
      ghost var s := Abstract();
      pending, fired, failed := pending + multiset{id}, fired + multiset{id}, failed + {id};
      assert Abstract() == I.Apply(s, I.ReadFails(id));
      CloseSocket(id);
    }

    /** A disconnect request; an unknown session is answered without effect. */
    method RemoveSession(id: string)
      requires Valid()
      modifies this`sessions, this`sockets, this`open, this`pending, this`fired
      ensures Valid() && Abstract() == I.Apply(old(Abstract()), I.RemoveSession(id))
      ensures sockets == if id in old(sessions) then old(sockets) - {id} else old(sockets)
    {
      if id in sessions {
        sessions, sockets := sessions - {id}, sockets - {id};
        CloseSocket(id);
      }
    }

    /** Since state `s` with the sockets `was`, exactly the sessions in `gone` were removed. */
    ghost predicate Cleaned(s: I.State, was: map<string, Socket>, gone: set<string>)
      reads this, roomManager, roomManager.rooms.Values
    {
      Valid() && Abstract() == I.WithoutSessions(s, gone) && sockets == was - gone
    }

    /** Removes every expired session and closes its socket: one removal after the other
        (ServerIndex.RemovalsAreARun). */
    method CleanupSessions(expired: set<string>)
      requires Valid()
      modifies this`sessions, this`sockets, this`open, this`pending, this`fired
      ensures Cleaned(old(Abstract()), old(sockets), old(sessions) * expired)
    {
      var left := sessions * expired;
      ghost var all, s, was := left, Abstract(), sockets;
      NothingCleanedYet(all);
      while left != {}
        invariant left <= all && Cleaned(s, was, all - left)
        decreases left
      {
        var id :| id in left;
        RemoveNext(id, s, was, all, left);
        left := left - {id};
      }
      assert all - left == all;
    }

    lemma NothingCleanedYet(all: set<string>)
      requires Valid()
      ensures Cleaned(Abstract(), sockets, all - all)
    {
      I.RemoveNone(Abstract());
      assert all - all == {};
    }

    method RemoveNext(id: string, ghost s: I.State, ghost was: map<string, Socket>, ghost all: set<string>,
                      ghost left: set<string>)
      requires id in left && left <= all <= s.sessions && Cleaned(s, was, all - left)
      modifies this`sessions, this`sockets, this`open, this`pending, this`fired
      ensures Cleaned(s, was, all - (left - {id}))
    {
      I.RemoveOneMore(s, all - left, id);
      assert id in sessions && all - (left - {id}) == all - left + {id};
      hide I.WithoutSessions, Pairs;
      RemoveSession(id);
      assert was - (all - left) - {id} == was - (all - left + {id});
    }

    /** The disconnect handler. */
    method CleanUp(id: string)
      requires Valid() && id in pending
      modifies this`pending, this`sockets, roomManager, roomManager.rooms.Values
      ensures Valid() && Abstract() == I.Apply(old(Abstract()), I.CleanUp(id))
      ensures sockets == old(sockets) - {id} && pending == old(pending) - multiset{id}
      ensures forall i, r :: InRoom(roomManager.Contents(), i, r)
                             <==> InRoom(old(roomManager.Contents()), i, r) && i != id
    {
      hide Pairs, I.WithoutSocket, RoomManager.Contents, InRoom;
      ghost var s := Abstract();
      pending, sockets := pending - multiset{id}, sockets - {id};
      assert Abstract() == s.(registered := s.registered - {id}, pending := s.pending - multiset{id});
      LeaveAll(id);
    }

    /** Adds this membership and no other, exactly if the socket is registered. */
    method Join(id: string, room: string)
      requires Valid()
      modifies roomManager, roomManager.rooms.Values
      ensures Valid() && Abstract() == I.Apply(old(Abstract()), I.Join(id, room))
      ensures forall i, r :: InRoom(roomManager.Contents(), i, r)
                             <==> InRoom(old(roomManager.Contents()), i, r) || (i == id && r == room && id in sockets)
    {
      if id in sockets {
        PairsAfterJoin(roomManager.Contents(), room, sockets[id]);
        JoinOnPairs(roomManager.Contents(), room, sockets[id]);
        roomManager.JoinRoom(room, sockets[id]);
      }
    }

    /** Removes this membership and no other. */
    method Leave(id: string, room: string)
      requires Valid()
      modifies roomManager, roomManager.rooms.Values
      ensures Valid() && Abstract() == I.Apply(old(Abstract()), I.Leave(id, room))
      ensures forall i, r :: InRoom(roomManager.Contents(), i, r)
                             <==> InRoom(old(roomManager.Contents()), i, r) && !(i == id && r == room)
    {
      PairsAfterLeave(roomManager.Contents(), room, id);
      LeaveOnPairs(roomManager.Contents(), room, id);
      roomManager.LeaveRoom(room, id);
    }

    /** Removes the memberships of this socket and no other. */
    method LeaveAll(id: string)
      requires Valid()
      modifies roomManager, roomManager.rooms.Values
      ensures Valid() && Abstract() == I.Apply(old(Abstract()), I.LeaveAll(id))
      ensures forall i, r :: InRoom(roomManager.Contents(), i, r)
                             <==> InRoom(old(roomManager.Contents()), i, r) && i != id
    {
      PairsAfterLeave(roomManager.Contents(), "", id);
      LeaveOnPairs(roomManager.Contents(), "", id);
      roomManager.LeaveAllRooms(id);
    }
  }
}
