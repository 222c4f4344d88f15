/** The process registry of a node: contexts, processes with bounded mailboxes, and room-event routing.
    Every method is one critical section of the node's lock. */
module Processes {
  import opened Common
  import opened Subscriptions

  const DEFAULT_MAILBOX := 100

  type Behaviour = nat

  datatype Message =
    | Payload(token: nat)
    | RoomJoin(room: Room, socket: string)
    | RoomLeave(room: Room, socket: string)
    | SocketDisconnect(socket: string)

  datatype SpawnResult = Spawned(id: Pid) | NodeStopped

  datatype SendResult = Sent | ProcessNotFound | MailboxFull

  /** A cancellation scope. Cancelling a scope cancels everything derived from it. */
  class Context {
    const ancestors: set<Context>
    var cancelled: bool

    constructor Background()
      ensures ancestors == {} && !cancelled
    {
      ancestors, cancelled := {}, false;
    }

    constructor WithCancel(parent: Context)
      ensures ancestors == parent.ancestors + {parent} && !cancelled
    {
      ancestors, cancelled := parent.ancestors + {parent}, false;
    }

    method Cancel()
      modifies this`cancelled
      ensures cancelled
    {
      cancelled := true;
    }

    ghost predicate Err()
      reads this, ancestors
    {
      cancelled || exists c :: c in ancestors && c.cancelled
    }
  }

  class Process {
    const id: Pid
    const behaviour: Behaviour
    const capacity: nat
    const ctx: Context
    var mailbox: seq<Message>
    var inFlight: Option<Message>
    var alive: bool
    ghost var accepted: seq<Message>
    ghost var handled: seq<Message>

    /** Messages leave in the order they came: handled, then the one being handled, then the mailbox. */
    ghost predicate Valid()
      reads this
    {
      && 1 <= capacity && |mailbox| <= capacity
      && accepted == handled + (if inFlight.Some? then [inFlight.value] else []) + mailbox
    }

    constructor (id: Pid, behaviour: Behaviour, capacity: nat, ctx: Context)
      requires capacity >= 1
      ensures Valid() && alive && accepted == [] && handled == [] && mailbox == []
      ensures this.id == id && this.behaviour == behaviour && this.capacity == capacity && this.ctx == ctx
    {
      this.id, this.behaviour, this.capacity, this.ctx := id, behaviour, capacity, ctx;
      mailbox, inFlight, alive := [], None, true;
      accepted, handled := [], [];
    }

    /** Non-blocking send: a full mailbox refuses. */
    method TrySend(m: Message) returns (ok: bool)
      requires Valid()
      modifies this`mailbox, this`accepted
      ensures Valid()
      ensures ok <==> |old(mailbox)| < capacity
      ensures accepted == if ok then old(accepted) + [m] else old(accepted)
      ensures mailbox == if ok then old(mailbox) + [m] else old(mailbox)
    {
      ok := |mailbox| < capacity;
      if ok {
        mailbox := mailbox + [m];
        accepted := accepted + [m];
      }
    }

    /** The process loop picks up the next message. */
    method Take()
      requires Valid() && inFlight == None && mailbox != []
      modifies this`mailbox, this`inFlight
      ensures Valid() && inFlight == Some(old(mailbox)[0]) && mailbox == old(mailbox)[1..]
    {
      inFlight, mailbox := Some(mailbox[0]), mailbox[1..];
    }

    /** The process function returns, with or without an error. */
    method Finish()
      requires Valid() && inFlight.Some?
      modifies this`inFlight, this`handled
      ensures Valid() && inFlight == None && handled == old(handled) + [old(inFlight).value]
    {
      handled := handled + [inFlight.value];
      inFlight := None;
    }

    /** Blocking send: on a full mailbox the sender waits until the process makes room, if it ever does. */
    method BlockingSend(m: Message) returns (done: bool)
      requires Valid()
      modifies this`mailbox, this`accepted, this`inFlight, this`handled
      ensures Valid()
      ensures accepted == if done then old(accepted) + [m] else old(accepted)
      ensures old(handled) <= handled
      ensures |old(mailbox)| < capacity ==> done && mailbox == old(mailbox) + [m] && handled == old(handled)
    {
      done := true;
      if |mailbox| == capacity {
        if * {
          return false;
        }
        if inFlight.Some? {
          Finish();
        }
        Take();
      }
      mailbox := mailbox + [m];
      accepted := accepted + [m];
    }
  }

  /** What a map holds under some keys. */
  function Image<K, V>(m: map<K, V>, ks: set<K>): (vs: set<V>) {
    set k | k in ks && k in m :: m[k]
  }

  class Node {
    const ctx: Context
    var processes: map<Pid, Process>
    var roomSubscriptions: Table
    /** Every process this node ever ran, and every scope such a process can be derived from. */
    ghost var created: set<Process>
    ghost var scopes: set<Context>

    /** Every process ever created hangs, directly or through a supervisor's scope, below the node's scope;
        a process's own scope has nothing below it. */
    ghost predicate Tree()
      reads `created, `scopes
    {
      && ctx.ancestors == {} && ctx in scopes
      && (forall c, a :: c in scopes && a in c.ancestors ==> a in scopes)
      && (forall c :: c in scopes && c != ctx ==> ctx in c.ancestors)
      && (forall p :: p in created ==> p.ctx !in scopes && ctx in p.ctx.ancestors)
      && (forall p, a :: p in created && a in p.ctx.ancestors ==> a in scopes)
      && (forall p, q :: p in created && q in created && p.ctx == q.ctx ==> p == q)
    }

    /** Every registered process is alive and stored under its own identifier. */
    ghost predicate Registry()
      reads `processes, `created, created`alive
    {
      forall id :: id in processes ==> processes[id] in created && processes[id].id == id && processes[id].alive
    }

    ghost predicate Mailboxes()
      reads `created, created
    {
      forall p :: p in created ==> p.Valid()
    }

    /** Every process but the given ones has had no message yet. */
    ghost predicate EmptyExcept(ps: set<Process>)
      reads `created, created`mailbox, created`accepted
    {
      forall p :: p in created && p !in ps ==> p.mailbox == [] && p.accepted == []
    }

    /** The processes whose own scope was cancelled. */
    ghost function Cancelled(): (ps: set<Process>)
      reads `created, (set p | p in created :: p.ctx)
    {
      set p | p in created && p.ctx.cancelled
    }

    ghost predicate Valid()
      reads this, ctx, created
    {
      Tree() && Registry() && Mailboxes() && NoEmptyRow(roomSubscriptions) && (ctx.cancelled ==> processes == map[])
    }

    /** The registered processes that asked for the events of the room, if the event names one. */
    ghost function Subscribers(room: Option<Room>): (ps: set<Process>)
      reads `processes, `roomSubscriptions
    {
      set id | room.Some? && id in processes && room.value in Row(roomSubscriptions, id) :: processes[id]
    }

    constructor ()
      ensures Valid() && fresh(ctx) && !ctx.cancelled
      ensures processes == map[] && roomSubscriptions == map[] && created == {} && scopes == {ctx}
    {
      ctx := new Context.Background();
      processes, roomSubscriptions := map[], map[];
      created := {};
      new;
      scopes := {ctx};
    }

    /** Puts a fresh process under `parent` into the registry; the caller holds the lock. */
    method Install(id: Pid, behaviour: Behaviour, capacity: nat, parent: Context) returns (p: Process)
      requires Valid() && capacity >= 1 && parent in scopes && !ctx.cancelled
      modifies this`processes, this`created
      ensures Valid()
      ensures fresh(p) && fresh(p.ctx) && created == old(created) + {p}
      ensures processes == old(processes)[id := p]
      ensures p.id == id && p.behaviour == behaviour && p.capacity == capacity
      ensures p.mailbox == [] && p.accepted == [] && p.ctx.ancestors == parent.ancestors + {parent}
      ensures Cancelled() == old(Cancelled()) && p !in Cancelled()
    {
      var c := new Context.WithCancel(parent);
      p := new Process(id, behaviour, capacity, c);
      processes := processes[id := p];
      created := created + {p};
    }

    /** No other process, and no scope one can be derived from, is cancelled along with a process. */
    lemma OwnContext(p: Process)
      requires Tree() && p in created
      ensures p.ctx != ctx && p.ctx !in scopes
      ensures forall q :: q in created && q.ctx == p.ctx ==> q == p
    {
    }

    /** Cancels a registered process and takes it out of the registry; the caller holds the lock. */
    method Evict(id: Pid)
      requires Valid() && id in processes
      modifies this`processes, processes[id].ctx
      ensures Valid() && Cancelled() == old(Cancelled()) + {old(processes)[id]}
      ensures processes == old(processes) - {id} && ctx.cancelled == old(ctx.cancelled)
    {
      hide Tree;
      OwnContext(processes[id]);
      processes[id].ctx.Cancel();
      processes := processes - {id};
    }

    /** Marks a process that has left the registry; the caller holds the lock. */
    method MarkDead(p: Process)
      requires Valid() && p in created && p !in processes.Values
      modifies p`alive
      ensures Valid() && !p.alive && Cancelled() == old(Cancelled())
    {
      hide Tree, NoEmptyRow;
      p.alive := false;
    }

    /** A mailbox size of 0 or less asks for the default. */
    method SpawnProcessWithIDAndOptions(id: Pid, behaviour: Behaviour, mailboxSize: int) returns (r: SpawnResult)
      requires Valid()
      modifies this`processes, this`created
      ensures Valid()
      ensures r == if old(ctx.cancelled) then NodeStopped else Spawned(id)
      ensures r == NodeStopped ==> processes == old(processes) && created == old(created)
      ensures r == Spawned(id) ==>
                && id in processes && processes == old(processes)[id := processes[id]]
                && fresh(processes[id]) && fresh(processes[id].ctx) && created == old(created) + {processes[id]}
                && processes[id].mailbox == [] && processes[id].behaviour == behaviour
                && processes[id].ctx.ancestors == {ctx}
                && processes[id].capacity == if mailboxSize > 0 then mailboxSize else DEFAULT_MAILBOX
    {
      if ctx.cancelled {
        return NodeStopped;
      }
      var size := DEFAULT_MAILBOX;
      if mailboxSize > 0 {
        size := mailboxSize;
      }
      var p := Install(id, behaviour, size, ctx);
      r := Spawned(id);
    }

    method Send(to: Pid, m: Message) returns (r: SendResult)
      requires Valid()
      modifies (if to in processes then {processes[to]} else {})
      ensures Valid()
      ensures r == ProcessNotFound <==> to !in processes
      ensures to in processes ==>
                && (r == Sent <==> |old(processes[to].mailbox)| < processes[to].capacity)
                && processes[to].mailbox == old(processes[to].mailbox) + (if r == Sent then [m] else [])
                && processes[to].accepted == old(processes[to].accepted) + (if r == Sent then [m] else [])
    {
      if to !in processes || !processes[to].alive {
        return ProcessNotFound;
      }
      var ok := processes[to].TrySend(m);
      r := if ok then Sent else MailboxFull;
    }

    method Kill(id: Pid) returns (found: bool)
      requires Valid()
      modifies this`processes, this`roomSubscriptions
      modifies (if id in processes then {processes[id], processes[id].ctx} else {})
      ensures Valid()
      ensures found <==> id in old(processes)
      ensures processes == old(processes) - {id}
      ensures roomSubscriptions == Apply(old(roomSubscriptions), Op.Kill(id, found))
      ensures found ==> var p := old(processes)[id];
                && Cancelled() == old(Cancelled()) + {p} && !p.alive
                && p.mailbox == old(p.mailbox) && p.accepted == old(p.accepted)
    {
      hide Tree, Mailboxes;
      found := id in processes;
      if found {
        var p := processes[id];
        Evict(id);
        MarkDead(p);
        roomSubscriptions := roomSubscriptions - {id};
      }
    }

    /** Cancels the node's scope and empties the registry. Subscriptions stay. */
    method Stop()
      requires Valid()
      modifies this`processes, ctx, (set id | id in processes :: processes[id].ctx)
      ensures Valid() && ctx.cancelled && processes == map[]
      ensures forall p :: p in created ==> p.ctx.Err()
    {
      ctx.Cancel();
      ghost var registered := processes;
      while processes != map[]
        invariant processes.Keys <= registered.Keys
        invariant forall id :: id in processes ==> processes[id] == registered[id]
        invariant ctx.cancelled
        decreases processes.Keys
      {
        var id :| id in processes;
        processes[id].ctx.Cancel();
        processes := processes - {id};
      }
    }

    method Subscribe(id: Pid, room: Room)
      requires Valid()
      modifies this`roomSubscriptions
      ensures Valid() && roomSubscriptions == Apply(old(roomSubscriptions), Op.Subscribe(id, room))
    {
      if id !in roomSubscriptions {
        roomSubscriptions := roomSubscriptions[id := {}];
      }
      roomSubscriptions := roomSubscriptions[id := roomSubscriptions[id] + {room}];
    }

    method Unsubscribe(id: Pid, room: Room)
      requires Valid()
      modifies this`roomSubscriptions
      ensures Valid() && roomSubscriptions == Apply(old(roomSubscriptions), Op.Unsubscribe(id, room))
    {
      if id in roomSubscriptions {
        ghost var was := roomSubscriptions;
        var rooms := roomSubscriptions[id] - {room};
        roomSubscriptions := roomSubscriptions[id := rooms];
        if |rooms| == 0 {
          roomSubscriptions := roomSubscriptions - {id};
        }
      }
    }

    /** The processes registered under some identifiers. */
    ghost function Registered(ids: set<Pid>): (ps: set<Process>)
      reads `processes
    {
      Image(processes, ids)
    }

    /** Looks the identifiers up and sends to each registered process. The visit completes, or it is stuck at a
        full mailbox with some processes not reached. No other process is touched. */
    method Deliver(ids: set<Pid>, m: Message) returns (completed: bool, ghost reached: set<Process>)
      requires Valid()
      modifies Registered(ids)`mailbox, Registered(ids)`accepted, Registered(ids)`inFlight, Registered(ids)`handled
      ensures Valid()
      ensures AcceptedBy(Registered(ids), reached, m)
      ensures if completed then reached == Registered(ids) else reached < Registered(ids)
      ensures (forall p :: p in Registered(ids) ==> |old(p.mailbox)| < p.capacity) ==> completed
    {
      var targets := set id | id in ids && id in processes && processes[id].alive :: processes[id];
      assert targets == Registered(ids);
      completed, reached := SendToEach(targets, m);
    }

    /** A room event goes to every registered process subscribed to the room, once, and to no other. */
    method HandleRoomJoin(socket: string, data: Option<Room>) returns (completed: bool, ghost reached: set<Process>)
      requires Valid()
      modifies Subscribers(data)`mailbox, Subscribers(data)`accepted
      modifies Subscribers(data)`inFlight, Subscribers(data)`handled
      ensures Valid()
      ensures data.Some? ==> AcceptedBy(Subscribers(data), reached, RoomJoin(data.value, socket))
      ensures if completed then reached == Subscribers(data) else reached < Subscribers(data)
    {
      if data == None {
        return true, {};
      }
      var ids := set id | id in roomSubscriptions && data.value in roomSubscriptions[id];
      assert Registered(ids) == Subscribers(data);
      completed, reached := Deliver(ids, RoomJoin(data.value, socket));
    }

    method HandleRoomLeave(socket: string, data: Option<Room>) returns (completed: bool, ghost reached: set<Process>)
      requires Valid()
      modifies Subscribers(data)`mailbox, Subscribers(data)`accepted
      modifies Subscribers(data)`inFlight, Subscribers(data)`handled
      ensures Valid()
      ensures data.Some? ==> AcceptedBy(Subscribers(data), reached, RoomLeave(data.value, socket))
      ensures if completed then reached == Subscribers(data) else reached < Subscribers(data)
    {
      if data == None {
        return true, {};
      }
      var ids := set id | id in roomSubscriptions && data.value in roomSubscriptions[id];
      assert Registered(ids) == Subscribers(data);
      completed, reached := Deliver(ids, RoomLeave(data.value, socket));
    }

    method HandleSocketDisconnect(socket: string) returns (completed: bool, ghost reached: set<Process>)
      requires Valid()
      modifies processes.Values`mailbox, processes.Values`accepted, processes.Values`inFlight, processes.Values`handled
      ensures Valid()
      ensures AcceptedBy(processes.Values, reached, SocketDisconnect(socket))
      ensures if completed then reached == processes.Values else reached < processes.Values
    {
      assert Registered(processes.Keys) == processes.Values;
      completed, reached := Deliver(processes.Keys, SocketDisconnect(socket));
    }
  }

  /** `m` was accepted once by each process of `reached` and by none of the others. */
  twostate predicate AcceptedBy(ps: set<Process>, new reached: set<Process>, m: Message)
    reads ps`accepted
  {
    forall p :: p in ps ==> p.accepted == old(p.accepted) + (if p in reached then [m] else [])
  }

  method SendToEach(ps: set<Process>, m: Message) returns (completed: bool, ghost reached: set<Process>)
    requires forall p :: p in ps ==> p.Valid()
    modifies ps`mailbox, ps`accepted, ps`inFlight, ps`handled
    ensures forall p :: p in ps ==> p.Valid()
    ensures AcceptedBy(ps, reached, m)
    ensures if completed then reached == ps else reached < ps
    ensures (forall p :: p in ps ==> |old(p.mailbox)| < p.capacity) ==> completed
  {
    var left := ps;
    reached := {};
    while left != {}
      invariant left <= ps && reached == ps - left
      invariant forall p :: p in ps ==> p.Valid()
      invariant AcceptedBy(ps, reached, m)
      invariant forall p :: p in left ==> p.mailbox == old(p.mailbox)
      decreases left
    {
      var p :| p in left;
      var done := p.BlockingSend(m);
      if !done {
        return false, reached;
      }
      reached := reached + {p};
      left := left - {p};
    }
    completed := true;
  }
}
