/** The client as a sequential object: each method is one of its lock sections, proved to be a step (or a run of steps)
    of the pipeline machine; the batch loop and the flush run against a transport that may fail at any frame. */
module Client {
  import opened Common
  import P = Pipeline

  /** What the application or the client itself sends; only application data can fail to marshal. */
  datatype Message = Data(token: nat, marshals: bool) | JoinRoom(room: string) | LeaveRoom(room: string)

  predicate Marshals(m: Message) {
    m.Data? ==> m.marshals
  }

  datatype SendResult = Accepted | ConnectionClosed | BufferFull

  /** The messages that can be marshalled, in order. */
  function Encodable(ms: seq<Message>): seq<Message> {
    if ms == [] then []
    else
      var n := |ms| - 1;
      Encodable(ms[..n]) + (if Marshals(ms[n]) then [ms[n]] else [])
  }

  lemma {:induction false} EncodableConcat(a: seq<Message>, b: seq<Message>)
    ensures Encodable(a + b) == Encodable(a) + Encodable(b)
  {
    if b == [] {
      assert a + b == a;
    } else {
      var n := |b| - 1;
      EncodableConcat(a, b[..n]);
      assert (a + b)[..|a| + n] == a + b[..n];
    }
  }

  /** Flushing keeps exactly the messages that can be marshalled, each as often as it occurs: all but the application
      data that cannot. */
  lemma {:induction false} EncodableMeaning(ms: seq<Message>, m: Message)
    ensures m in Encodable(ms) <==> m in ms && (m.Data? ==> m.marshals)
    ensures Count(Encodable(ms), m) == if Marshals(m) then Count(ms, m) else 0
    ensures (forall x :: x in ms ==> Marshals(x)) ==> Encodable(ms) == ms
  {
    if ms != [] {
      var n := |ms| - 1;
      EncodableMeaning(ms[..n], m);
      assert ms == ms[..n] + [ms[n]];
      CountConcat(Encodable(ms[..n]), if Marshals(ms[n]) then [ms[n]] else [], m);
      CountOne(ms[n], m);
      CountNone(m);
    }
  }

  /** They keep their order: `at` gives their positions. */
  lemma {:induction false} EncodableInOrder(ms: seq<Message>) returns (at: seq<nat>)
    ensures |at| == |Encodable(ms)| && Increasing(at)
    ensures forall k :: 0 <= k < |at| ==> at[k] < |ms| && Encodable(ms)[k] == ms[at[k]]
  {
    if ms == [] {
      at := [];
    } else {
      var n: nat := |ms| - 1;
      at := EncodableInOrder(ms[..n]);
      assert Encodable(ms) == Encodable(ms[..n]) + (if Marshals(ms[n]) then [ms[n]] else []);
      hide Encodable, Marshals, Increasing;
      if Marshals(ms[n]) {
        IncreasingSnoc(at, n);
        at := at + [n];
      }
    }
  }

  class Transport {
    var wire: seq<Message>
    var connected: bool

    constructor ()
      ensures wire == [] && !connected
    {
      wire, connected := [], false;
    }

    /** One frame: written whole, or not at all. */
    method WriteMessage(m: Message) returns (ok: bool)
      modifies this`wire
      ensures wire == if ok then old(wire) + [m] else old(wire)
    {
      ok := *;
      if ok {
        wire := wire + [m];
      }
    }

    /** Writes in order and stops at the first failure: a prefix reaches the wire. */
    method BatchSend(messages: seq<Message>) returns (ok: bool, ghost written: nat)
      modifies this`wire
      ensures written <= |messages| && wire == old(wire) + messages[..written]
      ensures ok ==> connected && written == |messages|
      ensures !ok && connected ==> written < |messages| || written == 0
    {
      written := 0;
      if !connected {
        return false, 0;
      }
      var deadlineSet := *;
      if !deadlineSet {
        return false, 0;
      }
      for i := 0 to |messages|
        invariant written == i && wire == old(wire) + messages[..i]
      {
        ok := WriteMessage(messages[i]);
        if !ok {
          return false, i;
        }
        written := i + 1;
      }
      ok := true;
    }
  }

  /** Events the batch loop's select can deliver. */
  datatype Event = Received(m: Message) | Tick | Done

  function Joins(rooms: seq<string>): (ms: seq<Message>)
    ensures |ms| == |rooms| && forall k :: 0 <= k < |rooms| ==> ms[k] == JoinRoom(rooms[k])
  {
    seq(|rooms|, k requires 0 <= k < |rooms| => JoinRoom(rooms[k]))
  }

  /** Joins of the first k rooms were appended, as many as fit into the space there was. */
  ghost predicate Rejoined(rooms: seq<string>, k: nat, space: int, before: seq<Message>, after: seq<Message>)
    requires k <= |rooms|
  {
    after == before + Joins(rooms)[..if k <= space then k else if space > 0 then space else 0]
  }

  lemma RejoinedOneMore(rooms: seq<string>, k: nat, space: int, before: seq<Message>, mid: seq<Message>,
                        after: seq<Message>)
    requires k < |rooms| && Rejoined(rooms, k, space, before, mid)
    requires after == if k < space then mid + [JoinRoom(rooms[k])] else mid
    ensures Rejoined(rooms, k + 1, space, before, after)
  {
    assert Joins(rooms)[..k + 1] == Joins(rooms)[..k] + [JoinRoom(rooms[k])];
  }

  lemma RejoinedLength(rooms: seq<string>, k: nat, space: int, before: seq<Message>, after: seq<Message>)
    requires k <= |rooms| && Rejoined(rooms, k, space, before, after)
    ensures |after| == |before| + (if k <= space then k else if space > 0 then space else 0)
  {
  }

  class Client {
    const transport: Transport
    const batching: bool
    const config: P.Config
    const reconnectAttempts: int
    var connected: bool
    var cancelled: bool
    var rooms: set<string>
    var queue: seq<Message>
    /** Every message Send accepted, and the pipeline machine this object refines. */
    ghost var accepted: seq<Message>
    ghost var model: P.State

    ghost predicate Valid()
      reads this
    {
      && connected == model.connected && cancelled == model.cancelled
      && |model.accepted| == |accepted| && |queue| == |model.queue|
      && (forall t :: 0 <= t < |accepted| ==> model.accepted[t] == Marshals(accepted[t]))
      && (forall k :: 0 <= k < |queue| ==> model.queue[k] < |accepted| && queue[k] == accepted[model.queue[k]])
    }

    constructor (transport: Transport, batching: bool, batchSize: int, reconnectAttempts: int)
      ensures Valid() && model == P.INIT && rooms == {}
      ensures this.transport == transport && config == P.Config(batchSize)
      ensures config.capacity == if batchSize > 1 then 1000 else 100
    {
      this.transport, this.batching, this.config := transport, batching, P.Config(batchSize);
      this.reconnectAttempts := reconnectAttempts;
      connected, cancelled, rooms, queue := false, false, {}, [];
      accepted, model := [], P.INIT;
    }

    /** Non-blocking: refuses when disconnected or when the buffer is full. */
    method Send(m: Message) returns (r: SendResult)
      requires Valid()
      modifies this`queue, this`accepted, this`model
      ensures Valid() && model == P.Apply(config, old(model), P.Send(Marshals(m)))
      ensures r == if !connected then ConnectionClosed
                   else if |old(queue)| >= config.capacity then BufferFull else Accepted
      ensures accepted == if r == Accepted then old(accepted) + [m] else old(accepted)
      ensures queue == if r == Accepted then old(queue) + [m] else old(queue)
    {
      if !connected {
        return ConnectionClosed;
      }
      if |queue| >= config.capacity {
        return BufferFull;
      }
      queue := queue + [m];
      accepted := accepted + [m];
      model := P.Apply(config, model, P.Send(Marshals(m)));
      r := Accepted;
    }

    /** The remembered rooms, each once, in some order. */
    method RoomsToRejoin() returns (rs: seq<string>)
      ensures (forall room :: room in rs <==> room in rooms) && |rs| == |rooms|
    {
      rs := [];
      var left := rooms;
      while left != {}
        invariant left <= rooms && |rs| + |left| == |rooms|
        invariant forall room :: room in rs <==> room in rooms && room !in left
        decreases left
      {
        var room :| room in left;
        rs := rs + [room];
        left := left - {room};
      }
    }

    /** Queues a join for each of the rooms, as far as the buffer has space. */
    method Rejoin(rs: seq<string>)
      requires Valid() && connected
      modifies this`queue, this`accepted, this`model
      ensures Valid() && model == P.AfterSends(config, old(model), |rs|)
      ensures Rejoined(rs, |rs|, config.capacity - |old(queue)|, old(accepted), accepted)
      ensures Rejoined(rs, |rs|, config.capacity - |old(queue)|, old(queue), queue)
    {
      ghost var s, asked, queued := model, accepted, queue;
      for i := 0 to |rs|
        invariant Valid() && model == P.AfterSends(config, s, i)
        invariant Rejoined(rs, i, config.capacity - |queued|, asked, accepted)
        invariant Rejoined(rs, i, config.capacity - |queued|, queued, queue)
      {
        RejoinOne(rs, i, asked, queued);
      }
    }

    method RejoinOne(rs: seq<string>, i: nat, ghost asked: seq<Message>, ghost queued: seq<Message>)
      requires Valid() && connected && i < |rs|
      requires Rejoined(rs, i, config.capacity - |queued|, asked, accepted)
      requires Rejoined(rs, i, config.capacity - |queued|, queued, queue)
      modifies this`queue, this`accepted, this`model
      ensures Valid() && model == P.Apply(config, old(model), P.Send(true))
      ensures Rejoined(rs, i + 1, config.capacity - |queued|, asked, accepted)
      ensures Rejoined(rs, i + 1, config.capacity - |queued|, queued, queue)
    {
      hide Valid, P.Apply, Rejoined;
      ghost var space, mid, held := config.capacity - |queued|, accepted, queue;
      RejoinedLength(rs, i, space, queued, queue);
      var r := Send(JoinRoom(rs[i]));
      RejoinedOneMore(rs, i, space, asked, mid, accepted);
      RejoinedOneMore(rs, i, space, queued, held, queue);
    }

    /** A successful connect starts one more loop and queues a join for each remembered room. */
    method Connect(ok: bool) returns (success: bool, ghost rs: seq<string>)
      requires Valid()
      modifies this`connected, this`queue, this`accepted, this`model
      ensures Valid() && success == connected == (old(connected) || ok)
      ensures model == P.AfterSends(config, P.Apply(config, old(model), P.Connect(ok)), |rs|)
      ensures if ok && !old(connected) then |rs| == |rooms| && forall room :: room in rs <==> room in rooms
              else rs == []
      ensures Rejoined(rs, |rs|, config.capacity - |old(queue)|, old(accepted), accepted)
      ensures Rejoined(rs, |rs|, config.capacity - |old(queue)|, old(queue), queue)
    {
      model := P.Apply(config, model, P.Connect(ok));
      success, rs := connected || ok, [];
      if !connected && ok {
        connected := true;
        var roomsToRejoin := RoomsToRejoin();
        Rejoin(roomsToRejoin);
        rs := roomsToRejoin;
      }
    }

    /** Only the first report of a lost connection fires the event and, unless the limit is 0, starts a reconnect
        loop. */
    method HandleDisconnect() returns (fired: bool, reconnecting: bool)
      requires Valid()
      modifies this`connected, this`model
      ensures Valid() && model == P.Apply(config, old(model), P.Disconnect)
      ensures fired == old(connected) && reconnecting == (fired && reconnectAttempts != 0)
    {
      fired := connected;
      model := P.Apply(config, model, P.Disconnect);
      connected := false;
      reconnecting := fired && reconnectAttempts != 0;
    }

    method Close()
      requires Valid()
      modifies this`connected, this`cancelled, this`model
      ensures Valid() && model == P.Apply(config, old(model), P.Close)
    {
      model := P.Apply(config, model, P.Close);
      if connected {
        connected, cancelled := false, true;
      }
    }

    method Join(room: string)
      requires Valid()
      modifies this`rooms, this`queue, this`accepted, this`model
      ensures Valid() && rooms == old(rooms) + {room}
      ensures model == P.Apply(config, old(model), P.Send(true))
      ensures var sent := if connected && |old(queue)| < config.capacity then [JoinRoom(room)] else [];
        accepted == old(accepted) + sent && queue == old(queue) + sent
    {
      rooms := rooms + {room};
      var r := Send(JoinRoom(room));
    }

    method Leave(room: string)
      requires Valid()
      modifies this`rooms, this`queue, this`accepted, this`model
      ensures Valid() && rooms == old(rooms) - {room}
      ensures model == P.Apply(config, old(model), P.Send(true))
      ensures var sent := if connected && |old(queue)| < config.capacity then [LeaveRoom(room)] else [];
        accepted == old(accepted) + sent && queue == old(queue) + sent
    {
      rooms := rooms - {room};
      var r := Send(LeaveRoom(room));
    }

    /** Drops what cannot be marshalled and writes the rest, as one batch or one by one: in both cases a prefix of the
        marshalable messages reaches the wire, all of them on success; a failure reports the lost connection. */
    method ProcessBatch(messages: seq<Message>) returns (ok: bool, ghost written: nat)
      requires Valid()
      modifies this`connected, this`model, transport`wire
      ensures Valid()
      ensures written <= |Encodable(messages)| && transport.wire == old(transport.wire) + Encodable(messages)[..written]
      ensures ok ==> written == |Encodable(messages)| && model == old(model)
      ensures !ok ==> !connected && model == P.Apply(config, old(model), P.Disconnect)
    {
      written := 0;
      if |messages| == 0 {
        return true, 0;
      }
      var encoded := [];
      for i := 0 to |messages|
        invariant encoded == Encodable(messages[..i])
      {
        if Marshals(messages[i]) {
          encoded := encoded + [messages[i]];
        }
        assert messages[..i + 1][..i] == messages[..i];
      }
      assert messages[..|messages|] == messages;
      if batching && |encoded| > 0 {
        ok, written := transport.BatchSend(encoded);
        if !ok {
          var _, _ := HandleDisconnect();
        }
      } else {
        for i := 0 to |encoded|
          invariant Valid() && model == old(model) && connected == old(connected)
          invariant written == i && transport.wire == old(transport.wire) + encoded[..i]
        {
          ok := transport.WriteMessage(encoded[i]);
          if !ok {
            var _, _ := HandleDisconnect();
            return;
          }
          written := i + 1;
        }
        ok := true;
      }
    }

    /** One round of the batch loop: a message joins the batch; a full batch, and on a tick any batch, is flushed. */
    method HandleEvent(held: seq<Message>, e: Event) returns (batch: seq<Message>, ok: bool)
      requires Valid() && e != Done
      modifies this`connected, this`model, transport`wire
      ensures Valid() && (if ok then model == old(model) && connected == old(connected) else !connected)
      ensures var all := if e.Received? then held + [e.m] else held;
        if |all| >= config.batchSize || (e == Tick && |all| > 0)
        then batch == [] && (ok ==> transport.wire == old(transport.wire) + Encodable(all))
        else batch == all && ok && transport.wire == old(transport.wire)
    {
      batch, ok := held, true;
      if e.Received? {
        batch := batch + [e.m];
      }
      if |batch| >= config.batchSize || (e == Tick && |batch| > 0) {
        ghost var written;
        ok, written := ProcessBatch(batch);
        assert ok ==> Encodable(batch)[..written] == Encodable(batch);
        batch := [];
      }
    }

    /** After k events the loop holds `batch`. While no flush failed, the pipeline machine is where it was (`start`) and
        the wire, `before` at first, carries exactly the marshalable ones of the messages flushed, in order. */
    ghost predicate Carries(events: seq<Event>, k: nat, batch: seq<Message>, failed: bool, start: P.State,
                            before: seq<Message>)
      requires k <= |events|
      reads this, transport
    {
      && batch == Pending(events, config.batchSize, k)
      && if failed then !connected
         else model == start && transport.wire == before + Encodable(Flushed(events, config.batchSize, k))
    }

    /** One round of the loop. */
    method LoopRound(events: seq<Event>, k: nat, batch: seq<Message>, failed: bool, ghost start: P.State,
                     ghost before: seq<Message>)
      returns (batch': seq<Message>, failed': bool)
      requires Valid() && config.batchSize > 1 && k < |events| && events[k] != Done
      requires Carries(events, k, batch, failed, start, before)
      modifies this`connected, this`model, transport`wire
      ensures Valid() && Carries(events, k + 1, batch', failed', start, before)
    {
      hide Encodable, Pending, Flushed, Valid;
      OneMoreEvent(events, config.batchSize, k);
      var ok;
      batch', ok := HandleEvent(batch, events[k]);
      failed' := failed || !ok;
    }

    /** One batch loop run against a script of select events, up to the first Done. */
    method BatchProcessingLoop(events: seq<Event>) returns (batch: seq<Message>, failed: bool, ghost n: nat)
      requires Valid() && config.batchSize > 1
      modifies this`connected, this`model, transport`wire
      ensures Valid() && n <= |events|
      ensures (forall k :: 0 <= k < n ==> events[k] != Done) && (n < |events| ==> events[n] == Done)
      ensures Carries(events, n, batch, failed, old(model), old(transport.wire))
    {
      batch, failed, n := [], false, 0;
      ghost var start, before := model, transport.wire;
      for i := 0 to |events|
        invariant Valid() && n == i && forall k :: 0 <= k < i ==> events[k] != Done
        invariant Carries(events, i, batch, failed, start, before)
      {
        if events[i] == Done {
          return;
        }
        batch, failed := LoopRound(events, i, batch, failed, start, before);
        n := i + 1;
      }
    }
  }

  /** What a batch loop holds after the first k events. */
  function Pending(events: seq<Event>, batchSize: int, k: nat): seq<Message>
    requires k <= |events|
  {
    if k == 0 then []
    else
      var before := Pending(events, batchSize, k - 1);
      match events[k - 1]
      case Received(m) => if |before| + 1 >= batchSize then [] else before + [m]
      case Tick => []
      case Done => before
  }

  /** What it has handed to processBatch by then. */
  function Flushed(events: seq<Event>, batchSize: int, k: nat): seq<Message>
    requires k <= |events|
  {
    if k == 0 then []
    else
      var before, pending := Flushed(events, batchSize, k - 1), Pending(events, batchSize, k - 1);
      var held := if events[k - 1].Received? then pending + [events[k - 1].m] else pending;
      if |held| >= batchSize || (events[k - 1] == Tick && |held| > 0) then before + held else before
  }

  /** What it has received by then. */
  function Messages(events: seq<Event>, k: nat): seq<Message>
    requires k <= |events|
  {
    if k == 0 then [] else Messages(events, k - 1) + (if events[k - 1].Received? then [events[k - 1].m] else [])
  }

  lemma OneMoreEvent(events: seq<Event>, batchSize: int, k: nat)
    requires k < |events| && events[k] != Done && batchSize > 1
    ensures var held, flushed := Pending(events, batchSize, k), Flushed(events, batchSize, k);
      var all := if events[k].Received? then held + [events[k].m] else held;
      if |all| >= batchSize || (events[k] == Tick && |all| > 0)
      then Pending(events, batchSize, k + 1) == []
           && Encodable(Flushed(events, batchSize, k + 1)) == Encodable(flushed) + Encodable(all)
      else Pending(events, batchSize, k + 1) == all && Flushed(events, batchSize, k + 1) == flushed
  {
    hide Encodable;
    var held := Pending(events, batchSize, k);
    EncodableConcat(Flushed(events, batchSize, k), if events[k].Received? then held + [events[k].m] else held);
  }

  /** Batching loses and reorders nothing: what was flushed, then what is pending, are the messages received, in order,
      and less than a batch is pending. A tick flushes everything; a message received flushes nothing or one full
      batch. */
  lemma {:induction false} FlushedThenPending(events: seq<Event>, batchSize: int, k: nat)
    requires batchSize > 1 && k <= |events|
    ensures Flushed(events, batchSize, k) + Pending(events, batchSize, k) == Messages(events, k)
    ensures |Pending(events, batchSize, k)| < batchSize
    ensures k > 0 && events[k - 1] == Tick ==> Flushed(events, batchSize, k) == Messages(events, k)
    ensures k > 0 && events[k - 1].Received? ==>
              |Flushed(events, batchSize, k)| - |Flushed(events, batchSize, k - 1)| in {0, batchSize}
  {
    if k > 0 {
      FlushedThenPending(events, batchSize, k - 1);
    }
  }
}
