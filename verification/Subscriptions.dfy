/** The subscription table of a node: which process wants the events of which rooms. */
module Subscriptions {
  type Pid = string
  type Room = string
  type Table = map<Pid, set<Room>>

  function Row(t: Table, id: Pid): set<Room> {
    if id in t then t[id] else {}
  }

  function WithRoom(t: Table, id: Pid, room: Room): Table {
    t[id := Row(t, id) + {room}]
  }

  function WithoutRoom(t: Table, id: Pid, room: Room): Table {
    var left := Row(t, id) - {room};
    if left == {} then t - {id} else t[id := left]
  }

  predicate NoEmptyRow(t: Table) {
    forall id :: id in t ==> t[id] != {}
  }

  // ----- Runs

  /** Every operation of the node, as far as subscriptions can tell. A Kill of an unknown process fails before
      it reaches the table, so it is recorded with found == false. */
  datatype Op =
    | Subscribe(id: Pid, room: Room)
    | Unsubscribe(id: Pid, room: Room)
    | Kill(id: Pid, found: bool)
    | Spawn(id: Pid)
    | Restart(id: Pid)
    | Stop

  function Apply(t: Table, op: Op): Table {
    match op
    case Subscribe(id, room) => WithRoom(t, id, room)
    case Unsubscribe(id, room) => WithoutRoom(t, id, room)
    case Kill(id, found) => if found then t - {id} else t
    case Spawn(_) => t
    case Restart(_) => t
    case Stop => t
  }

  function Run(ops: seq<Op>): Table {
    if ops == [] then map[] else Apply(Run(ops[..|ops| - 1]), ops[|ops| - 1])
  }

  /** The operation ends any wish of `id` for the events of `room`. */
  predicate Withdraws(op: Op, id: Pid, room: Room) {
    op == Unsubscribe(id, room) || op == Kill(id, true)
  }

  /** Some Subscribe(id, room) has not been withdrawn since. */
  ghost predicate Standing(ops: seq<Op>, id: Pid, room: Room) {
    exists k :: 0 <= k < |ops| && ops[k] == Subscribe(id, room)
                && forall j :: k < j < |ops| ==> !Withdraws(ops[j], id, room)
  }

  lemma StandingStep(before: seq<Op>, op: Op, id: Pid, room: Room)
    ensures Standing(before + [op], id, room)
            <==> op == Subscribe(id, room) || (Standing(before, id, room) && !Withdraws(op, id, room))
  {
    var ops, n := before + [op], |before|;
    if op == Subscribe(id, room) {
      assert ops[n] == Subscribe(id, room);
    }
    if Standing(before, id, room) && !Withdraws(op, id, room) {
      var k :| 0 <= k < n && before[k] == Subscribe(id, room)
               && forall j :: k < j < n ==> !Withdraws(before[j], id, room);
      assert ops[k] == Subscribe(id, room);
      assert forall j :: k < j < n + 1 ==> !Withdraws(ops[j], id, room);
    }
    if Standing(ops, id, room) && op != Subscribe(id, room) {
      var k :| 0 <= k < n + 1 && ops[k] == Subscribe(id, room)
               && forall j :: k < j < n + 1 ==> !Withdraws(ops[j], id, room);
      assert ops[n] == op && before[k] == Subscribe(id, room);
      assert forall j :: k < j < n ==> before[j] == ops[j];
    }
  }

  /** Over every run the table holds exactly the standing subscriptions and no empty row. In particular
      a restart or a respawn changes nothing, and only a successful Kill or an Unsubscribe withdraws. */
  lemma {:induction false} TableHoldsStandingSubscriptions(ops: seq<Op>)
    ensures NoEmptyRow(Run(ops))
    ensures forall id, room :: room in Row(Run(ops), id) <==> Standing(ops, id, room)
  {
    if ops != [] {
      var n := |ops| - 1;
      assert ops == ops[..n] + [ops[n]];
      TableHoldsStandingSubscriptions(ops[..n]);
      forall id, room {
        StandingStep(ops[..n], ops[n], id, room);
      }
    }
  }

  /** After a successful Kill(id) and until a new Subscribe(id, room), no event of that room is meant for id. */
  lemma KilledUntilResubscribed(before: seq<Op>, after: seq<Op>, id: Pid, room: Room)
    requires Subscribe(id, room) !in after
    ensures room !in Row(Run(before + [Kill(id, true)] + after), id)
  {
    var ops := before + [Kill(id, true)] + after;
    TableHoldsStandingSubscriptions(ops);
    assert forall k :: |before| < k < |ops| ==> ops[k] == after[k - |before| - 1];
    forall k | 0 <= k < |ops| && ops[k] == Subscribe(id, room)
      ensures exists j :: k < j < |ops| && Withdraws(ops[j], id, room)
    {
      assert Withdraws(ops[|before|], id, room);
    }
  }
}
