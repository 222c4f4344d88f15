/** The server's WebSocket transport: any number of writers and closers, one write pump, and a bounded send channel.
    Steps are the sections under the transport's mutex, channel operations, and single frame writes. Messages are
    numbered in the order in which they enter the channel. */
module WebSocketPump {
  datatype Frame = Text(message: nat) | CloseFrame

  /** A caller of Close that got past the closed check: it writes the Close frame, waits for the pump, and closes the
      connection. `pump` marks the write pump itself, which calls Close when a write fails. */
  datatype Closer = WritesFrame(pump: bool) | Waits(pump: bool) | ClosesConn(pump: bool) | Done

  datatype Pump = Select | Holding(message: nat) | WriteFailed | InClose | Ended

  /** writers: Write calls past their closed check. entering: calls of Close before their closed check. */
  datatype State = State(capacity: nat, closed: bool, closes: nat, enqueued: nat, sendCh: seq<nat>,
                         frames: seq<Frame>, dropped: seq<nat>, pump: Pump,
                         writers: nat, entering: nat, closers: seq<Closer>, connOpen: bool)

  function Init(capacity: nat): State {
    State(capacity, false, 0, 0, [], [], [], Select, 0, 0, [], true)
  }

  datatype Action =
    | WriteChecks
    | WriteQueues
    | CloseCalled
    | CloseEnters
    | PumpCloses
    | FrameWritten(i: nat, ok: bool)
    | WaitOver(i: nat)
    | ConnClosed(i: nat)
    | PumpReceives
    | PumpSeesClose
    | PumpWrites(ok: bool)

  predicate Enabled(s: State, a: Action) {
    match a
    case WriteChecks => true
    case WriteQueues => s.writers > 0
    case CloseCalled => true
    case CloseEnters => s.entering > 0
    case PumpCloses => s.pump.WriteFailed?
    case FrameWritten(i, _) => i < |s.closers| && s.closers[i].WritesFrame?
    case WaitOver(i) => i < |s.closers| && s.closers[i].Waits? && s.pump.Ended?
    case ConnClosed(i) => i < |s.closers| && s.closers[i].ClosesConn?
    case PumpReceives => s.pump.Select? && s.sendCh != []
    case PumpSeesClose => s.pump.Select? && s.closes > 0
    case PumpWrites(_) => s.pump.Holding?
  }

  /** The section of Close under the mutex. */
  function Close(s: State, pump: bool): State {
    if s.closed then s
    else s.(closed := true, closes := s.closes + 1, closers := s.closers + [WritesFrame(pump)])
  }

  function Apply(s: State, a: Action): State
    requires Enabled(s, a)
  {
    match a
    case WriteChecks => if s.closed then s else s.(writers := s.writers + 1)
    case WriteQueues =>
      if |s.sendCh| < s.capacity then
        s.(writers := s.writers - 1, enqueued := s.enqueued + 1, sendCh := s.sendCh + [s.enqueued])
      else s.(writers := s.writers - 1, entering := s.entering + 1)
    case CloseCalled => s.(entering := s.entering + 1)
    case CloseEnters => Close(s.(entering := s.entering - 1), false)
    case PumpCloses =>
      // A Close that finds the transport closed lets the pump end; otherwise the pump goes on to wait for itself.
      if s.closed then s.(pump := Ended) else Close(s.(pump := InClose), true)
    case FrameWritten(i, ok) =>
      s.(closers := s.closers[i := Waits(s.closers[i].pump)],
         frames := if ok then s.frames + [CloseFrame] else s.frames)
    case WaitOver(i) => s.(closers := s.closers[i := ClosesConn(s.closers[i].pump)])
    case ConnClosed(i) => s.(closers := s.closers[i := Done], connOpen := false)
    case PumpReceives => s.(pump := Holding(s.sendCh[0]), sendCh := s.sendCh[1..])
    case PumpSeesClose => s.(pump := Ended)
    case PumpWrites(ok) =>
      var m := s.pump.message;
      if s.closed then s.(pump := Ended, dropped := s.dropped + [m])
      else if ok then s.(pump := Select, frames := s.frames + [Text(m)])
      else s.(pump := WriteFailed, dropped := s.dropped + [m])
  }

  ghost predicate Leads(s: State, actions: seq<Action>, t: State)
    decreases actions
  {
    if actions == [] then s == t
    else Enabled(s, actions[0]) && Leads(Apply(s, actions[0]), actions[1..], t)
  }

  // ----- What every reachable state looks like

  function Texts(k: nat): (fs: seq<Frame>)
    ensures |fs| == k && forall i :: 0 <= i < k ==> fs[i] == Text(i)
  {
    seq(k, (i: nat) => Text(i))
  }

  /** How many data frames were written. */
  function Written(s: State): nat {
    if s.frames != [] && s.frames[|s.frames| - 1] == CloseFrame then |s.frames| - 1 else |s.frames|
  }

  /** The wire carries messages 0, 1, 2, ... in order and then at most one Close frame, which nothing follows. */
  ghost predicate WireInOrder(s: State) {
    s.frames == Texts(Written(s)) || s.frames == Texts(Written(s)) + [CloseFrame]
  }

  ghost predicate QueueInOrder(s: State) {
    && |s.sendCh| <= s.enqueued && |s.sendCh| <= s.capacity
    && (forall k :: 0 <= k < |s.sendCh| ==> s.sendCh[k] == s.enqueued - |s.sendCh| + k)
  }

  /** Every message queued is written, in the pump's hands, still in the channel, or the one the pump dropped at the
      end. */
  ghost predicate Accounted(s: State) {
    match s.pump
    case Select => s.dropped == [] && Written(s) + |s.sendCh| == s.enqueued
    case Holding(m) => s.dropped == [] && m == Written(s) && m + 1 + |s.sendCh| == s.enqueued
    case _ => |s.dropped| <= 1 && Written(s) + |s.dropped| + |s.sendCh| == s.enqueued
  }

  /** Exactly one call of Close passes the check; it has written its frame before it waits, and the connection is closed
      only after the pump has ended. */
  ghost predicate OneCloser(s: State) {
    && s.closes == |s.closers| == (if s.closed then 1 else 0)
    && (s.frames != [] && s.frames[|s.frames| - 1] == CloseFrame ==> s.closed && !s.closers[0].WritesFrame?)
    && (s.pump.InClose? ==> s.closed && s.closers[0] in {WritesFrame(true), Waits(true)})
    && (s.closed && s.closers[0] in {WritesFrame(true), Waits(true), ClosesConn(true)} ==> s.pump.InClose?)
    && (s.closed && (s.closers[0].ClosesConn? || s.closers[0].Done?) ==> s.pump.Ended?)
    && (!s.connOpen <==> s.closed && s.closers[0].Done?)
  }

  ghost predicate Inv(s: State) {
    WireInOrder(s) && QueueInOrder(s) && Accounted(s) && OneCloser(s)
  }

  lemma PumpWritesInOrder(s: State, ok: bool)
    requires Inv(s) && Enabled(s, PumpWrites(ok))
    ensures WireInOrder(Apply(s, PumpWrites(ok)))
    ensures Written(Apply(s, PumpWrites(ok))) == Written(s) + (if ok && !s.closed then 1 else 0)
  {
    hide QueueInOrder;
    if ok && !s.closed {
      assert s.frames + [Text(s.pump.message)] == Texts(Written(s) + 1);
    }
  }

  lemma StepKeepsWire(s: State, a: Action)
    requires Inv(s) && Enabled(s, a)
    ensures WireInOrder(Apply(s, a))
    ensures Written(Apply(s, a)) == Written(s) + (if a.PumpWrites? && a.ok && !s.closed then 1 else 0)
  {
    hide QueueInOrder, Accounted, Texts;
    if a.PumpWrites? {
      PumpWritesInOrder(s, a.ok);
    }
  }

  lemma StepKeepsQueue(s: State, a: Action)
    requires QueueInOrder(s) && Enabled(s, a)
    ensures QueueInOrder(Apply(s, a))
  {
  }

  lemma StepKeepsAccount(s: State, a: Action)
    requires Inv(s) && Enabled(s, a)
    ensures Accounted(Apply(s, a))
  {
    hide WireInOrder, Written, Texts, OneCloser;
    StepKeepsWire(s, a);
  }

  lemma PumpStepKeepsCloser(s: State, a: Action)
    requires OneCloser(s) && Enabled(s, a)
    requires a.PumpCloses? || a.PumpReceives? || a.PumpSeesClose? || a.PumpWrites?
    ensures OneCloser(Apply(s, a))
  {
  }

  lemma StepKeepsCloser(s: State, a: Action)
    requires OneCloser(s) && Enabled(s, a)
    ensures OneCloser(Apply(s, a))
  {
    if a.PumpCloses? || a.PumpReceives? || a.PumpSeesClose? || a.PumpWrites? {
      PumpStepKeepsCloser(s, a);
    }
  }

  lemma StepKeepsInv(s: State, a: Action)
    requires Inv(s) && Enabled(s, a)
    ensures Inv(Apply(s, a))
    ensures s.closed ==> Apply(s, a).closed && Written(Apply(s, a)) == Written(s)
  {
    StepKeepsWire(s, a);
    StepKeepsQueue(s, a);
    StepKeepsAccount(s, a);
    StepKeepsCloser(s, a);
    hide Written, Texts, QueueInOrder, Accounted, OneCloser;
  }

  lemma {:induction false} RunKeepsInv(s: State, actions: seq<Action>, t: State)
    requires Inv(s) && Leads(s, actions, t)
    ensures Inv(t) && t.capacity == s.capacity
    decreases actions
  {
    if actions != [] {
      StepKeepsInv(s, actions[0]);
      RunKeepsInv(Apply(s, actions[0]), actions[1..], t);
    }
  }

  // ----- Main results

  /** In every interleaving of writers, pump and closers: the data frames are the first Written messages in the order
      they were queued, then at most one Close frame follows, and nothing after it (section 5.5.1 of RFC 6455). Until
      a write fails or the transport is closed, a drained channel means that everything queued is on the wire. */
  lemma FramesArePrefixThenClose(capacity: nat, actions: seq<Action>, s: State)
    requires Leads(Init(capacity), actions, s)
    ensures Written(s) <= s.enqueued
    ensures s.frames == Texts(Written(s)) || (s.frames == Texts(Written(s)) + [CloseFrame] && s.closed)
    ensures s.pump.Select? && s.sendCh == [] ==> Written(s) == s.enqueued
  {
    RunKeepsInv(Init(capacity), actions, s);
  }

  /** closeCh is closed at most once, and exactly when the transport is marked closed. */
  lemma ClosedOnce(capacity: nat, actions: seq<Action>, s: State)
    requires Leads(Init(capacity), actions, s)
    ensures s.closes == if s.closed then 1 else 0
    ensures !s.connOpen ==> s.pump.Ended?
  {
    RunKeepsInv(Init(capacity), actions, s);
  }

  /** Once closed, no further data frame is written. */
  lemma {:induction false} NoDataAfterClosed(s: State, actions: seq<Action>, t: State)
    requires Inv(s) && s.closed && Leads(s, actions, t)
    ensures t.closed && Written(t) == Written(s)
    decreases actions
  {
    if actions != [] {
      StepKeepsInv(s, actions[0]);
      NoDataAfterClosed(Apply(s, actions[0]), actions[1..], t);
    }
  }

  predicate WritesClose(a: Action) {
    a.FrameWritten? && a.ok
  }

  lemma FramesStep(s: State, a: Action)
    requires Enabled(s, a)
    ensures CloseFrame in Apply(s, a).frames <==> CloseFrame in s.frames || WritesClose(a)
  {
  }

  /** The wire carries a Close frame exactly if some write of it succeeded. */
  lemma {:induction false} CloseFrameExactlyWhen(s: State, actions: seq<Action>, t: State)
    requires Leads(s, actions, t)
    ensures CloseFrame in t.frames <==> CloseFrame in s.frames || exists a :: a in actions && WritesClose(a)
    decreases actions
  {
    if actions != [] {
      FramesStep(s, actions[0]);
      CloseFrameExactlyWhen(Apply(s, actions[0]), actions[1..], t);
      assert actions == [actions[0]] + actions[1..];
    }
  }

  /** What the callers of Write and Close did in a run: writes that found the transport open, writes that went on to the
      channel, those of them that found it full, and calls of Close made and let in. */
  datatype Tally = Tally(passed: nat, tried: nat, overflowed: nat, called: nat, entered: nat)

  function TallyOf(s: State, actions: seq<Action>): Tally
    decreases actions
  {
    if actions == [] || !Enabled(s, actions[0]) then Tally(0, 0, 0, 0, 0)
    else
      var t := TallyOf(Apply(s, actions[0]), actions[1..]);
      match actions[0]
      case WriteChecks => if s.closed then t else t.(passed := t.passed + 1)
      case WriteQueues =>
        t.(tried := t.tried + 1, overflowed := t.overflowed + (if |s.sendCh| == s.capacity then 1 else 0))
      case CloseCalled => t.(called := t.called + 1)
      case CloseEnters => t.(entered := t.entered + 1)
      case _ => t
  }

  lemma TallyStep(s: State, a: Action)
    requires Enabled(s, a) && |s.sendCh| <= s.capacity
    ensures var t, full := Apply(s, a), |s.sendCh| == s.capacity;
      && |t.sendCh| <= t.capacity == s.capacity
      && t.writers == s.writers + (if a.WriteChecks? && !s.closed then 1 else 0) - (if a.WriteQueues? then 1 else 0)
      && t.enqueued == s.enqueued + (if a.WriteQueues? && !full then 1 else 0)
      && t.entering == s.entering + (if a.CloseCalled? || (a.WriteQueues? && full) then 1 else 0)
                       - (if a.CloseEnters? then 1 else 0)
  {
  }

  /** Over every run: exactly the writes that found the transport open go on to the channel, each is queued unless the
      channel is full, and each that found it full asks for a Close. */
  lemma {:induction false} CallsAddUp(s: State, actions: seq<Action>, t: State)
    requires Leads(s, actions, t) && |s.sendCh| <= s.capacity
    ensures var n := TallyOf(s, actions);
      && t.writers + n.tried == s.writers + n.passed
      && t.enqueued + n.overflowed == s.enqueued + n.tried
      && t.entering + n.entered == s.entering + n.called + n.overflowed
    decreases actions
  {
    if actions != [] {
      TallyStep(s, actions[0]);
      CallsAddUp(Apply(s, actions[0]), actions[1..], t);
      hide Apply;
    }
  }

  /** If the pump itself is the closer it waits for its own end: the connection then stays open in every continuation.
      */
  lemma {:induction false} PumpWaitsForItself(s: State, actions: seq<Action>, t: State)
    requires Inv(s) && s.pump.InClose? && Leads(s, actions, t)
    ensures t.pump.InClose? && t.connOpen
    decreases actions
  {
    if actions != [] {
      StepKeepsInv(s, actions[0]);
      PumpWaitsForItself(Apply(s, actions[0]), actions[1..], t);
    }
  }

  // ----- When the connection can still be closed

  /** Steps the pump and the effective closer still need before the connection is closed. */
  function Remaining(s: State): nat
    requires OneCloser(s)
  {
    if !s.closed then 10
    else
      (match s.closers[0] case WritesFrame(_) => 3 case Waits(_) => 2 case ClosesConn(_) => 1 case Done => 0)
      + (if s.pump.Ended? then 0 else 1)
  }

  /** The next step towards a closed connection. */
  function NextStep(s: State): Action
    requires OneCloser(s) && s.closed && !s.closers[0].Done?
  {
    match s.pump
    case Select => PumpSeesClose
    case Holding(_) => PumpWrites(false)
    case WriteFailed => PumpCloses
    case _ =>
      match s.closers[0]
      case WritesFrame(_) => FrameWritten(0, true)
      case Waits(_) => WaitOver(0)
      case _ => ConnClosed(0)
  }

  lemma NextStepHelps(s: State)
    requires OneCloser(s) && s.closed && s.connOpen && !s.pump.InClose?
    ensures !s.closers[0].Done? && Enabled(s, NextStep(s))
    ensures var t := Apply(s, NextStep(s));
      OneCloser(t) && t.closed && !t.pump.InClose? && Remaining(t) < Remaining(s)
  {
    StepKeepsCloser(s, NextStep(s));
  }

  lemma LeadsOn(s: State, a: Action, rest: seq<Action>, t: State)
    requires Enabled(s, a) && Leads(Apply(s, a), rest, t)
    ensures Leads(s, [a] + rest, t)
  {
    assert ([a] + rest)[1..] == rest;
  }

  lemma {:induction false} CloseCanFinish(s: State) returns (actions: seq<Action>, t: State)
    requires OneCloser(s) && !s.pump.InClose?
    ensures Leads(s, actions, t) && !t.connOpen
    decreases Remaining(s)
  {
    if !s.connOpen {
      actions, t := [], s;
    } else if s.closed {
      NextStepHelps(s);
      actions, t := CloseCanFinish(Apply(s, NextStep(s)));
      LeadsOn(s, NextStep(s), actions, t);
      actions := [NextStep(s)] + actions;
    } else {
      var s1 := Apply(s, CloseCalled);
      var s2 := Apply(s1, CloseEnters);
      StepKeepsCloser(s, CloseCalled);
      StepKeepsCloser(s1, CloseEnters);
      actions, t := CloseCanFinish(s2);
      LeadsOn(s1, CloseEnters, actions, t);
      LeadsOn(s, CloseCalled, [CloseEnters] + actions, t);
      actions := [CloseCalled] + ([CloseEnters] + actions);
    }
  }

  ghost predicate CanStillClose(s: State) {
    exists actions, t :: Leads(s, actions, t) && !t.connOpen
  }

  /** In every reachable state the connection can still be closed exactly if the pump is not itself the effective
      closer. */
  lemma CanStillCloseExactlyWhen(capacity: nat, actions: seq<Action>, s: State)
    requires Leads(Init(capacity), actions, s)
    ensures CanStillClose(s) <==> !s.pump.InClose?
  {
    RunKeepsInv(Init(capacity), actions, s);
    if s.pump.InClose? {
      forall rest, t | Leads(s, rest, t)
        ensures t.connOpen
      {
        PumpWaitsForItself(s, rest, t);
      }
    } else {
      var rest, t := CloseCanFinish(s);
    }
    hide Leads;
  }

  /** One failed write is enough: the transport then never closes its connection. */
  lemma FailedWriteCanBlockClose(capacity: nat) returns (actions: seq<Action>, t: State)
    requires capacity >= 1
    ensures Leads(Init(capacity), actions, t) && t.pump.InClose? && !CanStillClose(t)
  {
    var s := Init(capacity);
    var s1 := Apply(s, WriteChecks);
    var s2 := Apply(s1, WriteQueues);
    var s3 := Apply(s2, PumpReceives);
    var s4 := Apply(s3, PumpWrites(false));
    t := Apply(s4, PumpCloses);
    LeadsOn(s4, PumpCloses, [], t);
    LeadsOn(s3, PumpWrites(false), [PumpCloses] + [], t);
    actions := [PumpWrites(false)] + ([PumpCloses] + []);
    LeadsOn(s2, PumpReceives, actions, t);
    actions := [PumpReceives] + actions;
    LeadsOn(s1, WriteQueues, actions, t);
    actions := [WriteQueues] + actions;
    LeadsOn(s, WriteChecks, actions, t);
    actions := [WriteChecks] + actions;
    CanStillCloseExactlyWhen(capacity, actions, t);
    hide Leads, CanStillClose;
  }

  lemma InitInv(capacity: nat)
    ensures Inv(Init(capacity)) && Written(Init(capacity)) == 0
  {
  }

  lemma WriteWritesNothing(s: State)
    requires Inv(s) && !s.closed
    ensures Written(Apply(Apply(s, WriteChecks), WriteQueues)) == Written(s)
  {
    StepKeepsWire(s, WriteChecks);
    StepKeepsInv(s, WriteChecks);
    StepKeepsWire(Apply(s, WriteChecks), WriteQueues);
    hide Inv, Written;
  }

  /** The pump writes the oldest queued message, which is the next one the wire is waiting for. */
  lemma PumpRoundWrites(s: State, ok: bool)
    requires Inv(s) && s.pump.Select? && s.sendCh != []
    ensures Written(s) == s.enqueued - |s.sendCh|
    ensures Written(Apply(Apply(s, PumpReceives), PumpWrites(ok))) == Written(s) + (if !s.closed && ok then 1 else 0)
  {
    StepKeepsWire(s, PumpReceives);
    StepKeepsInv(s, PumpReceives);
    StepKeepsWire(Apply(s, PumpReceives), PumpWrites(ok));
    hide Written, WireInOrder, QueueInOrder, OneCloser;
  }

  // ----- The transport object: each method is a section of the calls above, proved to be steps of the machine

  type Data = seq<nat>

  class WebSocketServerTransport {
    const capacity: nat
    var closed: bool
    var sendCh: seq<Data>
    /** The data frames written. */
    var wire: seq<Data>
    /** Everything Write put into the channel, and the machine this object refines. */
    ghost var enqueued: seq<Data>
    ghost var model: State

    ghost predicate Valid()
      reads this
    {
      && Inv(model) && model.closed == closed && model.capacity == capacity
      && model.enqueued == |enqueued| && |sendCh| <= |enqueued| && sendCh == enqueued[|enqueued| - |sendCh|..]
      && |model.sendCh| == |sendCh|
      && Written(model) <= |enqueued| && wire == enqueued[..Written(model)]
    }

    constructor (capacity: nat)
      ensures Valid() && model == Init(capacity)
    {
      InitInv(capacity);
      hide Inv;
      this.capacity := capacity;
      closed, sendCh, wire := false, [], [];
      enqueued, model := [], Init(capacity);
    }

    /** Checks, then tries to queue; a full channel asks for a Close. */
    method Write(data: Data) returns (overflow: bool)
      requires Valid()
      modifies this`sendCh, this`enqueued, this`model
      ensures Valid()
      ensures model == if closed then old(model) else Apply(Apply(old(model), WriteChecks), WriteQueues)
      ensures overflow == (!closed && |old(sendCh)| >= capacity)
      ensures model.entering == old(model.entering) + (if overflow then 1 else 0)
      ensures var queued := if closed || overflow then [] else [data];
        sendCh == old(sendCh) + queued && enqueued == old(enqueued) + queued
    {
      if closed {
        return false;
      }
      hide Inv, Written;
      StepKeepsInv(model, WriteChecks);
      StepKeepsInv(Apply(model, WriteChecks), WriteQueues);
      WriteWritesNothing(model);
      model := Apply(Apply(model, WriteChecks), WriteQueues);
      overflow := |sendCh| >= capacity;
      if !overflow {
        sendCh := sendCh + [data];
        enqueued := enqueued + [data];
      }
    }

    /** The section of Close under the mutex: only the first caller goes on to write the Close frame. */
    method EnterClose() returns (first: bool)
      requires Valid() && model.entering > 0
      modifies this`closed, this`model
      ensures Valid() && closed && first == !old(closed)
      ensures model == Apply(old(model), CloseEnters)
    {
      StepKeepsInv(model, CloseEnters);
      hide Inv;
      model := Apply(model, CloseEnters);
      first := !closed;
      closed := true;
    }

    /** One round of the write pump: it takes the oldest message and writes it unless the transport is closed. */
    method PumpRound(ok: bool) returns (goesOn: bool)
      requires Valid() && model.pump.Select? && sendCh != []
      modifies this`sendCh, this`wire, this`model
      ensures Valid() && goesOn == (!closed && ok)
      ensures model == Apply(Apply(old(model), PumpReceives), PumpWrites(ok))
      ensures sendCh == old(sendCh)[1..]
      ensures wire == if goesOn then old(wire) + [old(sendCh)[0]] else old(wire)
    {
      goesOn := !closed && ok;
      PumpRoundWrites(model, ok);
      hide Inv, Written;
      StepKeepsInv(model, PumpReceives);
      StepKeepsInv(Apply(model, PumpReceives), PumpWrites(ok));
      model := Apply(Apply(model, PumpReceives), PumpWrites(ok));
      var message := sendCh[0];
      sendCh := sendCh[1..];
      if goesOn {
        wire := wire + [message];
      }
    }
  }
}
