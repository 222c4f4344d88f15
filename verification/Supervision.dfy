/** The supervisor: it scans the registry and replaces dead children as its strategy and their budgets allow. */
module Supervision {
  import opened Common
  import opened RestartIntensity
  import opened Subscriptions
  import opened Strategies
  import opened Processes

  datatype ProcessSpec = ProcessSpec(id: Pid, behaviour: Behaviour)

  function Ids(specs: seq<ProcessSpec>): (ids: seq<Pid>)
    ensures |ids| == |specs|
    ensures forall i :: 0 <= i < |specs| ==> ids[i] == specs[i].id
  {
    seq(|specs|, i requires 0 <= i < |specs| => specs[i].id)
  }

  /** The behaviour of the first specification with this identifier. */
  function BehaviourOf(specs: seq<ProcessSpec>, id: Pid): Option<Behaviour> {
    if specs == [] then None
    else if specs[0].id == id then Some(specs[0].behaviour)
    else BehaviourOf(specs[1..], id)
  }

  lemma {:induction false} BehaviourKnown(specs: seq<ProcessSpec>, id: Pid)
    ensures BehaviourOf(specs, id).Some? <==> id in Ids(specs)
  {
    if specs != [] {
      BehaviourKnown(specs[1..], id);
      assert Ids(specs) == [specs[0].id] + Ids(specs[1..]);
    }
  }

  /** The first specification with this identifier has this behaviour. */
  ghost predicate FirstSpecified(specs: seq<ProcessSpec>, id: Pid, behaviour: Behaviour) {
    exists i :: 0 <= i < |specs| && specs[i] == ProcessSpec(id, behaviour)
                && forall j :: 0 <= j < i ==> specs[j].id != id
  }

  lemma FirstOfAll(spec: ProcessSpec, specs: seq<ProcessSpec>, id: Pid, behaviour: Behaviour)
    ensures FirstSpecified([spec] + specs, id, behaviour)
            <==> if spec.id == id then spec.behaviour == behaviour else FirstSpecified(specs, id, behaviour)
  {
    var all := [spec] + specs;
    assert all[0] == spec && forall j :: 0 < j < |all| ==> all[j] == specs[j - 1];
    if spec.id != id && FirstSpecified(specs, id, behaviour) {
      var i :| 0 <= i < |specs| && specs[i] == ProcessSpec(id, behaviour)
               && forall j :: 0 <= j < i ==> specs[j].id != id;
      assert all[i + 1] == ProcessSpec(id, behaviour);
    }
    if FirstSpecified(all, id, behaviour) {
      var i :| 0 <= i < |all| && all[i] == ProcessSpec(id, behaviour) && forall j :: 0 <= j < i ==> all[j].id != id;
      if i > 0 {
        assert specs[i - 1] == ProcessSpec(id, behaviour) && forall j :: 0 <= j < i - 1 ==> specs[j] == all[j + 1];
      }
    }
  }

  lemma {:induction false} BehaviourIsTheFirst(specs: seq<ProcessSpec>, id: Pid, behaviour: Behaviour)
    ensures BehaviourOf(specs, id) == Some(behaviour) <==> FirstSpecified(specs, id, behaviour)
  {
    if specs != [] {
      assert specs == [specs[0]] + specs[1..];
      FirstOfAll(specs[0], specs[1..], id, behaviour);
      BehaviourIsTheFirst(specs[1..], id, behaviour);
    }
  }

  method ContainsProcessID(pids: seq<Pid>, id: Pid) returns (found: bool)
    ensures found <==> id in pids
  {
    for i := 0 to |pids|
      invariant id !in pids[..i]
    {
      if pids[i] == id {
        return true;
      }
    }
    found := false;
  }

  /** A tracker is created on demand, forgiven after a quiet period, and charged if there is budget left. */
  method ChargeTracker(l: Limits, t: Option<Tracker>, now: int) returns (granted: bool, tracker: Tracker)
    ensures granted == Grants(l, t, now) && tracker == After(l, t, now)
  {
    tracker := if t.Some? then t.value else Tracker(0, now);
    if now - tracker.lastTime > l.period {
      tracker := Tracker(0, now);
    }
    granted := !(tracker.count >= l.maxRestarts && l.maxRestarts > 0);
    if granted {
      tracker := Tracker(tracker.count + 1, now);
    }
  }

  class Supervisor {
    const strategy: Strategy
    const limits: Limits
    const specs: seq<ProcessSpec>
    const node: Node
    const ctx: Context
    var restarts: Trackers
    /** When each child was restarted, and the latest clock reading. */
    ghost var history: map<Pid, seq<int>>
    ghost var clock: int

    /** Each tracker tells exactly the restarts that were made. */
    ghost predicate Bookkeeping()
      reads `restarts, `history, `clock
    {
      && restarts.Keys == history.Keys
      && (forall id :: id in restarts ==>
            Explains(limits, history[id], Some(restarts[id])) && restarts[id].lastTime <= clock)
    }

    ghost predicate Valid()
      reads this, node, node.ctx, node.created
    {
      node.Valid() && ctx in node.scopes && ctx.ancestors == {node.ctx} && Bookkeeping()
    }

    constructor (strategy: Strategy, limits: Limits, specs: seq<ProcessSpec>, node: Node)
      requires node.Valid()
      modifies node`scopes
      ensures Valid() && fresh(ctx) && !ctx.cancelled
      ensures this.strategy == strategy && this.limits == limits && this.specs == specs && this.node == node
      ensures restarts == map[] && history == map[]
      ensures node.scopes == old(node.scopes) + {ctx}
    {
      this.strategy, this.limits, this.specs, this.node := strategy, limits, specs, node;
      restarts, history := map[], map[];
      ctx := new Context.WithCancel(node.ctx);
      new;
      node.scopes := node.scopes + {ctx};
    }

    /** `p` was started for the child `id` under the supervisor's scope. */
    ghost predicate Incarnates(p: Process, id: Pid) {
      && p.id == id && p.capacity == DEFAULT_MAILBOX
      && p.ctx.ancestors == {node.ctx, ctx}
      && FirstSpecified(specs, id, p.behaviour)
    }

    /** Cancels the registered incarnation, if any, and registers a fresh one under the supervisor's scope. */
    method Replace(id: Pid)
      requires node.Valid() && ctx in node.scopes && ctx.ancestors == {node.ctx}
      requires id in Ids(specs) && !node.ctx.cancelled
      modifies node`processes, node`created
      modifies (if id in node.processes then {node.processes[id].ctx} else {})
      ensures node.Valid()
      ensures id in node.processes && node.processes == old(node.processes)[id := node.processes[id]]
      ensures fresh(node.processes[id]) && fresh(node.processes[id].ctx)
      ensures node.created == old(node.created) + {node.processes[id]}
      ensures Incarnates(node.processes[id], id)
      ensures node.processes[id].mailbox == [] && node.processes[id].accepted == []
      ensures node.Cancelled() == old(node.Cancelled()) + old(node.Registered({id}))
    {
      hide Node.Valid, Node.Cancelled, BehaviourOf, FirstSpecified;
      var behaviour := FindBehaviour(id);
      if id in node.processes {
        node.Evict(id);
      }
      var p := node.Install(id, behaviour, DEFAULT_MAILBOX, ctx);
    }

    method FindBehaviour(id: Pid) returns (behaviour: Behaviour)
      requires id in Ids(specs)
      ensures FirstSpecified(specs, id, behaviour) && BehaviourOf(specs, id) == Some(behaviour)
    {
      BehaviourKnown(specs, id);
      var i := 0;
      while specs[i].id != id
        invariant 0 <= i < |specs| && BehaviourOf(specs[i..], id) == BehaviourOf(specs, id)
        decreases |specs| - i
      {
        i := i + 1;
      }
      behaviour := specs[i].behaviour;
      BehaviourIsTheFirst(specs, id, behaviour);
    }

    /** The tracker's part of a restart attempt. */
    method Charge(id: Pid, now: int) returns (granted: bool)
      requires Bookkeeping() && clock <= now
      modifies this`restarts, this`history, this`clock
      ensures Bookkeeping() && clock == now
      ensures granted == Grants(limits, Get(old(restarts), id), now)
      ensures restarts == old(restarts)[id := After(limits, Get(old(restarts), id), now)]
      ensures history == old(history)[id := Restarts(limits, Get(old(restarts), id), HistoryOf(old(history), id), now)]
    {
      hide Explains, After, Grants, BehaviourOf;
      ChargeKeepsBookkeeping(id, now);
      var tracker;
      granted, tracker := ChargeTracker(limits, Get(restarts, id), now);
      restarts := restarts[id := tracker];
      history := history[id := if granted then HistoryOf(history, id) + [now] else HistoryOf(history, id)];
      clock := now;
    }

    lemma ChargeKeepsBookkeeping(id: Pid, now: int)
      requires Bookkeeping() && clock <= now
      ensures var t, h := Get(restarts, id), HistoryOf(history, id);
        && Explains(limits, Restarts(limits, t, h, now), Some(After(limits, t, now)))
        && After(limits, t, now).lastTime <= now
    {
      AttemptKeepsExplaining(limits, HistoryOf(history, id), Get(restarts, id), now);
    }

    /** One restart attempt at time `now`. Nothing but the child's own registry entry changes. */
    method RestartProcess(id: Pid, now: int) returns (granted: bool)
      requires Valid() && id in Ids(specs) && clock <= now && !node.ctx.cancelled
      modifies this`restarts, this`history, this`clock, node`processes, node`created
      modifies (if id in node.processes then {node.processes[id].ctx} else {})
      ensures Valid() && clock == now
      ensures granted == Grants(limits, Get(old(restarts), id), now)
      ensures restarts == old(restarts)[id := After(limits, Get(old(restarts), id), now)]
      ensures history == old(history)[id := Restarts(limits, Get(old(restarts), id), HistoryOf(old(history), id), now)]
      ensures !granted ==> node.processes == old(node.processes) && node.created == old(node.created)
                           && node.Cancelled() == old(node.Cancelled())
      ensures granted ==>
                && id in node.processes && node.processes == old(node.processes)[id := node.processes[id]]
                && fresh(node.processes[id]) && fresh(node.processes[id].ctx)
                && node.created == old(node.created) + {node.processes[id]}
                && Incarnates(node.processes[id], id)
                && node.processes[id].mailbox == [] && node.processes[id].accepted == []
                && node.Cancelled() == old(node.Cancelled()) + old(node.Registered({id}))
    {
      hide Explains, After, Grants, BehaviourOf, Bookkeeping, Node.Tree, Node.Registry, Node.Mailboxes, Incarnates;
      granted := Charge(id, now);
      if granted {
        Replace(id);
      }
    }

    /** A registry that was `was`, with `known` the processes created by then, is now `procs`: the children in
        `replaced` have incarnations created since, every other entry is the same object. */
    ghost predicate Rebuilt(procs: map<Pid, Process>, was: map<Pid, Process>, known: set<Process>, replaced: set<Pid>) {
      && procs.Keys == was.Keys + replaced
      && (forall id :: id in was && id !in replaced ==> procs[id] == was[id])
      && (forall id :: id in replaced ==> procs[id] !in known && Incarnates(procs[id], id))
    }

    lemma RebuiltStep(procs: map<Pid, Process>, was: map<Pid, Process>, known: set<Process>, replaced: set<Pid>,
                      id: Pid, p: Process)
      requires Rebuilt(procs, was, known, replaced) && was.Values <= known
      requires p !in known && Incarnates(p, id)
      ensures Rebuilt(procs[id := p], was, known, replaced + {id})
      ensures Image(was, replaced + {id}) == Image(was, replaced) + Image(procs, {id}) * known
    {
    }

    /** The whole effect of a check on the node. When it began the registry was `was`, the processes in `known`
        existed and those in `gone` were cancelled. Since then the children in `replaced` were given fresh
        incarnations with empty mailboxes, and exactly their old incarnations were cancelled. */
    ghost predicate ReplacesExactly(was: map<Pid, Process>, known: set<Process>, gone: set<Process>, replaced: set<Pid>)
      reads node`processes, node`created, node.created`mailbox, node.created`accepted
      reads (set p | p in node.created :: p.ctx)
    {
      && Rebuilt(node.processes, was, known, replaced)
      && known <= node.created && node.EmptyExcept(known)
      && node.Cancelled() * known == gone + Image(was, replaced)
    }

    lemma NothingReplacedYet()
      requires Valid()
      ensures ReplacesExactly(node.processes, node.created, node.Cancelled(), {})
      ensures node.processes.Values <= node.created
    {
      assert node.Registered({}) == {};
    }

    /** The first k of the targets have been attempted; when the check began the trackers were `before`. */
    ghost predicate Attempted(targets: seq<Pid>, times: seq<int>, k: nat, was: map<Pid, Process>, known: set<Process>,
                              gone: set<Process>, before: Trackers)
      requires k <= |targets| <= |times|
      reads `restarts, node`processes, node`created, node.created`mailbox, node.created`accepted
      reads (set p | p in node.created :: p.ctx)
    {
      && restarts == Swept(limits, targets[..k], times, before)
      && ReplacesExactly(was, known, gone, Replaced(limits, targets[..k], times, before))
    }

    lemma NothingAttempted(targets: seq<Pid>, times: seq<int>)
      requires Valid() && |targets| <= |times|
      ensures Attempted(targets, times, 0, node.processes, node.created, node.Cancelled(), restarts)
      ensures node.processes.Values <= node.created
    {
      NothingReplacedYet();
      SweepNothing(limits, times, restarts);
      assert targets[..0] == [];
    }

    /** One more restart attempt of a check. */
    method RestartNext(targets: seq<Pid>, times: seq<int>, k: nat, ghost was: map<Pid, Process>,
                       ghost known: set<Process>, ghost gone: set<Process>, ghost before: Trackers)
      requires Valid() && k < |targets| <= |times|
      requires targets[k] in Ids(specs) && clock <= times[k] && !node.ctx.cancelled
      requires was.Values <= known && Attempted(targets, times, k, was, known, gone, before)
      modifies this`restarts, this`history, this`clock, node`processes, node`created
      modifies (set p | p in node.created :: p.ctx)
      ensures Valid() && clock == times[k] && !node.ctx.cancelled
      ensures forall p :: p in node.created ==> p in old(node.created) || fresh(p.ctx)
      ensures Attempted(targets, times, k + 1, was, known, gone, before)
    {
      hide Explains, After, Grants, Rebuilt, Image, Incarnates, Swept, Replaced, Bookkeeping,
           Node.Cancelled, Node.Tree, Node.Mailboxes;
      ghost var id, procs, cancelled := targets[k], node.processes, node.Cancelled();
      ghost var replaced := Replaced(limits, targets[..k], times, before);
      SweepStep(limits, targets, times, before, k);
      assert node.Registered({id}) == Image(procs, {id});
      var granted := RestartProcess(targets[k], times[k]);
      if granted {
        RebuiltStep(procs, was, known, replaced, id, node.processes[id]);
        assert node.Cancelled() == cancelled + Image(procs, {id});
        assert (cancelled + Image(procs, {id})) * known == gone + Image(was, replaced) + Image(procs, {id}) * known;
      } else {
        assert replaced + {} == replaced;
      }
    }

    /** Restarts the targets in order, each as far as its own budget allows. */
    method RestartEach(targets: seq<Pid>, times: seq<int>)
      requires Valid() && !node.ctx.cancelled
      requires |targets| <= |times| && Nondecreasing(times) && (times != [] ==> clock <= times[0])
      requires forall id :: id in targets ==> id in Ids(specs)
      modifies this`restarts, this`history, this`clock, node`processes, node`created
      modifies (set p | p in node.created :: p.ctx)
      ensures Valid()
      ensures restarts == Swept(limits, targets, times, old(restarts))
      ensures ReplacesExactly(old(node.processes), old(node.created), old(node.Cancelled()),
                              Replaced(limits, targets, times, old(restarts)))
    {
      ghost var was, known, gone, before := node.processes, node.created, node.Cancelled(), restarts;
      NothingAttempted(targets, times);
      var k := 0;
      while k < |targets|
        invariant 0 <= k <= |targets|
        invariant Valid() && !node.ctx.cancelled && (k < |times| ==> clock <= times[k])
        invariant Attempted(targets, times, k, was, known, gone, before)
        invariant forall p :: p in node.created ==> p in known || fresh(p.ctx)
      {
        RestartNext(targets, times, k, was, known, gone, before);
        k := k + 1;
      }
      assert targets[..k] == targets;
    }

    /** The children that are missing from the registry, in specification order. */
    method FindDead() returns (dead: seq<Pid>)
      requires Valid()
      ensures dead == Dead(Ids(specs), node.processes.Keys)
    {
      dead := [];
      for i := 0 to |specs|
        invariant dead == Dead(Ids(specs)[..i], node.processes.Keys)
      {
        var id := specs[i].id;
        if id !in node.processes || !node.processes[id].alive {
          dead := dead + [id];
        }
        assert Ids(specs)[..i + 1][..i] == Ids(specs)[..i];
      }
      assert Ids(specs)[..|specs|] == Ids(specs);
    }

    method FirstDeadIndex(dead: seq<Pid>, ghost alive: set<Pid>) returns (index: nat)
      requires forall id :: id in dead <==> id in Ids(specs) && id !in alive
      ensures index == FirstDead(Ids(specs), alive)
    {
      index := 0;
      while index < |specs|
        invariant 0 <= index <= FirstDead(Ids(specs), alive)
      {
        var found := ContainsProcessID(dead, specs[index].id);
        if found {
          break;
        }
        index := index + 1;
      }
    }

    method PickTargets(dead: seq<Pid>) returns (targets: seq<Pid>)
      requires Valid() && dead != [] && dead == Dead(Ids(specs), node.processes.Keys)
      ensures targets == Targets(strategy, Ids(specs), node.processes.Keys)
    {
      hide Dead, Bookkeeping, Node.Valid;
      DeadAreTheMissing(Ids(specs), node.processes.Keys);
      match strategy
      case OneForOne =>
        targets := dead;
      case OneForAll =>
        assert dead[0] in dead;
        targets := Ids(specs);
      case RestForOne =>
        var index := FirstDeadIndex(dead, node.processes.Keys);
        targets := Ids(specs)[index..];
    }

    /** One tick of the monitor. A cancelled supervisor does nothing; otherwise exactly the targets of the
        strategy with restart budget left are replaced, and nothing else changes. */
    method CheckProcesses(times: seq<int>)
      requires Valid()
      requires |specs| <= |times| && Nondecreasing(times) && (times != [] ==> clock <= times[0])
      modifies this`restarts, this`history, this`clock, node`processes, node`created
      modifies (set p | p in node.created :: p.ctx)
      ensures Valid() && old(node.created) <= node.created
      ensures var targets := if old(ctx.Err()) then []
                             else Targets(strategy, Ids(specs), old(node.processes).Keys);
        && |targets| <= |times|
        && restarts == Swept(limits, targets, times, old(restarts))
        && ReplacesExactly(old(node.processes), old(node.created), old(node.Cancelled()),
                           Replaced(limits, targets, times, old(restarts)))
    {
      hide Bookkeeping, Explains, ReplacesExactly, Targets, Dead, Swept, Replaced, Node.Valid, Node.Cancelled;
      TargetsAreChildren(strategy, Ids(specs), node.processes.Keys);
      NothingReplacedYet();
      SweepNothing(limits, times, restarts);
      if ctx.cancelled || node.ctx.cancelled {
        return;
      }
      var dead := FindDead();
      if |dead| == 0 {
        return;
      }
      var targets := PickTargets(dead);
      RestartEach(targets, times);
    }

    /** In every reachable state, no window of any length saw more restarts of a child than its budget allows. */
    lemma EveryWindowIsBounded(id: Pid, from: int, length: nat)
      requires Valid() && id in history && limits.maxRestarts > 0 && limits.period > 0
      ensures CountWithin(history[id], from, from + length)
              <= limits.maxRestarts * PeriodsCovering(length, limits.period)
    {
      WindowBound(limits, history[id], from, length);
    }
  }

  /** Among the specifications with this identifier the last one has this behaviour. */
  ghost predicate LastSpecified(specs: seq<ProcessSpec>, id: Pid, behaviour: Behaviour) {
    exists i :: 0 <= i < |specs| && specs[i] == ProcessSpec(id, behaviour)
                && forall j :: i < j < |specs| ==> specs[j].id != id
  }

  lemma LastStays(specs: seq<ProcessSpec>, spec: ProcessSpec, id: Pid, behaviour: Behaviour)
    requires if spec.id == id then spec.behaviour == behaviour else LastSpecified(specs, id, behaviour)
    ensures LastSpecified(specs + [spec], id, behaviour)
  {
    var all := specs + [spec];
    assert all[|specs|] == spec;
    if spec.id != id {
      var i :| 0 <= i < |specs| && specs[i] == ProcessSpec(id, behaviour)
               && forall j :: i < j < |specs| ==> specs[j].id != id;
      assert all[i] == ProcessSpec(id, behaviour);
    }
  }

  /** A registry that was `was`, with `known` the processes created by then, is now `procs`: each specified child has
      a process created since, directly under the scope `root` and with the behaviour of its last specification; every
      other entry is the same object. */
  ghost predicate Started(procs: map<Pid, Process>, was: map<Pid, Process>, known: set<Process>, root: Context,
                          specs: seq<ProcessSpec>) {
    && procs.Keys == was.Keys + (set spec | spec in specs :: spec.id)
    && (forall spec :: spec in specs ==>
          && procs[spec.id] !in known && procs[spec.id].ctx.ancestors == {root}
          && procs[spec.id].capacity == DEFAULT_MAILBOX
          && LastSpecified(specs, spec.id, procs[spec.id].behaviour))
    && (forall id :: id in was && (forall spec :: spec in specs ==> spec.id != id) ==> procs[id] == was[id])
  }

  lemma StartedStep(procs: map<Pid, Process>, was: map<Pid, Process>, known: set<Process>, root: Context,
                    specs: seq<ProcessSpec>, spec: ProcessSpec, p: Process)
    requires Started(procs, was, known, root, specs)
    requires p !in known && p.ctx.ancestors == {root} && p.capacity == DEFAULT_MAILBOX && p.behaviour == spec.behaviour
    ensures Started(procs[spec.id := p], was, known, root, specs + [spec])
  {
    hide LastSpecified;
    var specs', procs' := specs + [spec], procs[spec.id := p];
    assert forall sp :: sp in specs' <==> sp == spec || sp in specs;
    forall sp | sp in specs'
      ensures LastSpecified(specs', sp.id, procs'[sp.id].behaviour)
    {
      LastStays(specs, spec, sp.id, procs'[sp.id].behaviour);
    }
  }

  /** Starts the children, in order, under the node's scope; it fails only on a stopped node with something to start. */
  method StartChildren(specs: seq<ProcessSpec>, node: Node) returns (ok: bool)
    requires node.Valid()
    modifies node`processes, node`created
    ensures node.Valid() && old(node.created) <= node.created
    ensures !ok <==> node.ctx.cancelled && specs != []
    ensures if ok then Started(node.processes, old(node.processes), old(node.created), node.ctx, specs)
            else node.processes == old(node.processes)
  {
    ghost var was := node.processes;
    assert Started(was, was, node.created, node.ctx, []);
    hide Node.Valid, Started, LastSpecified;
    for i := 0 to |specs|
      invariant node.Valid() && old(node.created) <= node.created
      invariant if i > 0 then !node.ctx.cancelled else node.processes == was
      invariant Started(node.processes, was, old(node.created), node.ctx, specs[..i])
    {
      ghost var procs := node.processes;
      var spawned := node.SpawnProcessWithIDAndOptions(specs[i].id, specs[i].behaviour, 0);
      if spawned == NodeStopped {
        return false;
      }
      StartedStep(procs, was, old(node.created), node.ctx, specs[..i], specs[i], node.processes[specs[i].id]);
      assert specs[..i + 1] == specs[..i] + [specs[i]];
    }
    assert specs[..|specs|] == specs;
    ok := true;
  }

  /** Starts the children under the node's scope, then the supervisor. If that fails it cancels its own scope. */
  method NewSupervisor(strategy: Strategy, limits: Limits, specs: seq<ProcessSpec>, node: Node)
    returns (r: Option<Supervisor>)
    requires node.Valid()
    modifies node`scopes, node`processes, node`created
    ensures node.Valid() && old(node.created) <= node.created
    ensures r == None <==> old(node.ctx.cancelled) && specs != []
    ensures r == None ==> node.processes == old(node.processes)
    ensures r.Some? ==>
              && fresh(r.value) && r.value.Valid() && r.value.node == node && r.value.specs == specs
              && r.value.strategy == strategy && r.value.limits == limits && r.value.restarts == map[]
              && Started(node.processes, old(node.processes), old(node.created), node.ctx, specs)
  {
    var supervisor := new Supervisor(strategy, limits, specs, node);
    hide Node.Tree, Node.Registry, Node.Mailboxes, Started, Supervisor.Bookkeeping;
    var ok := StartChildren(specs, node);
    if !ok {
      supervisor.ctx.Cancel();
      return None;
    }
    r := Some(supervisor);
  }

  function HistoryOf(hs: map<Pid, seq<int>>, id: Pid): seq<int> {
    if id in hs then hs[id] else []
  }
}
