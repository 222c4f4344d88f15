# Verified model of a real-time messaging library

The library consists of a WebSocket/long-polling client and server with rooms, and of an Erlang-style node of processes
under supervisors. This project models its stateful cores in Dafny and proves what they keep over whole runs.

Two kinds of modules work together. Classes model one caller at a time: their fields are the source's fields, their
methods are its critical sections, and their contracts give the complete new state. State machines (`State`, `Action`,
`Enabled`, `Apply`, `Leads`) model every interleaving: one step is one lock section, one channel operation or one frame
written, and theorems about `Leads(INIT, actions, s)` hold in every reachable state.

Four classes are proved to take steps of such a specification: the lock sections of `Client` those of `Pipeline` (its batch
loop is proved against a script of select events instead), `Server` those of `ServerIndex`, `WebSocketServerTransport` those
of the pump, and `Supervisor` the tracker steps of `RestartIntensity` and the sweeps of `Strategies`. `RoomManager` and
`RoomsInterleaved` meet in the other direction: a call of the machine that nobody disturbs has the effect of the sequential
operation (`RoomCalls.CallAlone`, `RoomCalls.EffectOnViews`). The others stand beside their machine without such a proof:
`Processes.Node` beside `Incarnations`, and the two long-polling classes beside `PollLoops`; the sequential and the
interleaved model then each follow the source on their own.

| module | what it models |
|---|---|
| `RestartIntensity` | the restart tracker of one child, and the restarts it admits over any run |
| `Strategies` | which children one check of a supervisor attempts, and the effect of the sweep on all trackers |
| `Supervision` | the supervisor object: checks, restarts, and what they do to the registry on the heap |
| `Processes` | contexts, processes with bounded mailboxes, the node's registry and its room-event routing |
| `Subscriptions` | the subscription table over runs of node operations |
| `Incarnations` | sends with stale process pointers, process loops, checks and the two halves of Stop, interleaved |
| `Losses` | when an accepted message is lost for good, over every run |
| `Sends` | what becomes of a send between its look-up, its alive check and its push |
| `Births` | who created an incarnation, and what is left of a check under way |
| `Orphans` | which incarnations still run, and when one runs without being registered |
| `LoadBalancing` | the load-balanced group: weighted selection, round-robin turns, membership changes |
| `Pipeline`, `Client` | the client's send queue, its batch loops (one more per connect), partial flushes, reconnects |
| `Takers` | the same pipeline loop by loop: who took, wrote, dropped and holds what |
| `Connection` | the same pipeline told from the run: when it is connected, which loops have ended |
| `Backoff` | the reconnect loop's waits in 64-bit arithmetic |
| `Rooms`, `RoomsInterleaved` | rooms and the room manager, first sequentially, then by lock sections |
| `RoomCalls` | calls of the room manager over runs: alone, pruning, and members that stay visible |
| `Broadcast` | the worker pool of `BroadcastParallel` |
| `ServerIndex`, `Server` | the server's sockets and sessions against its rooms, with asynchronous clean-up |
| `WebSocketPump` | the server's WebSocket transport: writers, write pump, close handshake |
| `LongPolling` | the long-polling transports of server and client |
| `PollLoops` | long polling end to end: sessions, poll loops, contexts, losses and order |
| `PollLife` | the life of one poll loop, the transport's contexts, and what is lost |

## Findings

Properties one might expect that the code does not have. Each comes with the exact condition under which it does hold, with
a run that breaks it, or with both.

- `MaxRestarts` within `RestartPeriod` (docs/distributed.md:47-48) reads like a sliding window. The code resets the counter
  only after a gap longer than the period, so it never grants what a sliding window would refuse, and it refuses more:
  the two agree on an attempt exactly as `RestartIntensity.AgreesWithWindowExactlyWhen` says, and on all attempts of all
  runs exactly if MaxRestarts is 1 or the period is not positive (`RestartIntensity.IsSlidingWindowExactlyWhen`).
- Attempts "0 = unlimited" (docs/howtouse.md:302): with 0 the code never starts the reconnect loop (socket/client.go:191);
  every negative value is unlimited (`Client.Client.HandleDisconnect`, `Backoff.Reconnect`).
- A send or batch loop survives a disconnect reported by the receive loop, so a reconnect leaves one more loop on the same
  channel. For every batch size, 1 and less included, the wire follows the accepted order for sure exactly as long as the
  client connects at most once (`Pipeline.WireFollowsOrderExactlyWhen`).
- An accepted message need not be handled. Over every run nothing is lost exactly if no loop ends with mail in its mailbox
  and no ended incarnation accepts a message (`Losses.LossExactlyWhen`). A `Send` that has found its process alive meets a
  live one exactly if no `Kill` hits that incarnation in between (`Losses.AliveExactlyWhen`); if one does, the `Send` can
  return no error and its message be lost (`Incarnations.KillCanLoseASend`, `Losses.FreshNodeCanLose`). Without a `Kill`, a
  granted restart of a registered child and a `Stop`, nothing is lost (`Losses.UndisturbedNodeLosesNothing`).
- `RemoveProcess` can leave the round-robin cursor behind the end of the list; the next `Send` then panics. The contract
  of `LoadBalancing.LoadBalancedProcessGroup.RemoveProcess` says exactly when, `LoadBalancing.SendAfterRemove` shows one.
- After `Stop` the registry stays empty exactly if no supervisor's check was caught in the middle
  (`Incarnations.RegistryStaysEmptyExactlyWhen`); `Incarnations.StopCanCatchACheck` gives the run. Whatever a caught check
  adds is already cancelled.
- A spawn that re-uses the identifier of a registered process neither cancels nor stops the old one, which then runs out of
  reach until `Stop`; this is the only way to get such an orphan (`Orphans.OnlyRegisteredRunExactlyWhen`,
  `Orphans.SpawningTwiceMakesAnOrphan`).
- A join that looks its room up before a concurrent last leave prunes it is lost (`RoomsInterleaved.LastLeaveCanLoseJoin`;
  `RoomsInterleaved.FreshManagerCanLoseJoin` from a fresh manager, `RoomsInterleaved.JoinVisibleExactlyWhen` for the
  condition), and a join caught between its look-up and its add can outlive the clean-up
  (`ServerIndex.LateJoinLeavesOrphan`, `ServerIndex.InvThroughoutExactlyWhen`).
- A leave prunes a name by what it counted in the room object it had looked up, which need no longer be the one of that
  name: two leaves of one socket and a later join can end with the joined member's room pruned
  (`RoomCalls.TwoLeavesCanLoseMember`, `RoomCalls.FreshManagerCanLoseMember`). A member that nobody removes stays visible as
  long as no leave under way holds an older room object or is past its count (`RoomCalls.MemberStaysVisible`).
- After a failed write the write pump closes the transport itself and waits for its own end: in every reachable state the
  connection can still be closed exactly if the pump is not in that position (`WebSocketPump.CanStillCloseExactlyWhen`),
  and one failed write is enough to get there (`WebSocketPump.FailedWriteCanBlockClose`).
- A worker limit below 1 starts no worker and sends nothing (`Broadcast.ReturnedMeansDelivered`).
- The doubling of the reconnect wait overflows for large and for negative settings; it is safe exactly if both settings are
  non-negative and the first wait is 0 or both are below 2^62 (`Backoff.OverflowFreeExactlyWhen`).
- A long-polling poll loop re-reads its context in every round (socket/transport/longpolling.go:137-147), so a loop that is
  fetching or asleep during a Close lives on under the context of the next Connect, beside the new loop. Receive follows
  the order of the writes for sure exactly as long as the client connects at most once (`PollLoops.InOrderExactlyWhen`; the
  run is `PollLoops.CloseDuringFetchReorders`), or if every Connect finds the older loops ended
  (`PollLoops.UncrowdedKeepsOrder`).
- A socket can be told twice that it is disconnected: once by the failed read of its receive loop and once by the first
  Close (`ServerIndex.TwoDisconnectsExactlyWhen`). The clean-up bears that (`ServerIndex.CleanUpTwice`). The waiter that
  closes a channel on every event (socket/server.go:261-263) would not, but it is registered for long-polling sockets
  only, and as their reads never fail (socket/transport/server_transport.go:193-198) they are told at most once.

## Model

| member | source | states |
|---|---|---|
| `RestartIntensity.RestartIntensityBound` | socket/distributed/node.go:409-482 | For every run of restart attempts at nondecreasing times, every closed interval of length L holds at most MaxRestarts * max(1, ceil(L / RestartPeriod)) restarts of the child |
| `RestartIntensity.WindowBound` | socket/distributed/node.go:422-430 | The same bound for any history in which MaxRestarts + 1 consecutive restarts always span more than a period |
| `RestartIntensity.PeriodsCovering` | socket/distributed/node.go:422-425 | The result is the least number of periods, at least one, that covers the length |
| `RestartIntensity.StridesTakeTime` | socket/distributed/node.go:422-430 | k strides of MaxRestarts restarts take longer than k periods |
| `RestartIntensity.WindowIsConsecutive` | socket/distributed/node.go:422-430 | The restarts counted inside an interval are consecutive entries of the history |
| `RestartIntensity.AttemptKeepsExplaining` | socket/distributed/node.go:411-430 | Whether granted or refused, an attempt leaves a tracker that describes the restart history exactly: length of the last chain, last time, spacing |
| `RestartIntensity.RunIsExplained` | socket/distributed/node.go:409-482 | After any run the tracker describes the restarts actually made, and only attempts become restarts |
| `RestartIntensity.RefusedExactlyWhen` | socket/distributed/node.go:427-430 | An attempt is refused if and only if the last MaxRestarts restarts follow each other within a period each and the last is at most a period ago |
| `RestartIntensity.QuietChildIsGranted` | socket/distributed/node.go:422-430 | A child never restarted, or last restarted more than a period ago, is not refused |
| `RestartIntensity.UnlimitedRestartsAlways` | socket/distributed/node.go:427-430 | With MaxRestarts <= 0 every attempt is a restart |
| `RestartIntensity.GrantedWithinWindow` | socket/distributed/node.go:422-430 | With a positive MaxRestarts, for every history, what the code grants a sliding window of one period grants as well |
| `RestartIntensity.AgreesWithWindowExactlyWhen` | socket/distributed/node.go:422-430 | With a positive MaxRestarts, for every history, code and sliding window decide alike if and only if the code grants or the MaxRestarts-th last restart is at most a period old |
| `RestartIntensity.IsSlidingWindowExactlyWhen` | socket/distributed/node.go:422-430 | With a positive MaxRestarts the two decide alike at every time after every run if and only if MaxRestarts is 1 or the period is not positive |
| `RestartIntensity.FirstAttemptsRestart` | socket/distributed/node.go:427-430 | The first MaxRestarts attempts are all restarts |
| `RestartIntensity.CountFromTheEnd` | socket/distributed/node.go:422-430 | An interval ending now holds m restarts if and only if the m-th last restart lies in it |
| `RestartIntensity.StricterThanSlidingWindow` | socket/distributed/node.go:422-430 | A concrete run with a limit of 3 in which an attempt is refused although the last period holds a single restart |
| `Strategies.FirstDead` | socket/distributed/node.go:391-397 | The index before which every child is alive and at which one is missing |
| `Strategies.DeadAreTheMissing` | socket/distributed/node.go:361-370 | The list of dead children contains exactly the specified children missing from the registry |
| `Strategies.TargetsMeaning` | socket/distributed/node.go:376-406 | OneForOne attempts exactly the dead children, OneForAll all of them once one is dead, RestForOne exactly those at or after a dead one |
| `Strategies.EveryDeadChildIsATarget` | socket/distributed/node.go:376-406 | Under each strategy every dead child is attempted, and distinct children are attempted once |
| `Strategies.TargetsInOrder` | socket/distributed/node.go:376-406 | Under each strategy the attempts follow the order of the specifications |
| `Strategies.SweepTouchesTargetsOnly` | socket/distributed/node.go:376-406 | A check changes no tracker but those of its targets and replaces nobody else |
| `Strategies.ReplacedExactlyWithBudget` | socket/distributed/node.go:376-430 | For distinct children, a target is replaced if and only if its own tracker grants a restart at its own attempt |
| `Strategies.FirstAttemptReplaces` | socket/distributed/node.go:376-430 | Even with repeated identifiers, the first attempt at a child replaces it if its tracker grants a restart |
| `Strategies.QuietDeadChildIsRevived` | socket/distributed/node.go:353-430 | Under all three strategies a dead child whose last restart is more than a period ago is revived by the next check |
| `Supervision.BehaviourKnown` | socket/distributed/node.go:432-442 | A specification is found for an identifier exactly if it is specified |
| `Supervision.BehaviourIsTheFirst` | socket/distributed/node.go:432-438 | The look-up yields a behaviour if and only if some specification carries it with this identifier and none before has the identifier |
| `Supervision.ContainsProcessID` | socket/distributed/node.go:484-491 | True if and only if the identifier occurs in the list |
| `Supervision.ChargeTracker` | socket/distributed/node.go:411-430 | The steps on the mutable tracker compute exactly the granted flag and the tracker of the specification |
| `Supervision.Supervisor.constructor` | socket/distributed/node.go:308-321 | A new supervisor's scope hangs directly under the node's and no child has a tracker |
| `Supervision.Supervisor.FindBehaviour` | socket/distributed/node.go:432-438 | The behaviour found is that of a specification with this identifier before which there is none with it |
| `Supervision.Supervisor.Charge` | socket/distributed/node.go:411-430 | One child's tracker and history move together, all others stay, and every tracker still describes its history |
| `Supervision.Supervisor.Replace` | socket/distributed/node.go:444-462 | A fresh process with an empty mailbox and the behaviour of the child's first specification, under the supervisor's scope, takes the registry entry; exactly the old incarnation is cancelled |
| `Supervision.Supervisor.RestartProcess` | socket/distributed/node.go:409-482 | Granted exactly as the tracker says; a refusal leaves the registry alone; a grant changes only the child's own entry |
| `Supervision.Supervisor.RestartNext` | socket/distributed/node.go:378-402 | One attempt of a check extends exactly the set of replaced children and of cancelled incarnations |
| `Supervision.Supervisor.RestartEach` | socket/distributed/node.go:376-406 | After the loop exactly the targets with budget are replaced by fresh empty processes; every other entry is the same object and no other process is cancelled |
| `Supervision.Supervisor.FindDead` | socket/distributed/node.go:361-370 | Collects, in order, exactly the children without a live registry entry |
| `Supervision.Supervisor.FirstDeadIndex` | socket/distributed/node.go:391-397 | Finds the position of the first dead child |
| `Supervision.Supervisor.PickTargets` | socket/distributed/node.go:376-406 | Chooses the targets of the strategy |
| `Supervision.Supervisor.CheckProcesses` | socket/distributed/node.go:353-407 | One tick: nothing if cancelled, else exactly (targets of the strategy) with budget are replaced, everything else keeps its identity, and the trackers are those of the sweep |
| `Supervision.Supervisor.EveryWindowIsBounded` | socket/distributed/node.go:409-482 | In every valid supervisor the restart history of every child meets the window bound |
| `Supervision.StartChildren` | socket/distributed/node.go:323-328 | Every specified child gets a fresh process under the node's scope with the behaviour of its last specification; all other entries are the same objects |
| `Supervision.NewSupervisor` | socket/distributed/node.go:308-337 | Fails only on a stopped node with something to start; otherwise the children run and no restart is on record |
| `Processes.Process.TrySend` | socket/distributed/node.go:228-233 | A message is accepted at the end of the mailbox exactly if there is room |
| `Processes.Process.Take` | socket/distributed/node.go:206-214 | The loop takes the oldest message, keeping accepted == handled, in flight, mailbox |
| `Processes.Process.Finish` | socket/distributed/node.go:208-212 | The message in flight becomes handled, whatever the process function returned |
| `Processes.Process.BlockingSend` | socket/distributed/node.go:123-127 | Accepts the message exactly when it completes, and completes at once if there is room |
| `Processes.Node.constructor` | socket/distributed/node.go:84-108 | An empty registry and table under a live scope |
| `Processes.Node.Install` | socket/distributed/node.go:189-201 | A fresh process with an empty mailbox under the given scope takes the registry entry; nothing is cancelled |
| `Processes.Node.Evict` | socket/distributed/node.go:445-448 | Exactly the registered process is cancelled and leaves the registry |
| `Processes.Node.SpawnProcessWithIDAndOptions` | socket/distributed/node.go:676-717 | Refused exactly on a stopped node; otherwise a fresh process under the node's scope, with the default mailbox size unless a positive one is given |
| `Processes.Node.Send` | socket/distributed/node.go:219-234 | Not found exactly if unregistered, full exactly if the mailbox is full, else the message is appended to that mailbox only |
| `Processes.Node.Kill` | socket/distributed/node.go:236-252 | Cancels exactly the registered process, removes its entry and its subscriptions, keeps its mailbox as it was |
| `Processes.Node.Stop` | socket/distributed/node.go:254-264 | The registry is empty and every process ever created is cancelled, including those overwritten by a re-used identifier |
| `Processes.Node.Subscribe` | socket/distributed/node.go:266-275 | The table makes exactly the step of the subscription machine and no row becomes empty |
| `Processes.Node.Unsubscribe` | socket/distributed/node.go:277-288 | Likewise; a row that would become empty is dropped |
| `Processes.Node.Deliver` | socket/distributed/node.go:119-130 | If the visit completes, each registered target accepted the message exactly once; if it is stuck, a proper subset did; no other process is touched |
| `Processes.SendToEach` | socket/distributed/node.go:119-130 | The same for an arbitrary set of processes, in any order of the map iteration |
| `Processes.Node.HandleRoomJoin` | socket/distributed/node.go:110-131 | A completed room event puts one message into the mailbox of each registered subscriber of that room and none elsewhere |
| `Processes.Node.HandleRoomLeave` | socket/distributed/node.go:133-154 | The same for leave events |
| `Processes.Node.HandleSocketDisconnect` | socket/distributed/node.go:156-170 | A completed disconnect event reaches every registered process once |
| `Subscriptions.TableHoldsStandingSubscriptions` | socket/distributed/node.go:236-288 | Over every run a room is in a process's row if and only if some subscription was not withdrawn since by an Unsubscribe or a successful Kill; no row is empty; restarts and respawns change nothing |
| `Subscriptions.StandingStep` | socket/distributed/node.go:236-288 | How one operation changes which subscriptions stand |
| `Subscriptions.KilledUntilResubscribed` | socket/distributed/node.go:236-251 | After a successful Kill and until a new Subscribe no event of that room is meant for the process |
| `Incarnations.NothingVanishesSilently` | socket/distributed/node.go:191-234 | In every interleaving, with a Kill between any two of a send's look-up, alive check and push, and with room events waiting for space, every send to an identifier that returned without an error is handled, lost with an ended incarnation, or pending, as often as it was accepted |
| `Incarnations.HandledInOrder` | socket/distributed/node.go:194-214 | In every interleaving each incarnation has handled a prefix of what it accepted and its mailbox never exceeds its capacity |
| `Incarnations.StepKeepsFifo` | socket/distributed/node.go:203-214 | Every step keeps accepted == handled, in flight, mailbox in each incarnation |
| `Incarnations.StepKeepsLog` | socket/distributed/node.go:219-234 | Every step keeps the successful sends to an identifier equal to what its incarnations accepted, also for stale pointers |
| `Incarnations.StepKeepsRegistered` | socket/distributed/node.go:181-264 | In every step registered processes stay alive and under their own identifier |
| `Losses.LossExactlyWhen` | socket/distributed/node.go:203-234 | From every state without losses, over every run, no ended incarnation has mail if and only if no loop ended with mail in its mailbox and no ended incarnation accepted a message |
| `Losses.StepLosesExactlyWhen` | socket/distributed/node.go:203-234 | A step loses a message if and only if it is one of these two |
| `Losses.AliveExactlyWhen` | socket/distributed/node.go:219-252 | Over every run an incarnation stays marked alive if and only if no Kill hits it; restarts and Stop leave the mark alone |
| `Losses.UndisturbedNodeLosesNothing` | socket/distributed/node.go:181-234 | Without a Kill, a granted restart of a registered child and a Stop, nothing is ever lost |
| `Losses.FreshNodeCanLose` | socket/distributed/node.go:219-252 | A fresh node loses a message after one spawn and a race of Send and Kill |
| `Sends.LoggedSendFoundItsProcessAlive` | socket/distributed/node.go:219-234 | In every run, every send that returned without an error and every event delivered was pushed by a caller whose last step before had found that very incarnation alive, under the identifier logged |
| `Sends.SendOverRun` | socket/distributed/node.go:219-234 | Over every run a caller holds a process if and only if its last step looked it up, and is past its alive check if and only if its last step found the process alive |
| `Sends.KilledBeforeCheckIsRefused` | socket/distributed/node.go:224-226 | If a Kill hits the incarnation between the look-up and the alive check, the send ends at the check and log and mailboxes stay as they are |
| `Sends.PushLogsExactlyWhen` | socket/distributed/node.go:228-233 | A push is accepted and logged if and only if the mailbox has room; a room event that waited is always delivered |
| `Births.BornAsItIs` | socket/distributed/node.go:181-201 | Over every run an incarnation has its identifier, capacity and parent scope if and only if a spawn on a running node or a granted restart gave it these; they never change |
| `Births.CheckOverRun` | socket/distributed/node.go:353-407 | Over every run a check is under way with exactly its targets that were not attempted yet, in order, if and only if it was begun and not ended |
| `Incarnations.KillCanLoseASend` | socket/distributed/node.go:219-252 | From every state with an idle registered process, a Send and a Kill can both succeed with the message in the mailbox of an ended incarnation; `Losses.LossExactlyWhen` has the condition for all runs |
| `Incarnations.PushAfterKill` | socket/distributed/node.go:224-233 | A send past its alive check is accepted although the process is killed and its loop has ended |
| `Incarnations.LostStaysLost` | socket/distributed/node.go:203-214 | An ended incarnation handles nothing more, whatever is still pushed into its mailbox |
| `Incarnations.RootReachesAll` | socket/distributed/node.go:85-91 | Cancelling the node's scope cancels every scope |
| `Incarnations.AfterStopEveryIncarnationIsCancelled` | socket/distributed/node.go:254-264 | From the first half of Stop on, every incarnation ever created or still to be created is cancelled |
| `Incarnations.EmptyUnlessCheckUnderWay` | socket/distributed/node.go:181-187 | After Stop, with no check in the middle, no continuation registers anything |
| `Incarnations.CaughtCheckRegisters` | socket/distributed/node.go:444-462 | A check caught in the middle can still register a process |
| `Incarnations.StopCanCatchACheck` | socket/distributed/node.go:353-407 | From every state with a live supervisor that is not checking, Stop can catch its next check, and the registry need not stay empty |
| `Incarnations.FreshNodeSupervises` | socket/distributed/node.go:308-321 | A fresh node gets into such a state by starting a supervisor |
| `Incarnations.RegistryStaysEmptyExactlyWhen` | socket/distributed/node.go:353-482 | After Stop the registry stays empty in every continuation if and only if no check under way has a child left |
| `Orphans.OnlyRegisteredRunExactlyWhen` | socket/distributed/node.go:181-264 | In every reachable state before Stop the incarnations not told to end are exactly the registered ones, if and only if no spawn of the run re-used the identifier of a registered process |
| `Orphans.SpawningTwiceMakesAnOrphan` | socket/distributed/node.go:181-201 | A fresh node gets an orphan by spawning one identifier twice |
| `Orphans.OrphansExactlyWhen` | socket/distributed/node.go:181-264 | From any orphan-free state a run ends with an orphan if and only if some spawn of it re-used a registered identifier, also across Stop |
| `Orphans.StepOrphansExactlyWhen` | socket/distributed/node.go:189-201 | A step makes an orphan if and only if it is a spawn over a registered identifier on a running node |
| `Orphans.OrphanForGood` | socket/distributed/node.go:236-264 | No Kill, restart or second half of Stop ever evicts an orphan |
| `Orphans.Effect` | socket/distributed/node.go:181-264 | A step cancels exactly the incarnation it evicts, and unregisters exactly that one and the one it overwrites |
| `Orphans.StepKeepsRun` | socket/distributed/node.go:444-462 | Every step keeps registered processes alive, under their own identifier, and uncancelled |
| `Orphans.StepKeepsShape` | socket/distributed/node.go:309-357 | Every step keeps each incarnation's scope its own, with nothing below it, under the node's or a supervisor's live scope |
| `LoadBalancing.ExactlyOnePick` | socket/distributed/node.go:890-900 | Every selection below the highest prefix sum picks exactly one member, for any integer weights |
| `LoadBalancing.SelectionShare` | socket/distributed/node.go:890-900 | The number of selections below a bound that pick a member is min(M(i+1), bound) - min(M(i), bound) for the running maximum M of 0 and the prefix sums |
| `LoadBalancing.ShareIsWeight` | socket/distributed/node.go:878-900 | Without negative weights that number is exactly the member's weight |
| `LoadBalancing.TurnCount` | socket/distributed/node.go:874-876 | After q rounds and r sends a member had q turns, plus one if the partial round reached it, and where the cursor then is |
| `LoadBalancing.RoundRobinIsFair` | socket/distributed/node.go:874-876 | Any k consecutive sends give each of n members floor(k/n) or ceil(k/n) turns |
| `LoadBalancing.LoadBalancedProcessGroup.AddProcess` | socket/distributed/node.go:832-845 | Appends and keeps the cursor within max(1, len) |
| `LoadBalancing.LoadBalancedProcessGroup.RemoveProcess` | socket/distributed/node.go:847-857 | Removes the first match only; the cursor stays in bounds if and only if nothing matched, the list had one member, or the cursor was not on the last |
| `LoadBalancing.LoadBalancedProcessGroup.Rotate` | socket/distributed/node.go:874-876 | Takes the member under the cursor and advances it cyclically, or panics exactly if the cursor is out of range |
| `LoadBalancing.LoadBalancedProcessGroup.Scan` | socket/distributed/node.go:890-900 | The loop finds the first member whose running total exceeds the selection, which is the one whose peaks enclose it |
| `LoadBalancing.LoadBalancedProcessGroup.Choose` | socket/distributed/node.go:859-905 | The target under each strategy, including the empty group and a non-positive total; with the cursor in bounds it never panics |
| `LoadBalancing.LoadBalancedProcessGroup.SendMany` | socket/distributed/node.go:859-876 | Of k sends without a membership change each of the n members gets floor(k/n) or ceil(k/n), and the targets follow the cursor |
| `LoadBalancing.SendAfterRemove` | socket/distributed/node.go:847-876 | Two joins, a send, a removal and a send end in the panic |
| `LoadBalancing.TurnsAreChoices` | socket/distributed/node.go:874-876 | A member's turns are how often it is chosen |
| `Pipeline.EveryMessageInOnePlace` | socket/client.go:107-137 | For any number of reconnects and loops, every accepted message is in exactly one place (wire, dropped, held by one loop, queue), once, and nothing else is anywhere; without failure or Close no marshalable message is dropped |
| `Pipeline.LoopsWriteInAcceptedOrder` | socket/client.go:292-319 | Each loop's frames and what it holds follow the accepted order, and at its select it holds less than a batch; what it took in all is in `Takers` |
| `Takers.EachLoopAccountsForWhatItTook` | socket/client.go:292-351 | In every run each loop consumes a subsequence of the accepted messages in their order, and each message it consumed is on the wire by it, dropped by it, or held by it, exactly once |
| `Takers.StepKeepsTaken` | socket/client.go:301-306 | The next message taken is always the next one accepted, whichever loop takes it |
| `Takers.StepKeepsAccount` | socket/client.go:292-351 | A step changes no loop's account but by the message a loop takes |
| `Takers.TakenByIncreases` | socket/client.go:305-306 | What one loop took is a subsequence of the accepted order |
| `Pipeline.OneLoopDeliversInOrder` | socket/client.go:292-351 | With one connect and no failed write the wire carries exactly the marshalable messages of a prefix of the accepted ones, for every batch size; once nothing is held or queued, of all |
| `Pipeline.OneDisconnectPerConnect` | socket/client.go:179-194 | In every interleaving connects equal disconnect events plus effective Closes plus the current connection, and equal the number of loops |
| `Pipeline.WireFollowsOrderExactlyWhen` | socket/client.go:125-158 | For every batch size, all runs with at most n successful connects keep the accepted order on the wire if and only if n <= 1, whether or not writes fail |
| `Pipeline.OneConnectKeepsOrder` | socket/client.go:139-158 | With at most one connect the frames are in accepted order, also after failed writes |
| `Pipeline.ReconnectReorders` | socket/client.go:125-158 | For every batch size a run with one reconnect and no failed write puts message 1 on the wire before message 0 |
| `Pipeline.ConnectThenSends` | socket/client.go:125-134 | A connect followed by queued joins is a run of the machine |
| `Pipeline.StepConserves` | socket/client.go:220-351 | Every step keeps the count of every message over all places |
| `Pipeline.StepKeepsLoopsInOrder` | socket/client.go:301-318 | Every step keeps what each loop holds in accepted order and ahead of the queue |
| `Pipeline.StepKeepsWireInOrder` | socket/client.go:326-350 | Every step keeps each loop's frames in accepted order |
| `Pipeline.StepKeepsUndisturbed` | socket/client.go:292-351 | Every step of an undisturbed run keeps wire, held messages and queue in line |
| `Pipeline.MarshalSplits` | socket/client.go:328-335 | Marshalling splits a batch into what is written and what is dropped, losing and adding nothing |
| `Connection.ConnectedExactlyWhen` | socket/client.go:107-194 | Over every run the client is connected if and only if since some successful Connect no loss was reported, no write failed and nobody closed it |
| `Connection.StoppedExactlyWhen` | socket/client.go:139-158 | Over every run a batch loop has ended if and only if it left its select after a Close, whatever writes failed; a single-message loop also ends with its first failed write |
| `Connection.CountersTellTheRun` | socket/client.go:278-290 | Over every run connects, closes and failures are the effective ones of the run, and the context is cancelled if and only if some Close took effect |
| `Connection.FlushBeginsExactlyWhen` | socket/client.go:301-316 | A loop at its select starts to flush if and only if its ticker fires or a message fills its batch |
| `Client.FlushedThenPending` | socket/client.go:297-318 | What a batch loop flushed followed by what it holds is what it received, in order, and it holds less than a batch; a tick flushes everything, a message received nothing or one full batch |
| `Client.EncodableMeaning` | socket/client.go:328-335 | Of a batch exactly the messages that marshal are written, each as often as it occurs; a batch in which all do is written whole |
| `Client.EncodableInOrder` | socket/client.go:328-335 | They keep the order of the batch |
| `Client.Transport.BatchSend` | socket/transport/websocket.go:289-310 | A prefix of the batch reaches the wire, all of it on success |
| `Client.Client.Send` | socket/client.go:220-245 | Refused exactly when disconnected or when the buffer is full, else appended; a step of the pipeline |
| `Client.Client.RoomsToRejoin` | socket/client.go:115-118 | The remembered rooms, each once |
| `Client.Client.Rejoin` | socket/client.go:132-134 | A join for each room is queued as far as the buffer has space, nothing else |
| `Client.Client.Connect` | socket/client.go:107-137 | Idempotent; a successful connect is one connect step followed by one send per remembered room |
| `Client.Client.HandleDisconnect` | socket/client.go:179-194 | Fires exactly for the first report and reconnects exactly if it fired and the limit is not 0 |
| `Client.Client.Close` | socket/client.go:278-290 | Takes effect exactly when connected, as a step of the pipeline |
| `Client.Client.Join` | socket/client.go:353-362 | Remembers the room in any case and queues a join exactly if connected and there is space |
| `Client.Client.Leave` | socket/client.go:364-373 | Forgets the room in any case and queues a leave exactly if connected and there is space |
| `Client.Client.ProcessBatch` | socket/client.go:321-351 | On both write paths a prefix of the messages that marshal (`Client.EncodableMeaning`, `Client.EncodableInOrder`) reaches the wire, all of them unless a disconnect is reported |
| `Client.Client.HandleEvent` | socket/client.go:305-316 | One round of the loop flushes a full batch, or on a tick any batch, and otherwise only collects |
| `Client.Client.LoopRound` | socket/client.go:301-318 | One round keeps the loop's batch and the wire equal to what the events so far call for |
| `Client.Client.BatchProcessingLoop` | socket/client.go:292-319 | For every script of events, while flushes succeed the wire carries exactly the marshalable ones of the messages flushed |
| `Backoff.DelayClosedForm` | socket/client.go:196-218 | For every setting that does not overflow the k-th wait is d0 for k = 0 and min(d0 * 2^k, max) for k >= 1 |
| `Backoff.OverflowFreeExactlyWhen` | socket/client.go:212-215 | For all settings, negative ones included, the 64-bit doubling never overflows if and only if both are non-negative and d0 is 0 or both are below 2^62 |
| `Backoff.CappedDoubling` | socket/client.go:212-215 | The closed form up to the first overflow, for any non-negative settings |
| `Backoff.NegativeSinks` | socket/client.go:212-215 | Once a wait is negative the waits fall as fast as powers of two grow |
| `Backoff.TotalWait` | socket/client.go:200-216 | n waits last at most d0 + (n - 1) * max |
| `Backoff.Reconnect` | socket/client.go:196-218 | The loop waits exactly the specified delays, connects at most as often as a positive limit allows, and stops exactly on success, cancellation or an exhausted limit |
| `Rooms.JoinOnPairs` | socket/room.go:163-166 | Join adds exactly one pair to the membership relation; looking a room up adds none |
| `Rooms.LeaveOnPairs` | socket/room.go:168-199 | Leave removes exactly one pair, LeaveAllRooms exactly the pairs of one socket |
| `Rooms.LeaveUndoesJoin` | socket/room.go:163-180 | A leave restores the manager after a join if and only if the socket was no member and the room was not standing empty |
| `Rooms.NoEmptyRoomKept` | socket/room.go:163-199 | Joins and leaves leave no empty room behind |
| `Rooms.LeaveAllIsLeavingEach` | socket/room.go:182-213 | LeaveAllRooms equals leaving, in any order, the rooms GetSocketRooms lists |
| `Rooms.LeaveAllTwice` | socket/room.go:182-199 | A second LeaveAllRooms changes nothing |
| `Rooms.Room.GetSockets` | socket/room.go:93-103 | Exactly the members, each once |
| `Rooms.RoomManager.GetRoom` | socket/room.go:120-136 | Returns the object registered under the name, a fresh empty one exactly if there was none |
| `Rooms.RoomManager.RemoveRoom` | socket/room.go:145-149 | Removes exactly that name |
| `Rooms.RoomManager.JoinRoom` | socket/room.go:163-166 | Refines the join of the view and keeps the identity of all room objects |
| `Rooms.RoomManager.LeaveRoom` | socket/room.go:168-180 | Refines the leave of the view and removes the entry exactly if the room is empty |
| `Rooms.RoomManager.VisitRoom` | socket/room.go:190-198 | One room of the snapshot: leaves it exactly if the socket is a member |
| `Rooms.RoomManager.LeaveAllRooms` | socket/room.go:182-199 | Refines the removal of all pairs of one socket, whatever the order of the snapshot |
| `Rooms.RoomManager.GetSocketRooms` | socket/room.go:201-213 | Exactly the rooms of the socket, each once |
| `RoomsInterleaved.SameRoomUnlessPruned` | socket/room.go:120-136 | In every interleaving two GetRoom results for a name are the same object if no RemoveRoom of the name lies between |
| `RoomsInterleaved.JoinVisibleExactlyWhen` | socket/room.go:163-199 | In every interleaving a completed join is visible if and only if, since its GetRoom, no RemoveRoom of the name happened and no RemoveSocket of the socket on that object after the last AddSocket |
| `RoomsInterleaved.NameOverRun` | socket/room.go:120-149 | Over every run a name stays bound to an object exactly as long as it is not pruned |
| `RoomsInterleaved.MemberOverRun` | socket/room.go:20-30 | Over every run membership in a room object is decided by the last AddSocket or RemoveSocket |
| `RoomsInterleaved.FreshManagerCanLoseJoin` | socket/room.go:120-180 | The same from a fresh manager: one join, then the race |
| `RoomsInterleaved.LastLeaveCanLoseJoin` | socket/room.go:163-180 | From every state with a single member there is an interleaving of its leave and another socket's join that completes both and loses the join |
| `RoomCalls.PrunedRoomWasCountedEmpty` | socket/room.go:174-179 | In every interleaving whoever removes a name from the manager had, in its last step before, counted no member in a room object of that name |
| `RoomCalls.MemberStaysVisible` | socket/room.go:163-199 | In every interleaving a member that nobody removes stays visible, provided that at the start no leave under way holds an older room object of the name or is past its count |
| `RoomCalls.TwoLeavesCanLoseMember` | socket/room.go:168-180 | Without that proviso: from every state with a single member there is an interleaving of two leaves of it and a later join in which the first leave prunes the new room with its member |
| `RoomCalls.FreshManagerCanLoseMember` | socket/room.go:120-180 | The same from a fresh manager |
| `RoomCalls.CallAlone` | socket/room.go:163-199 | A join, leave or LeaveAllRooms whose sections run without interference makes of the memberships, from every state, what the sequential operation does |
| `RoomCalls.EffectOnViews` | socket/room.go:163-199 | That effect is the one of `Rooms.Joined`, `Rooms.Left` and `Rooms.LeftAll` |
| `RoomCalls.MembersAfterCallAlone` | socket/room.go:163-199 | Such a call adds or removes exactly the memberships it names; every other member stays visible |
| `RoomCalls.CallCompletes` | socket/room.go:163-199 | Left alone, every call completes, from every state |
| `RoomCalls.AddingWasGot` | socket/room.go:163-166 | Over every run a caller is about to add its socket to a room if and only if its last step was the GetRoom that returned it |
| `Broadcast.ReturnedMeansDelivered` | socket/room.go:58-91 | In every schedule, when the wait returns each socket of the snapshot had exactly one Send, provided the limit is at least 1; otherwise none |
| `Broadcast.AtMostOnce` | socket/room.go:71-83 | At any time no socket was sent to more than once, and no more sends are in flight than there are sockets, nor than the limit allows; none with a limit below 1 |
| `Broadcast.PoolCanBeFull` | socket/room.go:69-83 | The bound is met: in some schedule min(n, limit) sends are under way at once |
| `Broadcast.ProducerNeverBlocks` | socket/room.go:85-88 | The producer always finds space in the job channel |
| `Broadcast.NeverStuck` | socket/room.go:71-90 | Until the broadcast returns, some step is possible |
| `Broadcast.StepDecreases` | socket/room.go:71-90 | A measure over queued jobs, sends in flight and live workers decreases with every step |
| `Broadcast.StepKeepsCopies` | socket/room.go:75-88 | Every step keeps each socket in exactly one place |
| `Broadcast.BroadcastParallel` | socket/server.go:369-408 | Under an arbitrary scheduler the broadcast terminates and delivers to each socket exactly once |
| `ServerIndex.MembersAreRegistered` | socket/server.go:314-324 | With every join one step, in every reachable state each room member is registered or awaits a clean-up; with nothing pending all members are registered |
| `ServerIndex.StepKeepsInvExactlyWhen` | socket/server.go:451-459 | A step keeps the invariant if and only if it is not a join that adds after its socket is gone and cleaned up |
| `ServerIndex.InvThroughoutExactlyWhen` | socket/server.go:451-459 | A run keeps the invariant throughout if and only if no step of it is such a late join |
| `ServerIndex.LateJoinLeavesOrphan` | socket/server.go:451-459 | For every socket and room there is a run that ends with the socket in the room, unregistered and with no clean-up pending |
| `ServerIndex.CleanUpTwice` | socket/server.go:314-324 | The clean-up of a second disconnect event changes neither index nor rooms |
| `ServerIndex.TwoDisconnectsExactlyWhen` | socket/socket_impl.go:36-46 | In every run a socket gets at most two disconnect events, two if and only if its read has failed and it is closed, and a long-polling socket at most one |
| `ServerIndex.FailedReadTellsTwice` | socket/socket_impl.go:39-46 | A failed read followed by the loop's own Close gives two events |
| `ServerIndex.StepKeepsEvents` | socket/socket_impl.go:126-141 | Every step keeps the events of a socket equal to its failed read plus its first Close |
| `ServerIndex.IndexTellsTheRun` | socket/server.go:314-324 | Told from every whole run: a socket is in the index, open, or with a session if and only if it connected and nothing took it out since, and in a room if and only if some join of it was not undone since |
| `ServerIndex.PairOverRun` | socket/server.go:451-467 | From every state: a socket is in a room if and only if some join of it was not undone since by a leave of that room, a leave of all rooms or a clean-up, or it was there and none of these came |
| `ServerIndex.KindOverRun` | socket/server.go:203-253 | From every state: who is in the index, open, and with a session, by the connects, closes, removals and clean-ups since |
| `ServerIndex.EachAddWasLookedUp` | socket/server.go:451-459 | Over every run each join in two steps enters its room at most once, and only if it found its socket registered |
| `ServerIndex.OneCleanUpPerEvent` | socket/server.go:314-324 | Over every run each disconnect event has run its clean-up once or has it still to come |
| `Server.PairsAfterJoin` | socket/server.go:451-459 | The manager's join is the join of the index machine |
| `Server.PairsAfterLeave` | socket/server.go:461-467 | The manager's leaves are the leaves of the index machine |
| `Server.Server.Connect` | socket/server.go:203-207 | Registering a connection is one step of the index machine |
| `Server.Server.CloseSocket` | socket/socket_impl.go:126-141 | Only the first Close fires a disconnect event |
| `Server.Server.ReadFails` | socket/socket_impl.go:39-46 | A failed read fires an event and then closes, which may fire a second one |
| `Server.Server.RemoveSession` | socket/server.go:239-253 | Removes a known session and its socket and closes it, as one step of the machine; an unknown one changes nothing |
| `Server.Server.CleanupSessions` | socket/server.go:63-78 | Exactly the expired sessions and their sockets are removed, and each socket still open fires one event |
| `ServerIndex.RemovalsAreARun` | socket/server.go:68-75 | Removing sessions in bulk is a run of single removals |
| `Server.Server.CleanUp` | socket/server.go:314-324 | The disconnect handler removes exactly that socket from the index and exactly its memberships from the rooms |
| `Server.Server.Join` | socket/server.go:451-459 | Adds exactly this membership, and that exactly if the socket is registered |
| `Server.Server.Leave` | socket/server.go:461-463 | Afterwards a socket is in a room if and only if it was before and this is not the membership named |
| `Server.Server.LeaveAll` | socket/server.go:465-467 | Afterwards a socket is in a room if and only if it was before and is not the one named |
| `WebSocketPump.FramesArePrefixThenClose` | socket/transport/server_transport.go:70-98 | In every interleaving the data frames are a prefix of the enqueued messages, then at most one Close frame, then nothing (section 5.5.1 of RFC 6455); while the pump is undisturbed an empty channel means everything is written |
| `WebSocketPump.ClosedOnce` | socket/transport/server_transport.go:136-155 | closeCh is closed at most once, exactly when the transport is marked closed, and the connection only after the pump has ended |
| `WebSocketPump.CloseFrameExactlyWhen` | socket/transport/server_transport.go:147-151 | Over every run the wire carries a Close frame if and only if some write of it succeeded |
| `WebSocketPump.CallsAddUp` | socket/transport/server_transport.go:113-134 | Over every run exactly the writes that found the transport open go on to the channel, each is queued unless the channel is full, and each that found it full asks for a Close |
| `WebSocketPump.NoDataAfterClosed` | socket/transport/server_transport.go:78-89 | Once closed no further data frame is written, in any continuation |
| `WebSocketPump.PumpWaitsForItself` | socket/transport/server_transport.go:91-95 | A pump that is itself the effective closer never ends and the connection stays open |
| `WebSocketPump.CanStillCloseExactlyWhen` | socket/transport/server_transport.go:136-155 | In every reachable state some continuation closes the connection if and only if the pump is not itself the effective closer |
| `WebSocketPump.CloseCanFinish` | socket/transport/server_transport.go:136-155 | From every other state a run to the closed connection exists |
| `WebSocketPump.FailedWriteCanBlockClose` | socket/transport/server_transport.go:88-95 | One failed write leads from the start to a state in which the connection can never be closed |
| `WebSocketPump.StepKeepsInv` | socket/transport/server_transport.go:70-155 | Every step keeps frames and channel in order, accounts for every message, and keeps a single effective closer |
| `WebSocketPump.WebSocketServerTransport.Write` | socket/transport/server_transport.go:113-134 | Dropped silently if closed, queued if there is room, else one more Close is asked for |
| `WebSocketPump.WebSocketServerTransport.EnterClose` | socket/transport/server_transport.go:136-145 | Only the first caller goes on to the Close frame |
| `WebSocketPump.WebSocketServerTransport.PumpRound` | socket/transport/server_transport.go:74-96 | The oldest message is taken and written unless the transport is closed or the write fails; what was written stays a prefix of what was enqueued |
| `PollLoops.EachWriteInOnePlace` | socket/transport/longpolling.go:136-160 | In every run, with any number of connects and poll loops, every accepted write is received, on its way or lost, once and in one place |
| `PollLoops.InOrderExactlyWhen` | socket/transport/longpolling.go:83-160 | Receive follows the order of the writes in all runs with at most n successful connects if and only if n <= 1 |
| `PollLoops.CloseDuringFetchReorders` | socket/transport/longpolling.go:137-147 | Connect, Close during a request, Connect: the old loop polls the new session beside the new loop and two writes are reversed without a loss |
| `PollLoops.UncrowdedKeepsOrder` | socket/transport/longpolling.go:83-160 | Any number of connects keeps the order if each finds the older loops ended |
| `PollLoops.StepKeepsOrder` | socket/transport/longpolling.go:136-160 | Every other step keeps what the client has seen and will see in the order of the writes |
| `PollLoops.StepKeepsCopies` | socket/transport/longpolling.go:136-160 | Every step keeps each write in one place |
| `PollLoops.ReceivedIsSubsequence` | socket/transport/longpolling.go:136-160 | With one connect, under any poll losses and overflows, Receive yields accepted writes in order, each at most once; with no loss the whole line is the writes in order |
| `PollLoops.ReceivedIsPrefixExactlyWhen` | socket/transport/longpolling.go:150-157 | With one connect, what was received is a prefix of the writes if and only if nothing lost is older than it |
| `PollLife.LifeOverRun` | socket/transport/longpolling.go:136-147 | Over every run a loop sleeps if and only if its last poll failed or it has not moved since its start, and has ended if and only if it left its select on a cancelled context |
| `PollLife.PollsAgain` | socket/transport/longpolling.go:136-160 | While the client is connected a loop that has not ended polls the current session again: after a response right after pushing what it was given, after a failed poll after its sleep |
| `PollLife.SelectsOnCurrent` | socket/transport/longpolling.go:137-139 | Over every run a loop selects on a context if and only if that was the transport's when the loop, in its last step, read it |
| `PollLife.ContextsTellTheRun` | socket/transport/longpolling.go:83-97 | Over every run each attempt to connect makes a new context, and a context is cancelled if and only if it was the current one when a connected client was closed |
| `PollLife.NothingLostExactlyWhen` | socket/transport/longpolling.go:150-157 | Over every run nothing is lost if and only if no response found the client's queue full and none that was drained went missing |
| `PollLife.ClosedSessionIsFrozen` | socket/transport/server_transport.go:200-242 | A session closed on the server neither accepts writes nor hands out what is left |
| `PollLife.SessionClosedExactlyWhen` | socket/transport/server_transport.go:212-218 | Over every run a session is closed if and only if it was closed before or closing it is a step of the run |
| `LongPolling.LongPollingServerTransport.Write` | socket/transport/server_transport.go:200-210 | Accepted exactly if open; drained batches followed by the pending list stay equal to the accepted writes |
| `LongPolling.LongPollingServerTransport.HandlePoll` | socket/transport/server_transport.go:224-242 | A poll of an open session takes everything pending; the batches drained so far are then the accepted writes, once and in order; a closed one is refused |
| `LongPolling.LongPollingServerTransport.HandleSend` | socket/transport/server_transport.go:244-270 | Which of the four answers is given, and that only a queued body is received |
| `LongPolling.LongPollingServerTransport.Read` | socket/transport/server_transport.go:193-198 | Messages are read in the order they were queued |
| `LongPolling.LongPollingServerTransport.IsExpired` | socket/transport/server_transport.go:272-281 | Expired if and only if closed or quiet for longer than the timeout |
| `LongPolling.LongPollingTransport.DeliverResponse` | socket/transport/longpolling.go:150-157 | Of a response the part that fits is queued in order and the rest dropped |

## Left out

- Literal mutexes of `Client.Connect`, `Join` and `Leave` (a second unlock; `Send` called with the lock held): the intended critical sections are modelled.
- Clocks, tickers, randomness and the network: readings, drawn values and success or failure of an operation are parameters, choices or steps.
- JSON: a message is opaque and either marshals or not; no payload round trip over long polling is claimed.
- Process functions are opaque: a message in flight is eventually handled or not, with no effect on the node.
- Channels of capacity 0: the hand-off of an unbuffered mailbox, send channel or incoming queue is not modelled.
- `PollLoops`: the context given to Connect is never cancelled from outside; a loop that is told to end while its timer fires may do either, as in the code.
- `Incarnations`: a waiting room event does not keep the node's read lock, so more steps interleave with it than in the code; every result holds for these as well.
- Go's `int` overflow of restart counters, process weights and indices; durations overflow only in `Backoff`.
- Concurrent loops and pumps are machines over values, so they say nothing about memory races or aliasing; the classes model the objects for one caller at a time.
- Frames of two batches do not interleave under the transport's lock; `Pipeline` allows it, so its theorems also cover transports without batching.
- `Incarnations` takes a restart's budget as an arbitrary choice and any list of targets; what budget and strategy allow is in `Supervision`.
- `Supervision` runs a check without interference from other callers of the node; interference is in `Incarnations`.
- `LoadBalancing.LoadBalancedProcessGroup.Choose`: ends with the choice of a target; delivery to the local node is `Processes.Node.Send`, to a remote node a stub.
- `Processes.Node.Deliver`: a room event that blocks on a full mailbox keeps the node's read lock; this is a visit that stops, not a deadlock of other callers.
- `ServerIndex.MembersAreRegistered`: connecting and registering is one step, and so is each removal with its Close.
- `Server.Shutdown`, the plain `Broadcast`, `BroadcastToRooms`, `Server.In` and look-ups: compositions of what is modelled.
- The supervisor's registration in the node's table and its `cancel`, which nothing else uses.
- HTTP routing, upgrades, compression, deadlines, handler tables, option setters and logging.
- Cluster discovery, heartbeats, gossip, `RemoteCall`, `ProcessStats`, `Monitor`: stubs without behaviour.
- The example programs, including the chat's bounded history.
