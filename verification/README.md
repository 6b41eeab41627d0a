# Playground servers: a verified model

Playground is a C++ framework for game servers: a gate that accepts clients and relays their
messages to agents, a timer manager, an asynchronous Redis client, a shared-memory centre that
lets a process find its data again after a restart, a threaded database agent and resource
tables. This project models these parts in Dafny and proves what they keep over whole runs.

Every component has a value model (its state, its transitions and the theorems about all runs)
and, where the source updates objects in place, a class whose methods are proved to make exactly
those transitions.

| file | component |
|---|---|
| `Values.dfy`, `Ids.dfy` | shared value types; the wrapping 32-bit id sequences |
| `Timers.dfy` | TimerMgr: two indexes, lazy cancellation, callbacks that re-enter |
| `FrameDecoder.dfy` | the length-prefixed stream decoder of gate and client |
| `Gate.dfy`, `GateTable.dfy`, `GateServer.dfy` | GateServerHandler: transitions, table invariant, the object |
| `GateSessions.dfy`, `GateReports.dfy`, `GateStreams.dfy`, `GateIdle.dfy` | over whole runs: what the agent is told of a session, whom its reports name and how it ends, how a client's bytes reach the agent, whether a connection has its idle timer |
| `AgentMail.dfy`, `ZoneSessions.dfy` | what agents send to the gate and which session it reaches; the zone agent's session table |
| `Handshake.dfy`, `GateClient.dfy` | clients, gate and agent together; GateClientHandler |
| `ChannelFraming.dfy` | the framing between gate and agent |
| `Redis.dfy`, `RedisTimeouts.dfy` | RedisAgent's callback pool; which commands its cursor times out |
| `SharedMemory.dfy`, `ShareMemoryCenter.dfy` | the shared block over restarts; the object that maps it |
| `Mysql.dfy`, `MysqlAgent.dfy`, `FieldText.dfy` | request and response queues between threads; the objects; integer columns as text |
| `ResTable.dfy`, `ResTableAgent.dfy` | resource tables, their keys, lookups and cache |

What callbacks and listeners do is a parameter: `script[k]` is what the k-th callback of a call
does to the object it is called from. Sockets, channels, the databases, protobuf, allocation and
the clock are parameters of the transitions or guards on the steps of a run.

Every lemma carries `{:induction false}`: its proof is its body.

Where the code does not do what it seems to be for, the model follows the code, and the theorem
says exactly when it does:

- The stream decoder forgets the bytes of an incomplete message (`FrameDecoder.DecodesExactlyWhen`).
- `EVENT_CLOSE` reports always carry slot index 0, since the socket is erased before its index is
  looked up (`GateSessions.RemoveLogs`).
- With `need_auth` set, no session is ever opened (`GateSessions.EverySessionKeepsTheProtocol`).
- An accept that brings the counter to the maximum indexes the slot vector with -1
  (`GateTable.AcceptIsDefinedExactlyWhen`).
- The comment at app/App.hpp:44-47 and the main loop take a positive result of closing for "not
  finished"; OnClosing returns 1 when it is finished (`GateTable.MainLoopLeavesUnfinished`).
- A message that gets its connection removed makes the handler return 0 when more bytes follow it
  (`GateStreams.KillingMessageEndsTheChunk`).
- A timer a callback adds for now can be left behind (`Timers.NothingIsLeftDueExactlyWhen`).
- A Redis command that is never answered times out only if the timeout cursor was not ahead of its
  id when it was issued (`RedisTimeouts.OverdueTimesOutExactlyWhen`). The cursor starts ahead, and
  every check moves it further ahead by its whole budget: the first four commands never time out,
  and an agent that is polled often enough, as the zone agent polls on every loop, times nothing
  out at all (`RedisTimeouts.PolledAgentNeverTimesOut`) until the cursor wraps at 2^32
  (`RedisTimeouts.WrappedCursorReachesThePassed`).
- A resource table loaded from two files keeps pointers to freed rows of the first
  (`ResTable.RowsAreAliveExactlyWhen`).
- A connection loses its idle timer for good at a firing less than a period after its last check
  (`GateIdle.TimerIsLostExactlyWhen`). The tick runs the timers before it sets the application's
  clock, so the tick times decide (`GateIdle.TicksDecide`); a run in which this happens is
  `GateIdle.TimerLapses`.
- An idle period of more than 2147483 seconds wraps as an int of milliseconds (`Gate.IdlePeriod`).
- A shared-memory module with a name of 32 characters or more makes Init fail
  (`SharedMemory.LongNameFailsExactlyWhen`).
- New shared-memory modules of size 0 alone are not added
  (`SharedMemory.EveryRegistrationIsPlacedExactlyWhen`, `SharedMemory.NewEmptyModuleIsNotPlaced`).
- A database response can carry the rows of an earlier SELECT (`Mysql.ResponseHolds`).
- The longest 64-bit integers lose their last digit (`FieldText.PrintThenParse`).
- A report larger than the channel allows is dropped, although the gate accepts the client's
  message (`ChannelFraming.ReportReachesTheAgentExactlyWhen`,
  `GateStreams.StreamReachesTheAgentExactlyWhen`).
- What an agent sends names a slot, not a session: if the session is over when it arrives, the
  session that has the slot by then gets the data or is closed (`AgentMail.LetterReachesExactlyWhen`,
  `AgentMail.LetterReachesTheNextSession`).
- Such data, or data from an agent that does not wait for `EVENT_CONNECTED`, comes ahead of the
  authorisation and can fail the client's assertion (`Handshake.HandshakeIsSafeExactlyWhen`,
  `Handshake.AssertionFailsExactlyWhen`, `Handshake.ReusedSlotFailsTheClient`).
- The zone agent removes a session when a CLOSE names its slot index; since every CLOSE carries 0,
  it never removes one (`ZoneSessions.SessionsAreNeverStopped`).

## Model

| member | source | states |
|---|---|---|
| `Ids.SkipUsed` | component/TimerMgr.cpp:116-119 | the id found is the first unused one at or after the counter, through the wrap at 2^32 |
| `Timers.ArmKeepsConsistent` | component/TimerMgr.cpp:106-126 | adding keeps both indexes in agreement and the expiry index in (time, age) order |
| `Timers.PassRefinesMap` | component/TimerMgr.cpp:69-105 | the walk over two indexes with stale entries and re-entrant callbacks fires the same timers in the same order, and leaves the same ones, as repeatedly taking the next due timer off one map |
| `Timers.RefPassFiresInOrder` | component/TimerMgr.cpp:69-105 | all that fires was due when the pass began, strictly by expiry and then age |
| `Timers.RefPassOutcome` | component/TimerMgr.cpp:69-105 | fate of every timer: due means fired or cancelled by an earlier callback, not due means untouched unless cancelled, nothing due remains |
| `Timers.ExpiredFiresExactlyTheDue` | component/TimerMgr.cpp:69-105 | for every script of positive delays: exactly the due timers not cancelled before their turn fire, once, in order, with their own event; nothing due is left in either index; the pass ends after at most as many callbacks as timers were pending |
| `Timers.NothingIsLeftDueExactlyWhen` | component/TimerMgr.cpp:69-105 | for every script of any delays: a due entry is left behind if and only if a callback adds one not after now while the iterator stands at a later entry or the end |
| `Timers.ZeroDelayIsLeftDue` | component/TimerMgr.cpp:69-105 | the smallest such case: a timer that re-arms itself for now |
| `Timers.PassAndGone` | component/TimerMgr.cpp:69-131 | for any delays, a pass never fires a timer that was cancelled or has fired, and fires none twice |
| `Timers.RunFiresAtMostOnce` | component/TimerMgr.cpp:69-131 | over every run of adds, cancels and passes: no timer fires twice, none fires after its cancel |
| `Timers.TimerMgr.constructor` | component/TimerMgr.cpp:9-15 | starts with both indexes empty |
| `Timers.TimerMgr.AddTimer` | component/TimerMgr.cpp:106-126 | the new timer gets the first free id, also after the wrap, and the place behind all entries not later than it |
| `Timers.TimerMgr.AddFresh` | component/TimerMgr.cpp:106-126 | while ids last, AddTimer is the Arm transition the run theorems use |
| `Timers.TimerMgr.CancelTimer` | component/TimerMgr.cpp:127-131 | only the event goes, the expiry index keeps the stale entry |
| `Timers.TimerMgr.Expired` | component/TimerMgr.cpp:69-105 | the loop with an iterator over the live index, under any re-entrant script, is the pass the theorems are about |
| `FrameDecoder.FeedFromClean` | gate/GateServerHandler.cpp:209-284 | the buffer stays clean, so the corrupt branch is dead; a message is a slice of the chunk whatever the buffer held; an incomplete one leaves only its length |
| `FrameDecoder.DrainIsTake` | gate/GateServerHandler.cpp:209-284 | the recursive, buffered decoder equals a decoder whose only state is the length it waits for |
| `FrameDecoder.TakeLosesOnly` | gate/GateServerHandler.cpp:209-284 | bytes are lost, never made up: what comes out is no more than what went in |
| `FrameDecoder.DecodesExactlyWhen` | gate/GateServerHandler.cpp:209-284 | for all payloads and all ways to cut their stream: delivered exactly, in order, if and only if no payload is empty and every cut is at a frame start or just behind a prefix |
| `FrameDecoder.MidPayloadCutLoses` | gate/GateServerHandler.cpp:248-281 | a two-byte payload cut in the middle is never delivered |
| `FrameDecoder.PrefixRoundTrip` | client/gate/GateClientHandler.cpp:40-51 | the 16-bit prefix read back is the length written |
| `FrameDecoder.LengthIsBigEndian` | gate/GateServerHandler.cpp:209-284 | the length stands first, in two bytes and network order, for the sender and for the receiver |
| `Gate.ByIdx` | gate/GateServerHandler.cpp:474-485 | an index found is a live slot above 0 |
| `Gate.ByFd` | gate/GateServerHandler.cpp:459-466 | a socket found leads to a live slot through the map |
| `Gate.FreeFrom` | gate/GateServerHandler.cpp:436-451 | the first slot that is not live, all before it being live |
| `Gate.NextIdx` | gate/GateServerHandler.cpp:436-451 | a slot handed out is free, above 0 and within the maximum |
| `Gate.Receive` | gate/GateServerHandler.cpp:209-284 | however many messages a chunk holds and whatever they do, every decoder of the table stays usable |
| `GateTable.InitialInv` | gate/GateServerHandler.cpp:111-134 | a new gate satisfies the table invariant |
| `Gate.IdlePeriod` | gate/GateServerHandler.cpp:203-206 | the timer's delay is the period in seconds times 1000, up to a multiple of 2^32, and exactly that if and only if it fits an int |
| `GateTable.RemoveShape` | gate/GateServerHandler.cpp:452-458 | removal touches one slot, and the erased socket comes back in the map as 0 |
| `GateTable.RemoveKeeps` | gate/GateServerHandler.cpp:452-458 | the invariant survives that stray 0 entry and the cancelled timer |
| `GateTable.AcceptKeeps` | gate/GateServerHandler.cpp:173-208 | every outcome of an accept, refused ones included, keeps the invariant |
| `GateTable.MessageKeeps` | gate/GateServerHandler.cpp:285-347 | every message in every state keeps the invariant |
| `GateTable.ReceiveKeeps` | gate/GateServerHandler.cpp:209-284 | so does every chunk |
| `GateTable.PeerCloseKeeps` | gate/GateServerHandler.cpp:349-361 | a close notification keeps the count of open sockets above the live slots |
| `GateTable.AgentCloseKeeps` | gate/GateAgentChannelMsgHandler.cpp:36-48 | a close from the agent, for any index, keeps the invariant |
| `GateTable.FireKeeps` | gate/GateServerHandler.cpp:143-171 | a timer firing keeps the invariant, timers of other slots included |
| `GateTable.SweepKeeps` | gate/GateServerHandler.cpp:412-434 | the sweep closes exactly the slots it passes |
| `GateTable.RunKeeps` | gate/GateServerHandler.cpp:143-485 | every run of the gate keeps the invariant |
| `GateTable.LookupInEveryRun` | gate/GateServerHandler.cpp:452-485 | in every run, looking a socket up finds slot i exactly when slot i is live with that socket, and the slot knows its index |
| `GateTable.TimerMeetsItsOwnConnection` | gate/GateServerHandler.cpp:143-208 | in every run, a timer that comes up meets the session it was armed for, no other timer is pending for its slot, and other slots are untouched |
| `GateTable.IdleTimerDecides` | gate/GateServerHandler.cpp:143-171 | a firing idle timer removes its connection if and only if it has been idle for longer than the period; kept, it has a new timer, due in the period's seconds times 1000 ms exactly when that fits an int, if and only if its last check lies a period back |
| `GateTable.AdmittedIsReachable` | gate/GateServerHandler.cpp:173-208 | an admitted connection is found by its socket in a slot that was free and is filled afresh but for its area, with its timer due in the period's seconds times 1000 ms exactly when that fits an int; no other slot changes |
| `GateTable.AcceptOutcomeExactlyWhen` | gate/GateServerHandler.cpp:173-208 | an accept for which there is a slot is admitted if and only if the gate is not closing, the slot has or gets a buffer and the auth request goes out; refused, it changes nothing but the counter and what the free slot holds |
| `GateTable.LiveNeverExceedsAlive` | gate/GateServerHandler.cpp:173-208 | live connections never outnumber the counter, refused accepts included |
| `GateTable.AcceptIsDefinedExactlyWhen` | gate/GateServerHandler.cpp:436-451 | in every run, an accept has no slot exactly when the incremented counter reaches the maximum; otherwise it gets the first free one |
| `GateTable.ShutdownSweep` | gate/GateServerHandler.cpp:412-434 | once closing, in every run and interleaving: the sweep stands at the sum of the budgets, all below it is empty and no slot comes to life |
| `GateTable.ShutdownEmptiesTheTable` | gate/GateServerHandler.cpp:412-434 | budgets that add up to the table leave no connection and start no session |
| `GateTable.MainLoopLeavesUnfinished` | app/App.hpp:152-178 | closing reports finished exactly when the table fits the budget; above the budget everything is still live when the loop leaves, and a finished sweep is repeated for ever |
| `GateSessions.TellLogs` | gate/GateServerHandler.cpp:486-525 | a report about a live slot carries its index |
| `GateSessions.RemoveLogs` | gate/GateServerHandler.cpp:452-458 | the CLOSE report of a removal carries index 0 |
| `GateSessions.EverySessionKeepsTheProtocol` | gate/GateServerHandler.cpp:285-347 | in every run, each session's reports are CONNECTED DATA* with the index of the slot that serves it, then at most one CLOSE, which it has had exactly when no slot serves it; opened sessions are routed to their area's channel under one user; with need_auth none opens |
| `GateSessions.ShutdownClosesEverySessionOnce` | gate/GateServerHandler.cpp:412-434 | in every run, each session live when closing begins has had no CLOSE before and has exactly one, as its last report, once the budgets have covered the table |
| `GateReports.RequestDecides` | gate/GateServerHandler.cpp:285-347 | on a slot that is not authorised, what is no request changes nothing and returns -1; a request for an area not configured ends the session with one CLOSE (3); any other gives the slot the request's user, area and channel, and is answered and reported with them, or only noted with need_auth |
| `GateReports.PendingIgnores` | gate/GateServerHandler.cpp:329-334 | while authentication is pending, a message leads to nothing but a note of activity |
| `GateReports.DataIsReported` | gate/GateServerHandler.cpp:526-545 | once authorised, a message is reported as it is under the session's user, area and channel; in test mode, and only then, the client is sent 1024 bytes |
| `GateReports.ReceiveDecides` | gate/GateServerHandler.cpp:209-284 | a chunk on such a slot is decided by the first request among the messages it completes, and the messages behind it are reported as data |
| `GateReports.ReceiveCounts` | gate/GateServerHandler.cpp:262-284 | the handler's result on such a slot counts the messages ahead of the first request |
| `GateReports.ReportsNameTheRequest` | gate/GateServerHandler.cpp:374-403 | in every run, every report of an opened session, its CLOSE included, names the user and area of the first request its own connection sent, and goes to that area's channel |
| `GateReports.EndIsReported` | gate/GateServerHandler.cpp:452-458 | whatever step ends a session adds exactly one report to it: a CLOSE about its own user and area, with reason 0 when idle, 1 by the client, 3 for a bad request, or as the agent or the shutdown says |
| `GateStreams.ReceiveForwards` | gate/GateServerHandler.cpp:526-545 | a chunk on an authorised connection gives one DATA report per message it completes, in order, and notes activity exactly when there is one |
| `GateStreams.StepAside` | gate/GateServerHandler.cpp:143-485 | no step of the gate but a chunk of its own changes the party, the decoder or the reports of a session that goes on |
| `GateStreams.NoReturn` | gate/GateServerHandler.cpp:173-208 | a slot that has stopped serving a session never serves it again |
| `GateStreams.RunReports` | gate/GateServerHandler.cpp:209-284 | in every run, mixed with any other steps, a session that goes on is reported as exactly the messages its own chunks decode to |
| `GateStreams.StreamIsReportedExactlyWhen` | gate/GateServerHandler.cpp:209-284 | in every such run a client's payloads are reported exactly if and only if none is empty and all cuts are aligned |
| `GateStreams.ArrivesExactlyWhen` | gate/GateServerHandler.cpp:513-524 | a report of any kind, with its payload if it has one, arrives unchanged if and only if the channel exists and it fits a message |
| `GateStreams.CarriedArrive` | gate/GateServerHandler.cpp:513-524 | what arrives of any list of reports is exactly the ones that are carried, whole and in order |
| `GateStreams.DroppedIsLost` | gate/GateServerHandler.cpp:513-524 | every report of a list is carried, or strictly less is, by number and by volume |
| `GateStreams.AgentHearsExactlyWhen` | gate/GateServerHandler.cpp:486-525 | in every run, the agent hears a session's whole protocol (CONNECTED, DATA, CLOSE) if and only if every report is carried; for an opened session, if and only if its area's channel exists and every report fits a message |
| `GateStreams.StreamReachesTheAgentExactlyWhen` | gate/GateServerHandler.cpp:486-545 | end to end, in every run mixed with any other steps: a client's payloads arrive at the agent exactly, in order and each with its report, if and only if none is empty, all cuts are aligned, the channel exists and each fits a message with its report |
| `GateStreams.LargestFrameNeverArrives` | app/ChannelMsgProxy.cpp:79-88 | a largest frame is decoded and reported, and never arrives |
| `GateStreams.KillingMessageEndsTheChunk` | gate/GateServerHandler.cpp:262-281 | what follows a message that removes its connection is not dispatched, and the call then returns 0 |
| `GateIdle.StepAndTimer` | gate/GateServerHandler.cpp:143-171 | a step that leaves a session going on leaves it its timer exactly when the timer does not lapse in it |
| `GateIdle.TimerIsLostExactlyWhen` | gate/GateServerHandler.cpp:143-171 | in every run in which a session goes on, it has its timer at the end if and only if it had it and no firing came less than a period after a check |
| `GateIdle.TicksDecide` | component/TimerMgr.cpp:24-43 | in every run in which timers fire before the application's clock is set, a timer armed at tick j lapses when it fires if and only if the tick before the firing is, in seconds, less than a period after the tick before j |
| `GateIdle.TimerLapses` | gate/GateServerHandler.cpp:143-171 | such a run with a period of 10 seconds, after which a live connection has no timer |
| `GateIdle.EvenTicksAreSteady` | component/TimerMgr.cpp:24-43 | ticks whose gaps never grow are steady |
| `GateIdle.EveryConnectionHasItsTimer` | gate/GateServerHandler.cpp:143-208 | in every run in tick order whose ticks are steady, every live connection has its own timer pending |
| `GateServer.GateServerHandler.constructor` | gate/GateServerHandler.cpp:111-134 | the object starts in the state all runs start from |
| `GateServer.GateServerHandler.GetConnectionByIdx` | gate/GateServerHandler.cpp:474-485 | agrees with the lookup the table theorems are about |
| `GateServer.GateServerHandler.GetConnectionByFD` | gate/GateServerHandler.cpp:459-466 | agrees with the lookup of LookupInEveryRun |
| `GateServer.GateServerHandler.GetNextIdx` | gate/GateServerHandler.cpp:436-451 | the loop finds the first free slot above 0 |
| `GateServer.GateServerHandler.ReportEvent` | gate/GateServerHandler.cpp:486-525 | the report sent is the one the session theorem logs |
| `GateServer.GateServerHandler.RemoveConnection` | gate/GateServerHandler.cpp:452-458 | on both objects, the Remove transition of the runs |
| `GateServer.GateServerHandler.OnNewConnection` | gate/GateServerHandler.cpp:173-208 | the accept transition of the runs, 0 exactly for admitted connections, None exactly where the source indexes its vector with -1 |
| `GateServer.GateServerHandler.OnClientMessage` | gate/GateServerHandler.cpp:285-347 | the message transition, with what is recorded as sent down to the client, and the result |
| `GateServer.GateServerHandler.OnClientDataRecv` | gate/GateServerHandler.cpp:209-284 | the recursive handler is the receive transition, its result included |
| `GateServer.GateServerHandler.OnConnectionClosed` | gate/GateServerHandler.cpp:349-361 | the close transition; -1 exactly for sockets without a connection |
| `GateServer.GateServerHandler.CloseSlot` | gate/GateAgentChannelMsgHandler.cpp:36-48 | a close from the agent for any index |
| `GateServer.GateServerHandler.SendToSlot` | gate/GateAgentChannelMsgHandler.cpp:36-61 | data from the agent is recorded as sent to the session of the live slot it names or to nobody, and counts as activity |
| `GateServer.GateServerHandler.OnClosing` | gate/GateServerHandler.cpp:412-434 | the loop is the sweep transition; 1 exactly when it is finished |
| `GateServer.GateServerHandler.CheckConnxFree` | gate/GateServerHandler.cpp:143-171 | the callback's effect on the gate and on the timer manager it re-enters |
| `GateServer.GateServerHandler.Expired` | component/TimerMgr.cpp:69-105 | the manager's walk with the gate's callback ends, is a run of single firings of the gate, keeps its invariant and leaves nothing due when the period is positive in milliseconds |
| `AgentMail.FrameGoesToTheSlot` | gate/GateAgentChannelMsgHandler.cpp:36-61 | a frame from the agent goes down to the session that has the slot and to no other, and changes nothing but its activity |
| `AgentMail.LetterReachesExactlyWhen` | gate/GateAgentChannelMsgHandler.cpp:36-61 | in every run, what the agent sent for a session reaches it if and only if the session still goes on; otherwise it reaches the later session that has taken the slot, or nobody; data goes to, and a close ends, the session reached and no other |
| `AgentMail.LetterReachesTheNextSession` | gate/GateAgentChannelMsgHandler.cpp:36-61 | a run in which data, or a close, for an ended session reaches the one that took its slot |
| `ZoneSessions.SessionsAreNeverStopped` | rgtd/zone/account/SessionMgr.cpp:26-80 | in every run of the gate, the zone's table holds every role ever connected, at the index of its latest CONNECTED: no CLOSE takes one out |
| `Handshake.HandshakeIsSafeExactlyWhen` | client/gate/GateClientHandler.cpp:80-119 | in every run with an agent that waits for CONNECTED: a client is sent NEED_AUTH, one AUTH_RSP, data in this order if and only if no frame reached its session ahead of the authorisation, and one that did was sent for an earlier session; in order, its assertion holds and it is authorised when it believes so, otherwise the assertion fails on the first such frame that reads as another control message |
| `Handshake.AssertionFailsExactlyWhen` | client/gate/GateClientHandler.cpp:80-119 | in every run with any agent, for every session's client: the assertion fails if and only if data that reads as another control message is taken ahead of any authorisation, and the client is authorised exactly when it has taken one |
| `Handshake.ReusedSlotFailsTheClient` | client/gate/GateClientHandler.cpp:80-119 | a run of an agent that waits, whose frame for an ended session fails the client that has the slot now |
| `Handshake.ImpoliteAgentFailsTheClient` | client/gate/GateClientHandler.cpp:80-119 | a run of an agent that does not wait, whose frame fails the client it is for |
| `GateClient.GateClientHandler.constructor` | client/gate/GateClientHandler.cpp:15-21 | a new client has an empty, large enough buffer |
| `GateClient.GateClientHandler.OnDisconnected` | client/gate/GateClientHandler.cpp:190-197 | a half-received message does not survive a reconnect |
| `GateClient.GateClientHandler.DispatchMessage` | client/gate/GateClientHandler.cpp:80-119 | the switch on state and command moves as the client of the handshake theorems does; a failure leaves the state |
| `GateClient.MessagesComeTo` | client/gate/GateClientHandler.cpp:80-119 | after any list of messages a client that waits is authorised if and only if a grant was among them, and has failed at the unusable ones ahead of it; an authorised client takes anything; one that is not connected fails at each |
| `GateClient.GateClientHandler.OnDataRecv` | client/gate/GateClientHandler.cpp:127-188 | the in-place buffer handler dispatches exactly the decoder's messages, moves through their states in order and returns the number that failed |
| `ChannelFraming.SplitUndoesEncode` | app/ChannelMsgProxy.cpp:77-110 | whatever the parts and head size: a message sent is split at that size if the parts are long enough, and refused otherwise |
| `ChannelFraming.ReportReachesTheAgentExactlyWhen` | rgtd/zone/ZoneAgentMgr.cpp:149-174 | a report and its data arrive unchanged if and only if together below 65534 bytes |
| `ChannelFraming.ChannelMsgProxy.SendToAgent` | app/ChannelMsgProxy.cpp:77-110 | the reused buffer leaks nothing of earlier messages into the one posted |
| `Redis.CallbacksAreConserved` | datacenter/RedisAgent.cpp:36-55 | in every run with late and unasked replies, timeouts and re-entrant commands: each callback completes at most once, and those issued are exactly those completed and those pending |
| `Redis.ListenerGetsItsOwnData` | datacenter/RedisAgent.cpp:24-55 | in every run the k-th completion hands back the data its own command was issued with |
| `RedisTimeouts.ScanIsFullScan` | datacenter/RedisAgent.cpp:172-214 | stopping at the first entry not overdue loses nothing: either loop completes exactly the overdue ids its budget covers, in order, whatever the listener issues |
| `RedisTimeouts.AheadDeliversNothing` | datacenter/RedisAgent.cpp:174-190 | a cursor ahead of the counter meets no entry and moves further ahead |
| `RedisTimeouts.CheckTimeOutIsFullScanExactlyWhen` | datacenter/RedisAgent.cpp:172-214 | with budget enough, the cursor scan equals a scan of the whole pool if and only if it has passed no overdue entry |
| `RedisTimeouts.WrappedCursorReachesThePassed` | datacenter/RedisAgent.cpp:174-190 | a budget that carries the cursor over 2^32 times out exactly the overdue ids it then covers, passed ones included |
| `RedisTimeouts.PendingIsPassedExactlyWhen` | datacenter/RedisAgent.cpp:172-214 | in every run from the constructor, a pending command is behind the cursor if and only if the cursor was ahead of its id when it was issued |
| `RedisTimeouts.OverdueTimesOutExactlyWhen` | datacenter/RedisAgent.cpp:172-214 | in every run, a check that reaches the id counter times out exactly the pending commands more than 5 seconds old that were issued in reach of the cursor |
| `RedisTimeouts.UnansweredTimesOutExactlyWhen` | datacenter/RedisAgent.cpp:172-214 | in every run, a command issued at time t and not answered has timed out after a check that reaches the id counter if and only if it was issued in reach of the cursor and the check is more than 5 seconds later; otherwise it is still pending |
| `RedisTimeouts.CursorNeverPassesPending` | datacenter/RedisAgent.cpp:172-214 | in every run, a cursor that has passed no pending entry never does |
| `RedisTimeouts.PassedNeverTimesOut` | datacenter/RedisAgent.cpp:172-214 | in every run, an id the cursor has passed, pending or yet to be issued, does not time out |
| `RedisTimeouts.FirstFourNeverTimeOut` | datacenter/RedisAgent.cpp:13-19 | from the constructor's cursor, ids 1 to 4 never time out |
| `RedisTimeouts.FifthIsInReach` | datacenter/RedisAgent.cpp:13-19 | before the first check, exactly the commands from the fifth on are in reach |
| `RedisTimeouts.FirstCheckPutsMoreOutOfReach` | datacenter/RedisAgent.cpp:174-190 | a check before the first command adds its whole budget of ids that never time out |
| `RedisTimeouts.BehindNothingTimesOut` | datacenter/RedisAgent.cpp:174-190 | a run whose counter is behind the cursor at every check times nothing out |
| `RedisTimeouts.PolledAgentNeverTimesOut` | datacenter/RedisAgent.cpp:163-190 | a condition on the schedule alone, commands no more than the lead that the budgets build up, under which no command ever times out |
| `Redis.RedisAgent.constructor` | datacenter/RedisAgent.cpp:13-19 | the object starts where the runs start |
| `Redis.RedisAgent.Command` | datacenter/RedisAgent.cpp:263-288 | the id is the first one not in the pool, also after the wrap; a refused command leaves the pool |
| `Redis.RedisAgent.OnCommand` | datacenter/RedisAgent.cpp:36-55 | the reply transition, with any commands from inside the listener |
| `Redis.RedisAgent.CheckTimeOut` | datacenter/RedisAgent.cpp:172-214 | both loops, with the listener re-entering, are the scan of the theorems |
| `SharedMemory.CreateLaysOut` | datacenter/ShareMemoryCenter.cpp:35-118 | the first Init lays out all registrations in order, filling the block exactly with zeroed segments, each announced as new |
| `SharedMemory.RestartRecovers` | datacenter/ShareMemoryCenter.cpp:35-98 | a restart that keeps the old registrations succeeds, moves and changes no old module, adds the missing ones behind them in zeroed space and announces each rightly |
| `SharedMemory.EveryRegistrationIsPlacedExactlyWhen` | datacenter/ShareMemoryCenter.cpp:60-98 | every registration has its module if and only if none was missing or the total has grown |
| `SharedMemory.NewEmptyModuleIsNotPlaced` | datacenter/ShareMemoryCenter.cpp:60-98 | a restart that adds one module of size 0 leaves the directory without it |
| `SharedMemory.RestartOutcome` | datacenter/ShareMemoryCenter.cpp:74-98 | on any block: the assertion fails if and only if the magic is right, the sizes differ, and the block is larger than what is registered or has as many modules; otherwise Init succeeds if and only if the magic is right and every entry is registered |
| `SharedMemory.LongNameFailsExactlyWhen` | datacenter/ShareMemoryCenter.cpp:182-209 | a module's name is found again if and only if it is shorter than 32 characters |
| `SharedMemory.FullDirectoryStays` | datacenter/ShareMemoryCenter.cpp:194-198 | a directory of 256 modules takes no more |
| `SharedMemory.DirAndMissing` | datacenter/ShareMemoryCenter.cpp:107-118 | by size and by number, directory and missing registrations make up the registrations |
| `SharedMemory.AppendGrows` | datacenter/ShareMemoryCenter.cpp:107-118 | appending adds exactly the missing registrations and leaves the rest of the block |
| `SharedMemory.AttachAllIs` | datacenter/ShareMemoryCenter.cpp:123-144 | every notifier is called once, in order, with its own segment and whether it is new |
| `SharedMemory.SegmentsAreApart` | datacenter/ShareMemoryCenter.cpp:182-209 | segments lie behind the header, inside the block and apart |
| `SharedMemory.ModulesSurvive` | datacenter/ShareMemoryCenter.cpp:35-98 | over every sequence of restarts and writes, a module keeps its place and holds what its owner wrote last |
| `ShareMemoryCenter.Mapping.FindModule` | datacenter/ShareMemoryCenter.cpp:159-169 | finds a name exactly when the directory has it |
| `ShareMemoryCenter.Mapping.Zero` | datacenter/ShareMemoryCenter.cpp:182-209 | clears its range of the mapped bytes and no other |
| `ShareMemoryCenter.Center.Register` | datacenter/ShareMemoryCenter.cpp:18-29 | names stay distinct and the total stays the sum of the sizes; a repeated name changes nothing |
| `ShareMemoryCenter.Center.FindRegistration` | datacenter/ShareMemoryCenter.cpp:210-220 | the first registration of the name |
| `ShareMemoryCenter.Center.AddNamed` | datacenter/ShareMemoryCenter.cpp:182-209 | in place, the addition AppendGrows is about; a failure leaves the block |
| `ShareMemoryCenter.Center.AppendRegModules` | datacenter/ShareMemoryCenter.cpp:107-118 | in place, the append of the restart theorems |
| `ShareMemoryCenter.Center.AttachAllModules` | datacenter/ShareMemoryCenter.cpp:123-144 | in place, the attach of the restart theorems and the notifiers' calls |
| `ShareMemoryCenter.Center.InitRegModules` | datacenter/ShareMemoryCenter.cpp:99-106 | whatever the memory held, it is filled as an empty block is |
| `ShareMemoryCenter.Center.Init` | datacenter/ShareMemoryCenter.cpp:35-98 | creating and restarting end as CreateLaysOut and RestartRecovers describe, the error and the failed assertion included |
| `Mysql.QueuesServeInOrder` | db/MysqlAgent.cpp:22-179 | in every interleaving: delivered, queued and pending responses are what one sequential thread gives for the accepted requests, in order; the queue keeps its bound and is never popped empty |
| `Mysql.NothingTakenIsLost` | db/MysqlAgent.cpp:103-164 | a worker that has left has answered all it took; the rest is still queued |
| `Mysql.StoppedWorkerExits` | db/MysqlAgent.cpp:73-130 | in every interleaving, a worker told to stop takes at most five more steps, dispatches at most one more request, and always has a next step until it has left |
| `Mysql.ResponseHolds` | db/MysqlProxy.cpp:105-224 | the k-th response answers the k-th request; its rows are its own exactly when its SELECT reached a result set, and else those of the latest one that did |
| `Mysql.ResultCodes` | db/MysqlProxy.cpp:105-301 | for each operation, every result code of the k-th response stands if and only if what it says became of the k-th request: OK, no row, no table, no statement, failed, duplicate key, no result set |
| `Mysql.DeliveredSaysWhatHappened` | db/MysqlAgent.cpp:22-179 | in every interleaving, the k-th response the listener gets answers the k-th accepted request and its code says what became of it |
| `Mysql.InsertCarriesSelectedRow` | db/MysqlProxy.cpp:105-150 | the response to an INSERT carries the row of the SELECT before it |
| `Mysql.FieldHoldsLastKnownColumn` | db/MysqlProxy.cpp:195-224 | a field has its column's name and the value of the last column the meta knows |
| `MysqlAgent.MysqlProxy.SelectInto` | db/MysqlProxy.cpp:160-224 | the column loop over the reused field gives the rows of the theorems, and touches only the data |
| `MysqlAgent.MysqlProxy.DispatchReq` | db/MysqlProxy.cpp:105-150 | the response in place is the one of the sequential thread, stale data included |
| `MysqlAgent.Agent.PutRequest` | db/MysqlAgent.cpp:22-34 | refused exactly at the bound, and else last in the queue |
| `MysqlAgent.Agent.GetRequest` | db/MysqlAgent.cpp:80-93 | the oldest request, or none exactly when the queue is empty |
| `MysqlAgent.Agent.PutResponse` | db/MysqlAgent.cpp:95-102 | last in the response queue |
| `MysqlAgent.Agent.Polling` | db/MysqlAgent.cpp:165-179 | the oldest responses in order, up to the budget; what is left of the budget is returned |
| `FieldText.DigitsLength` | db/MysqlMeta.cpp:233-253 | a number has more than k digits exactly from 10^k on |
| `FieldText.SignedOfDecimal` | db/MysqlMeta.cpp:329-358 | parsing printed digits gives the number back |
| `FieldText.PrintThenParse` | db/MysqlMeta.cpp:233-358 | for every integer type and value: the round trip is exact for 32 bits, for BIGINT exactly above -10^18, for BIGINT UNSIGNED exactly below 10^19, and loses just the last digit outside |
| `FieldText.ParseOfDecimal` | db/MysqlMeta.cpp:329-358 | the text of any number, of any length: read as itself in the column's range, as the 64-bit bound beyond it, and in an unsigned column modulo 2^64 when negative |
| `FieldText.ParseOfPadded` | db/MysqlMeta.cpp:344-347 | of a padded number the first 63 characters are read |
| `ResTable.KeysAreLexicographic` | datacenter/ResTableAgent.cpp:8-30 | the key of one column is the column, that of two packs them; keys of rows of one type compare, and are equal, as their columns are |
| `ResTable.LoadRowsExactlyWhen` | datacenter/ResTableAgent.cpp:99-115 | rows load if and only if no key repeats, and the table gains exactly them |
| `ResTable.ReloadExactlyWhen` | datacenter/ResTableAgent.cpp:37-119 | ReLoad succeeds if and only if all files are good and no table gets a key twice; then each table points to exactly its files' rows in key order and the count is right |
| `ResTable.ReloadByColumnsExactlyWhen` | datacenter/ResTableAgent.cpp:37-119 | for rows with the columns of their table's type, ReLoad succeeds if and only if all files are good and no table gets the same key columns twice |
| `ResTable.RowsAreAliveExactlyWhen` | datacenter/ResTableAgent.cpp:88-115 | after any reload, failed ones included, every row a table points to still exists if and only if no file of the table with rows was followed by another file of it |
| `ResTable.SecondFileFreesTheFirst` | datacenter/ResTableAgent.cpp:88-115 | two one-row files of one table load, and the first one's row is freed while the table points to it |
| `ResTable.GetAllIsNeverStale` | datacenter/ResTableAgent.cpp:124-200 | after any queries and reloads, failed ones included, the cached list is the table as it is, in key order, the three lookups agree with a scan of it, and its rows all exist if and only if the last reload replaced none of the table's files with rows |
| `ResTable.LookupsFindByColumns` | datacenter/ResTableAgent.cpp:124-168 | after any queries and reloads of such rows: the list is sorted by key columns, Find returns the row with the probe's columns or says there is none, LowerBound and UpperBound the first row not before them and the first behind them |
| `ResTableAgent.Tables.LoadTable` | datacenter/ResTableAgent.cpp:99-115 | the insertion loop in place loads as LoadRowsExactlyWhen describes |
| `ResTableAgent.Tables.ReLoad` | datacenter/ResTableAgent.cpp:37-119 | the reload of the theorems with the messages it keeps and frees; a directory that cannot be listed changes nothing |
| `ResTableAgent.Tables.GetAllRows` | datacenter/ResTableAgent.cpp:178-200 | the list from cache or table, and the cache after it |

## Left out

- Sockets, ZeroMQ, hiredis, the MySQL client, protobuf, System V shared memory and file reading: they are parameters (parsers, outcomes of sends, replies, rows, files), as are log lines, statistics counters and the session token.
- The run theorems of Timers, GateTable and Redis hold as long as fewer than 2^32 ids have been handed out; `Ids.SkipUsed`, `Timers.TimerMgr.AddTimer` and `Redis.RedisAgent.Command` cover the wrap for a single call.
- The run theorems of RedisTimeouts hold until the timeout cursor wraps; `RedisTimeouts.WrappedCursorReachesThePassed` covers the check in which it does.
- Timers.TimerMgr.AddTimer: expiry times are integers, the wrap of the 64-bit millisecond sum is not modelled.
- TimerMgr's signal handler and its table of listeners by event: the tick sets the time between calls, and every timer has its callback.
- The clock is read once per handler call; times are integers and do not wrap.
- GateServer.GateServerHandler.Expired: with a negative period, requires that no connection would be armed again, which takes a clock that has gone back behind its last activity; the source's loop need not end then.
- Sends from the gate are taken to succeed except the request to authorise, whose failure is modelled; a message posted to a channel that exists is taken to arrive.
- The database agent has one worker, as the shipped zone agent configures it; with several, the emptiness test outside the lock gives no guarantee, and lost wake-ups are not modelled.
- MysqlAgent.MysqlProxy.DispatchReq: an unknown operation fails an assertion in the source and is excluded.
- SharedMemory.AttachAllIs: a notifier that refuses its segment, which makes Init fail, is not modelled.
- SharedMemory.RestartRecovers: what a restart that resizes an old module does to the segments is not stated; `SharedMemory.RestartOutcome` says when it succeeds. Names are at most 31 characters.
- FieldText.PrintThenParse: integer columns only; text, float and time columns are not modelled, nor are the SQL statements around them.
- FieldText.SignedOfDecimal: the parser skips no white space and takes no plus sign, which printed numbers never have.
- ResTable.ReloadExactlyWhen: rows have at most two key columns, as the source asserts; lists that callers keep over a reload are not modelled.
- ZoneSessions.SessionsAreNeverStopped: every report is taken to reach the zone on its channel; `GateStreams.AgentHearsExactlyWhen` says when one does.
- Connecting to Redis, configuration, lock files, the message-queue and TCP channels, what the zone agent does with a session besides entering and removing it, role ids and the example servers: not modelled.
