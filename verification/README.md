# Verified model of the chat server

The server is a reactor: one base loop accepts connections, keeps the registry and the sessions and serves
requests; io loops own the sockets; keyed executors do the slow work and post their completions back to the base
loop; MySQL and Redis stand behind them. What has to hold spans several functions and several threads, so most of
this project is protocols: a value for the whole state, the atomic steps the threads take, an invariant that every
step keeps, and theorems about every state of every run. Where the program works on one object in place, there is a
class whose methods have the program's branches and loops and are proved against the functions of the protocol.

`dafny verify dfyconfig.toml` checks everything.

## What is modelled

**Connections and sessions** (`ConnectionSteps`, `Connections`, `ConnectionEnds`, `Sessions`, `Groups`, `GroupTargets`). A connection is
named by its raw fd, which the kernel hands out again. A request leaves the base loop with a weak pointer, the key and
the account, and comes back at any later moment. It resolves exactly while its own connection is still registered and
open and the session there has the same account. Queued tasks are unordered sets, which covers every schedule of the
loops and also running a task inline. Removing a connection is one step: `onDisconnect` reads the fd
(src/im/ImService.cpp:71) before the destroy task queued earlier in the same function (src/TcpServer.cpp:310)
overwrites it (src/TcpConnection.cpp:307). Without that ordering the property fails: `RacedRemovalLeavesSession` says
exactly when, `RemovalMeetsSession` that this comes about in a run, and `NextOwnerInheritsSession` what it leads to.
Who is logged in where is compared with a reference that reads it off the history of requests alone.

**Executors and graceful stop** (`ThreadSafeQueues`, `ThreadPools`, `KeyedExecutors`, `KeyedStops`, `EventLoops`,
`ServerStops`, `StopRequests`).
Submit, worker, stop and join interleave freely. That a keyed executor's stop call has returned means that the work is
done exactly for the caller whose exchange found `accepting_` true; any other caller returns at once, whatever still
waits. The server's stop waits its turn in the base loop's queue or, as when the signal callback asks for it
(server/server.cpp:43, src/infra/signal/SignalHandler.cpp:61-70), runs inline ahead of everything queued. What is
safe is proved of every run; that something comes about is proved as a run from every reachable state, in which
nothing new is asked for.

**Timers** (`Timers`, `Repeaters`, `TimerServices`, `TimerQueues`). Callbacks add and cancel re-entrantly, other threads hand additions and
cancellations over. A callback is any finite series of additions and cancellations. A repeater's next callback is
counted from the moment its last one started, as the pass read the clock (src/timer/Timer.cpp:17).

**Frames, buffers and back-pressure** (`Frames`, `Buffers`, `TcpConnections`, `TcpSenders`, `BackPressure`,
`BackPressureDrains`, `BatchSends`). The length test of the parser is 32-bit arithmetic, so the parser is independent of how the stream is
cut exactly for limits below 2^32 - 4; src/config/NetConfig.cpp:61 allows at most 10 MB. The bound of three times the
hard limit is met by an actual interleaving; while a frame sits in the buffer and its reservation is not yet
released, the two counters count it twice. A reservation whose swap failed tries again without looking at the
connection again, so it can succeed after a close.

**Message numbers and read state** (`Snowflake`, `ConversationKeys`, `DirectMessages`, `GroupMessages`). Ids are drawn
on the base loop from one generator and each conversation is one queue of the message executor, so commit order is id
order within a conversation. A transaction happens whole or leaves no trace. Account ids are not blank and hold no
`#`, and nobody is their own friend (src/storage/sql/SqlFriendRepo.cpp:19); a message to oneself would break the
unread count, and `SendKeepsRows` says so in both directions.

**Rate limiter** (`RateLimits`, `RateLimitStores`). The Lua script is a function on a counter and a block that expire.
The wait it reports is enough exactly for rules whose block, if any, is no shorter than their window. A fixed window
lets 2 x maxRequests - 1 hits into an interval of its length, and that bound is met exactly when it is one or the window
is longer than a millisecond.

**SQL connections** (`StatementCaches`, `CachePolicies`, `SqlConnections`, `SqlPools`). The recency list and the map
that points into it refine a plain list ordered by last use, which holds exactly the names used last. The pool stays sound exactly when a restart waits for the guards of the
previous start; `RestartIsReached` is a run in which it does not.

Where a comment and the code disagree the code is followed: `removeGroup` removes a group with members, although
include/im/GroupManager.h says it does so only without; `dropped()` in include/net/SendTypes.h also counts failures,
although its comment lists three counters.

## Model

| member | source | states |
|---|---|---|
| `Connections.ResolvesOnlyForItsConnection` | src/im/ImService.cpp:1619-1629 | in every reachable state, under any reuse of fds, a context ever issued resolves iff its own connection is the one registered under its key, still open, and the session there carries its account; that session was made by that very connection and a non-blank account is bound to it |
| `Connections.SessionsAreRegistered` | src/TcpServer.cpp:303-318 | in every reachable state, sessions and bindings exist only under registered fds |
| `Connections.NewConnectionStartsClean` | src/TcpServer.cpp:250-301 | a connection that is added overwrites no registered one and finds no session and no binding under its fd |
| `Connections.RegistryHoldsOpenSockets` | src/TcpConnection.cpp:296-310 | whatever is registered under an fd is a live connection whose socket is open and is that fd |
| `Connections.NoSocketIsForgotten` | src/TcpConnection.cpp:143-158 | in every reachable state an open fd on its way to nobody belongs to exactly one connection, and that one has the task or the owner that will take it to its close |
| `Connections.AcceptedIsServed` | src/TcpServer.cpp:264-299 | from every reachable state of a server that is not stopping, the steps queued for an accepted socket lead to a registered connection whose messages are served |
| `Connections.ClosedIsGone` | src/TcpServer.cpp:303-318 | from every reachable state, the steps queued for a connection that closes take it out of the registry, close its socket and remove its session, and touch no other |
| `Connections.IssuedResolvesAtOnce` | src/im/ImService.cpp:1619-1629 | a request resolves at the moment it is issued |
| `Connections.StoppingTakesNothingIn` | src/TcpServer.cpp:250-301 | once stopping, in every run, no socket, connection, registration or request is added |
| `Connections.RacedRemovalLeavesSession` | src/im/ImService.cpp:70-74 | in every reachable state: if the destroy task overtakes `onDisconnect`, sessions stay within the registry iff there was no session under the fd |
| `Connections.RemovalMeetsSession` | src/TcpServer.cpp:303-318 | from every reachable state of a server that is not stopping, for every socket and user, a run leads to a state in which that removal is queued and there is a session |
| `Connections.NextOwnerInheritsSession` | src/im/ImService.cpp:70-74 | after such an overtaken removal the next connection that is given the fd is served under the session of the one before |
| `ConnectionEnds.ConnectionEnds` | src/TcpConnection.cpp:143-158 | a connection of a stopping server, wherever its tasks are queued, comes to its end by its own steps, and no other connection is touched |
| `ConnectionEnds.StopEmptiesTheServer` | src/TcpServer.cpp:340-379 | a stop takes effect at once and changes nothing else; from every reachable state the steps after it lead to a server without connections, open sockets, sessions or bindings |
| `ConnectionEnds.EverythingHasAnOwner` | src/TcpServer.cpp:250-338 | registered fds, open sockets, sessions and bindings all belong to connections that are alive |
| `ConnectionSteps.StepKeepsInv` | src/TcpServer.cpp:250-338 | every step of accept, create, add, establish, serve, issue, close, remove, destroy, drop, stop and shutdown keeps the invariant on fds, tasks, registry, sessions and issued requests |
| `Sessions.BindKeepsConsistent` | src/im/SessionManager.cpp:26-34 | binding keeps the three maps in agreement iff the key is free or already bound to the same account |
| `Sessions.EraseKeepsConsistent` | src/im/SessionManager.cpp:76-81 | erasing a session alone keeps the agreement iff the key is not bound |
| `Sessions.DisconnectKeepsConsistent` | src/im/ImService.cpp:70-74 | a disconnect keeps the agreement and leaves neither session nor binding |
| `Sessions.HandledKeepsConsistent` | src/im/ImService.cpp:36-56 | whatever request a session gets, the handlers' guards keep the agreement |
| `Sessions.RunsAreConsistent` | src/im/SessionManager.cpp:26-86 | in every state of every run of requests and disconnects: key in the account's set iff bound to the account iff the session is authenticated as it, and no empty set remains |
| `Sessions.OnlineIsWhatHappened` | src/im/ImService.cpp:36-74 | after any series of requests and disconnects, in all three maps, a key is the account's that a reference reads off the history (the first login counts until a logout or disconnect), and nobody's otherwise |
| `Sessions.LoginLogsIn` | src/im/ImService.cpp:1132-1219 | a session that is not authenticated becomes exactly the vouched user's in all three maps; without a verdict, or with somebody logged in, only the session is created; other keys stay |
| `Sessions.LogoutLogsOut` | src/im/ImService.cpp:1221-1255 | a revoked logout of an authenticated session leaves nobody under the key and a blank connected session; any other changes nothing beyond creating the session; other keys stay |
| `Sessions.LoginAfterLogout` | src/im/ImService.cpp:1132-1255 | whoever was there before, a login after a logout makes the key exactly the new user's |
| `Sessions.DisconnectLeavesNobody` | src/im/ImService.cpp:70-74 | a disconnect leaves nobody and no session under the key, and other keys as they were |
| `Sessions.SessionIsCreatedOnce` | src/im/SessionManager.cpp:3-11 | the first message finds a fresh session, every later one the session as it was left |
| `Sessions.SessionManager.GetOrCreate` | src/im/SessionManager.cpp:3-11 | the new table and the session returned |
| `Sessions.SessionManager.BindUser` | src/im/SessionManager.cpp:26-34 | the whole new table |
| `Sessions.SessionManager.UnbindConn` | src/im/SessionManager.cpp:35-45 | the whole new table, with the account gone when its last key goes |
| `Sessions.SessionManager.ConnKeysByAccountId` | src/im/SessionManager.cpp:46-54 | exactly the account's keys, each once |
| `Sessions.SessionManager.HandleLogin` | src/im/ImService.cpp:1132-1219 | an authenticated session is never bound again and without a verdict nothing changes; otherwise the key is exactly the user's whom the auth service vouches for, and other keys stay |
| `Sessions.SessionManager.HandleLogout` | src/im/ImService.cpp:1221-1255 | unless it is revoked and the session authenticated nothing changes; then nobody is left under the key in any of the three maps, its session is connected and blank, and other keys stay |
| `Sessions.SessionManager.OnMessage` | src/im/ImService.cpp:36-46 | the session is got or created, then the request's handler decides the new table; the three maps stay in agreement |
| `Sessions.SessionManager.OnDisconnect` | src/im/ImService.cpp:70-74 | unbound, then erased: nobody and no session under the key, other keys stay |
| `GroupTargets.CollectGroupTargets` | src/im/ImService.cpp:1905-1921 | no key twice, and exactly the keys bound to a current member, without the excluded one |
| `GroupTargets.TargetsAreRegistered` | src/TcpServer.cpp:472-478 | in every reachable state the keys collected for a group message are registered, so the batch counts no missing connection |
| `Groups.GroupOperationsKeepOneOwner` | src/im/Group.cpp:11-86 | adding, removing, role changes and transfer keep exactly one Owner, who is the group's owner |
| `Groups.BuildMembers` | src/im/GroupManager.cpp:111-138 | for arbitrary records, refusal iff a record with an account has an unknown role or claims Owner for someone else; otherwise the members are the owner and the records' accounts, each with its first record's role |
| `Groups.GroupManager.CreateGroup` | src/im/GroupManager.cpp:3-17 | when it succeeds, the new group map, and the index still mirrors it |
| `Groups.GroupManager.JoinGroup` | src/im/GroupManager.cpp:18-31 | which of three answers, the new group map with exactly one plain member more, and the index still mirrors it |
| `Groups.GroupManager.LeaveGroup` | src/im/GroupManager.cpp:32-49 | which of three answers (an owner cannot leave), the new group map with exactly that member less, and the index still mirrors it |
| `Groups.GroupManager.RemoveMemberOf` | src/im/GroupManager.cpp:51-69 | when it succeeds, the new group map with exactly that member less, and the index still mirrors it |
| `Groups.GroupManager.RemoveGroup` | src/im/GroupManager.cpp:70-88 | the group is gone and no account lists it |
| `Groups.GroupManager.RestoreGroup` | src/im/GroupManager.cpp:107-162 | on any records: when it succeeds, who is in the group and as what; a refusal changes nothing; the index mirrors the groups and each has one Owner |
| `Groups.GroupManager.SetMemberRole` | src/im/GroupManager.cpp:195-204 | when it succeeds, the new group map with exactly that role changed; the index is untouched |
| `Groups.GroupManager.Transfer` | src/im/GroupManager.cpp:217-225 | when it succeeds, both role changes and the new owner |
| `Groups.GroupManager.GroupsOfUser` | src/im/GroupManager.cpp:89-97 | exactly the groups whose member map contains the account, each once |
| `Groups.GroupManager.MemberAccounts` | src/im/GroupManager.cpp:205-216 | exactly the members, each once |
| `Groups.GroupManager.CanManage` | src/im/GroupManager.cpp:180-194 | an owner can manage every member; anyone else only a plain member |
| `ThreadSafeQueues.ThreadSafeQueue.Push` | include/infra/thread/ThreadSafeQueue.h:54-69 | refused as closed iff it is closed, as full iff open with a capacity reached, otherwise the item is last |
| `ThreadSafeQueues.ThreadSafeQueue.WaitPop` | include/infra/thread/ThreadSafeQueue.h:72-81 | the first item, which leaves the queue, or none only when the queue is closed and empty |
| `ThreadSafeQueues.ThreadSafeQueue.CloseQueue` | include/infra/thread/ThreadSafeQueue.h:95-110 | closed once; Discard empties, Drain keeps |
| `ThreadPools.AcceptedTasksAreAccountedFor` | src/infra/thread/ThreadPool.cpp:29-71 | under any race, the queue stays within capacity, tasks begin in acceptance order, every accepted task is waiting, running, finished or discarded, and the counters add up |
| `ThreadPools.StoppedPoolHasServed` | src/infra/thread/ThreadPool.cpp:72-112 | when stop has returned: with Drain every accepted task ran exactly once, with Discard accepted = completed + failed + discarded |
| `ThreadPools.StopIsNeverStuck` | src/infra/thread/ThreadPool.cpp:72-112 | in every reachable stopping state the stopping call or a worker has a step to take |
| `ThreadPools.StopRunsOut` | src/infra/thread/ThreadPool.cpp:93-105 | once the queue is closed each of those steps leaves less to do and no submit call adds any, so the stop ends |
| `ThreadPools.SubmitIsAnswered` | src/infra/thread/ThreadPool.cpp:29-50 | a submit call of a running pool is accepted iff the queue is open and has room, and the task then waits last; otherwise it is counted under its reason |
| `ThreadPools.AcceptedTasksAreServed` | src/infra/thread/ThreadPool.cpp:52-70 | from every reachable state the workers alone get to one in which every accepted task has run exactly once, but for those discarded |
| `ThreadPools.StopComesToItsEnd` | src/infra/thread/ThreadPool.cpp:72-112 | a stop of a running pool takes effect at once; from every reachable stopping state a run leads to its return, with everything accepted run or discarded and, with Drain, all of it run |
| `KeyedExecutors.SameKeyRunsInOrder` | src/infra/thread/KeyedSerialExecutor.cpp:15-28 | tasks of one key are in one shard, and a later one begins only after the earlier one has ended |
| `KeyedExecutors.OneKeyIsOneQueue` | src/infra/thread/KeyedSerialExecutor.cpp:15-28 | seen through one key, the accepted tasks are those that began, then those that wait, then those dropped, in acceptance order |
| `KeyedExecutors.StopServesEveryShard` | src/infra/thread/KeyedSerialExecutor.cpp:37-44 | when the winning stop is through its shards, every one of them has served as its mode says |
| `KeyedExecutors.KeyedStopIsNeverStuck` | src/infra/thread/KeyedSerialExecutor.cpp:37-44 | in every reachable state with a stop under way, the winning call takes over its next shard, that shard has a step to take, or the call moves on |
| `KeyedExecutors.LosingStopReturnsEarly` | src/infra/thread/KeyedSerialExecutor.cpp:37-40 | for every number of shards, capacity, task and pair of modes there is a run in which a second stop call has returned and the accepted task has not begun |
| `KeyedExecutors.ReturnsIsRecorded` | src/infra/thread/KeyedSerialExecutor.cpp:37-44 | the history holds exactly the returns: of a call that found it true after its last shard, of any other at once |
| `KeyedExecutors.ReturnMeansServedExactly` | src/infra/thread/KeyedSerialExecutor.cpp:37-44 | that a stop call has returned guarantees, in every run, that every shard has served iff its exchange found `accepting_` true |
| `KeyedStops.SubmitReachesItsShard` | src/infra/thread/KeyedSerialExecutor.cpp:15-28 | in every reachable accepting state a task goes to the shard its key hashes to and no other, last in its queue, or is refused there as full |
| `KeyedStops.WinningStopComesToItsEnd` | src/infra/thread/KeyedSerialExecutor.cpp:37-44 | from every reachable state with a stop under way, a run takes it through every shard, each of which has then served as the mode says |
| `KeyedStops.FirstStopWins` | src/infra/thread/KeyedSerialExecutor.cpp:37-40 | the first stop call shuts the executor and sets the mode; a later one changes neither |
| `EventLoops.TasksRunInOrder` | include/EventLoop.h:95-104 | what ran is a prefix of what was queued, the rest waits in order, for every interleaving |
| `EventLoops.QueuedTaskRuns` | src/EventLoop.cpp:182-198 | a task queued at any moment of any run is reached by the loop thread after exactly those queued before it |
| `EventLoops.EveryTaskRuns` | src/EventLoop.cpp:182-198 | from every state a run of the loop thread alone ends with everything queued so far run, in order |
| `EventLoops.EventLoop.RunInLoop` | include/EventLoop.h:85-93 | at once on the loop thread, queued otherwise |
| `EventLoops.EventLoop.DoPendingFunctors` | src/EventLoop.cpp:182-198 | one pass runs exactly what was queued when it began, in order; what it queues waits |
| `EventLoops.SpawnedInOrder` | src/EventLoop.cpp:182-198 | what a pass queues behind itself is what each task queued, task by task |
| `ServerStops.FinalizeComesLast` | src/TcpServer.cpp:396-453 | in every run, whether the stop was queued or ran inline: when `finalizeStop` takes effect no connection is registered, every executor is joined, and the jobs the message and read executors ever accepted are exactly those whose completion has run and those that threw before posting one |
| `ServerStops.StopIsFinal` | src/TcpServer.cpp:353-453 | it takes effect at most once, and once the chain is through no connection is ever registered again |
| `ServerStops.StopIsNotForgotten` | src/TcpServer.cpp:396-426 | once stopping without connections, an executor is being joined, the finalization is queued, or it has taken effect, once (that the request itself takes effect is in StopRequests) |
| `ServerStops.StopIsNeverStuck` | src/TcpServer.cpp:353-453 | in every reachable state of a server that is stopping and has not stopped, the base loop, a worker, a join or an io loop has a step to take |
| `ServerStops.WorkFalls` | src/TcpServer.cpp:353-453 | each of those steps leaves less to do, a task run inline adds nothing, and a task posted adds one |
| `ServerStops.StopComesToItsEnd` | src/TcpServer.cpp:353-453 | from every reachable stopping state, however busy the executors and whatever is queued, a run of such steps is no longer than the work left and can go on until the server has stopped, finalized once and without connections |
| `ServerStops.StepKeepsInv` | src/TcpServer.cpp:340-453 | every step of the base loop, queued or inline, of the workers, the io loops and the join keeps the invariant of the stop chain |
| `StopRequests.InlineStopTakesEffect` | src/TcpServer.cpp:340-379 | in every reachable state with the base thread free a stop takes effect at once: the server is stopping, every connection is asked to close or its removal queued, and if none is left the chain has begun |
| `StopRequests.QueuedStopIsKept` | src/TcpServer.cpp:340-349 | in every run a posted stop waits in the queue until the server is stopping |
| `StopRequests.QueuedStopTakesEffect` | src/TcpServer.cpp:340-379 | when the base loop has run its queue past it, a stop waiting at any place has taken effect in the same sense |
| `StopRequests.QueuedStopEnds` | src/TcpServer.cpp:353-453 | from every reachable state in which a stop is queued or has begun, a run in which nothing new is asked for ends stopped, finalized once and without connections |
| `StopRequests.InlineStopEnds` | src/TcpServer.cpp:353-453 | the same for a stop that runs inline |
| `StopRequests.RunningServerServes` | src/TcpServer.cpp:335-338 | until a stop an added connection is registered beside the others, and a configured executor takes every new job |
| `StopRequests.StoppingAcceptsNothing` | src/TcpServer.cpp:353-375 | no step of a stopping server adds a job or ends the stopping |
| `StopRequests.OnlyRedisDiscards` | src/TcpServer.cpp:396-426 | in every reachable state the message and read executors have discarded nothing; the redis executor has nothing waiting once its stop has begun |
| `StopRequests.SubmittedIsAccountedFor` | src/TcpServer.cpp:396-453 | in every run that stops the server, a job submitted in any reachable state has completed, or thrown, or, in the redis executor only, been discarded |
| `StopRequests.ReturnedJobCompletes` | src/TcpServer.cpp:396-453 | a job that a worker ends without an exception has its completion run before any run stops the server |
| `Timers.CancelledNeverStartsAgain` | src/timer/TimerQueue.cpp:90-126 | once a cancellation has run, that timer's callback never starts again, wherever the timer was |
| `Timers.RunningTimerIsOwned` | src/timer/TimerQueue.cpp:156-230 | a timer is owned while its callback runs, and a cancellation is parked only for an addition still in the inbox |
| `Timers.EntriesMirrorOwnedTimers` | src/timer/TimerQueue.cpp:55-75 | outside a pass the ordered entries are exactly the owned timers' (expiration, sequence) pairs, and unless the timerfd has fired it is armed iff there is an entry, for the earliest one or a millisecond after it was set, whichever is later |
| `Timers.OneShotsRunExactlyOnce` | src/timer/TimerQueue.cpp:156-230 | an uncancelled one-shot has started exactly once and not early, or it is still waiting at a known place |
| `Repeaters.StartsFollowThePeriod` | src/timer/Timer.cpp:15-20 | in every reachable state: a timer's first callback was due at the time asked for, and of two callbacks in a row the second was due one interval after the first started |
| `Repeaters.RepeaterIsWaiting` | src/timer/TimerQueue.cpp:156-230 | an uncancelled repeater is always in the inbox or owned, and entered under the time asked for or one interval after its last start, or was started in the present pass |
| `Repeaters.ServedRepeaterIsEntered` | src/timer/TimerQueue.cpp:192-217 | at the end of the pass that started it, an uncancelled repeater is entered for one interval after the pass's clock reading |
| `TimerServices.TimerGetsItsCallback` | src/timer/TimerQueue.cpp:128-230 | from every reachable state, a one-shot that has not started and any repeater, unless cancelled, gets its next callback by steps of the loop and the kernel alone |
| `TimerServices.AddTakesEffect` | src/timer/TimerQueue.cpp:36-75 | an addition, from the loop or outside, is issued under a new number with exactly what was asked for |
| `TimerServices.CancelTakesEffect` | src/timer/TimerQueue.cpp:76-126 | a cancellation in the loop has run; one from outside waits in the inbox until its task runs it |
| `TimerServices.CancellationIsKept` | src/timer/TimerQueue.cpp:76-88 | in every run, a cancellation that was handed over waits until it has run |
| `Timers.PassServesDueTimersInOrder` | src/timer/TimerQueue.cpp:156-200 | a pass starts or finds cancelled every timer it took, in (expiration, sequence) order |
| `Timers.PassTakesExactlyTheDue` | src/timer/TimerQueue.cpp:232-238 | a pass takes the entries due at its clock reading and leaves the others |
| `Timers.StepKeepsInv` | src/timer/TimerQueue.cpp:36-230 | every step keeps the set, the map, the four auxiliary sets and the alarm consistent |
| `Timers.StepKeepsHistory` | src/timer/TimerQueue.cpp:36-230 | every step keeps the clauses about all callbacks ever started and all cancellations ever run |
| `TimerQueues.TimerQueue.AddTimerInLoop` | src/timer/TimerQueue.cpp:55-75 | the whole new state, also for a timer cancelled while it waited |
| `TimerQueues.TimerQueue.AddTimerFromOutside` | src/timer/TimerQueue.cpp:36-54 | a fresh id, announced and handed over to the loop |
| `TimerQueues.TimerQueue.CancelTimerFromOutside` | src/timer/TimerQueue.cpp:76-88 | the cancellation of a known id is handed over to the loop, any other id is ignored |
| `TimerQueues.TimerQueue.RunAddTask` | src/timer/TimerQueue.cpp:44-52 | an addition that was handed over is the protocol's step |
| `TimerQueues.TimerQueue.RunCancelTask` | src/timer/TimerQueue.cpp:82-87 | a cancellation that was handed over is the protocol's step |
| `TimerQueues.TimerQueue.TimerfdFires` | src/timer/TimerQueue.cpp:240-259 | an armed timerfd whose time has come fires, which is the protocol's step |
| `Timers.ResetProgramsItsDelay` | src/timer/TimerQueue.cpp:240-259 | the timerfd is programmed for the expiration, or a millisecond from now when that is later |
| `TimerQueues.TimerQueue.CancelTimerInLoop` | src/timer/TimerQueue.cpp:90-126 | the whole new state |
| `TimerQueues.TimerQueue.GetExpired` | src/timer/TimerQueue.cpp:232-238 | exactly the due entries are cut off the front |
| `TimerQueues.TimerQueue.CleanUpExpired` | src/timer/TimerQueue.cpp:192-217 | of the pass's timers exactly the repeaters that nothing has cancelled stay owned, entered for one interval after the pass's clock reading; every other timer and entry is as it was |
| `TimerQueues.TimerQueue.HandleRead` | src/timer/TimerQueue.cpp:128-230 | a pass with re-entrant callbacks is a run of the protocol that begins with its first step and ends outside a pass |
| `Frames.CreateFrame` | src/net/OutboundFrame.cpp:5-23 | a frame iff there is a payload within the limit and 32 bits, and then its header reads back as the payload's length |
| `Frames.HeaderRoundTrip` | src/Buffer.cpp:117-133 | reading a length that was written gives it back |
| `Frames.ParseIsIncremental` | src/TcpConnection.cpp:43-72 | parsing what is left over together with new bytes continues parsing all of them |
| `Frames.ChunkIndependence` | src/TcpConnection.cpp:39-91 | delivered frames and closing are independent of how the stream is cut iff the limit is below 2^32 - 4 |
| `Frames.ParseEncoded` | src/TcpConnection.cpp:43-72 | parsing concatenated encodings gives exactly those payloads, nothing left, not closed: a payload is reported as PING or PONG iff it is that text, and otherwise delivered unchanged |
| `Frames.OversizeCloses` | src/TcpConnection.cpp:57-60 | a header above the limit closes the connection after exactly the payloads before it |
| `Frames.ParseLosesNothing` | src/TcpConnection.cpp:43-72 | for every byte stream and every limit below 2^32 - 4: the payloads of the events, encoded again, then what is left over, are the stream; each event is what its payload stands for; the connection is closed iff a header above the limit is next, and otherwise no complete frame is left |
| `Frames.LengthsAreBigEndian` | src/Buffer.cpp:117-132 | lengths are written and read most significant byte first |
| `Frames.ControlFramesAreNamed` | src/TcpConnection.cpp:329-338 | the two control payloads are the texts PING and PONG |
| `Buffers.Buffer.EnsureWritable` | src/Buffer.cpp:49-63 | room for the bytes, and the readable bytes unchanged, by moving or by growing |
| `Buffers.Buffer.Append` | src/Buffer.cpp:65-69 | the contents grow by exactly the bytes |
| `Buffers.Buffer.Retrieve` | src/Buffer.cpp:25-31 | the contents lose exactly that prefix, or all |
| `Buffers.Buffer.RetrieveAsString` | src/Buffer.cpp:41-47 | the prefix returned and the rest kept |
| `Buffers.Buffer.PeekLength` | src/Buffer.cpp:117-124 | the big-endian number at the front |
| `Buffers.Buffer.AppendUInt32` | src/Buffer.cpp:130-133 | the contents grow by the big-endian bytes |
| `Buffers.Buffer.ReadFd` | src/Buffer.cpp:78-102 | whatever is received, split over the array and the extra block, is appended |
| `TcpConnections.TakeFrame` | src/TcpConnection.cpp:47-71 | one turn of the parsing loop takes what one scan finds, and nothing else |
| `TcpConnections.HandleRead` | src/TcpConnection.cpp:39-91 | for any series of reads, events and closing are those of parsing, once, everything received; the payloads of the events encoded again, then what stays in the buffer, are what was received |
| `TcpSenders.TcpConnection.SendInLoop` | src/TcpConnection.cpp:243-279 | when a message is accepted, and the flow exactly in both cases: overload mark, connection, and the count of a refusal for the limit; sent then buffered stays the encoding of what was accepted, which is the message cut to its 32-bit length: the whole of it iff it is shorter than 2^32; the buffer stays within the hard limit unless header and payload overflow 32 bits |
| `TcpSenders.TcpConnection.Admit` | src/TcpConnection.cpp:244-263 | when a message is taken, and that a refusal for the limit is counted |
| `TcpSenders.TakesExactly` | src/TcpConnection.cpp:244-263 | where neither length wraps, a message is accepted iff connected and within the frame limit and the hard limit |
| `TcpSenders.TcpConnection.BytesSent` | src/TcpConnection.cpp:95-110 | the bytes leave the front of the buffer for the stream; the overload mark and the count of refusals are cleared iff the rest is below the low mark |
| `TcpSenders.RefusalsClose` | src/TcpConnection.cpp:443-450 | over any series of refusals, flushes and other changes every refusal is counted, and the connection is to be closed iff at some point the maximum of refusals came together without a recovery between them |
| `TcpSenders.TcpConnection.SendReservedFrameInLoop` | src/TcpConnection.cpp:404-433 | appended unless closed, the stream stays whole, the overload mark is set iff too much is pending, and the reservation is released either way |
| `TcpSenders.TcpConnection.HandleWrite` | src/TcpConnection.cpp:94-141 | under any partial sends the bytes that leave are the next of the stream, as many as the socket took |
| `TcpSenders.PeerSeesPrefix` | src/TcpConnection.cpp:94-141 | a peer that parses what was sent so far sees a prefix of the accepted messages, each unchanged, and no reason to close |
| `BackPressure.OutstandingIsBounded` | src/TcpConnection.cpp:384-441 | with every atomic access a step, and a retry after a failed swap that does not look at the connection again, outstanding bytes never exceed three times the limit, and how the two counters relate to them |
| `BackPressure.ThreeTimesIsReached` | src/TcpConnection.cpp:384-403 | for every positive limit a run reaches that bound |
| `BackPressure.ReservationsBalance` | src/TcpConnection.cpp:404-441 | the counter is the sum of the reserved and unreleased frames, within the limit, and no release underflows |
| `BackPressure.CallsStayWithinTwice` | src/TcpConnection.cpp:243-279 | with each function one step, twice the limit is never exceeded |
| `BackPressure.TwiceIsReached` | src/TcpConnection.cpp:243-279 | and a run reaches it |
| `BackPressureDrains.EverythingDrains` | src/TcpConnection.cpp:384-441 | from every reachable state, with the threads anywhere inside their functions, a run leads to one with nothing buffered or reserved and both counters zero |
| `BackPressureDrains.ClosedTakesNothing` | src/TcpConnection.cpp:404-441 | in every run a close is final, and nothing enters the buffer after it |
| `BackPressureDrains.CallsTakeEffect` | src/TcpConnection.cpp:243-279 | what each undisturbed call does to the buffer, the queue of reservations and the two counters |
| `BatchSends.TcpServer.SendBatchToConnKeys` | src/TcpServer.cpp:457-517 | the counts add up to the keys; an impossible frame fails all and changes nothing; each reservation has exactly one send, on its connection's loop |
| `BatchSends.AddCountsOne` | include/net/SendTypes.h:20-64 | every result is counted once, and a single one is reported back |
| `BatchSends.ReserveIsTheCall` | src/TcpConnection.cpp:384-403 | reserving undisturbed is the back-pressure protocol's own call: possible for the same frames, with the same effect |
| `Snowflake.SnowflakeIdGenerator.NextId` | src/id/SnowflakeIdGenerator.cpp:17-54 | each id comes from a later timestamp and sequence; exactly when the clock is refused; waits end past the last timestamp |
| `Snowflake.SnowflakeIdGenerator.Create` | src/id/SnowflakeIdGenerator.cpp:5-11 | refused iff the node or the epoch is out of range |
| `Snowflake.IdsIncrease` | src/id/SnowflakeIdGenerator.cpp:17-54 | over any clock readings, a later id is greater iff its time is greater in 42 bits; always while the offset fits |
| `Snowflake.NodesNeverCollide` | include/id/SnowflakeGenerator.h:20-23 | generators with different nodes never give the same id |
| `Snowflake.WrapRepeatsIds` | src/id/SnowflakeIdGenerator.cpp:51-53 | past 42 bits the same id comes back |
| `Snowflake.FieldsJoin` | src/id/SnowflakeIdGenerator.cpp:51-53 | in 64-bit arithmetic the three fields do not overlap, so joining is adding |
| `ConversationKeys.KeyIsSymmetric` | include/common/ConversationKey.h:4-14 | the order of the accounts does not matter, and the key is blank iff one of them is |
| `ConversationKeys.SameKeyExactly` | include/common/ConversationKey.h:4-14 | two pairs share a key iff they are the same pair or overlap around a separator |
| `ConversationKeys.KeyNamesThePair` | include/common/ConversationKey.h:4-14 | without separators in the accounts the key names the pair |
| `ConversationKeys.SeparatorConfusesPairs` | include/common/ConversationKey.h:8-13 | two different pairs with one key |
| `DirectMessages.UnreadCountIsTrue` | src/storage/sql/SqlDirectMessageWriteStore.cpp:80-155 | in every state of every run of sends, reads and failures, unread_count is the number of messages to the owner above their cursor |
| `DirectMessages.CursorNeverGoesBack` | src/storage/sql/SqlConversationReadWriteStore.cpp:87-189 | last_read_msg_id never decreases |
| `DirectMessages.TableIsWhatCommitted` | src/im/ImService.cpp:1999-2038 | in every state of every run, what was submitted to a conversation is what was finished followed by what waits, in order, and the table holds exactly what committed |
| `DirectMessages.SendKeepsRows` | src/storage/sql/SqlDirectMessageWriteStore.cpp:62-155 | a commit keeps every count true iff sender and receiver differ |
| `DirectMessages.SendDelivers` | src/storage/sql/SqlDirectMessageWriteStore.cpp:62-155 | the message is the last of the table; the sender has nothing unread and a cursor at it, the receiver one more unread and the cursor they had; no other row changes |
| `DirectMessages.SubmittedIsCommitted` | src/im/ImService.cpp:1999-2038 | a submitted command waits behind those before it, and when the worker is through them it is the last message of the table |
| `DirectMessages.ReadTakesEffect` | src/storage/sql/SqlConversationReadWriteStore.cpp:52-189 | in every state of every run a possible read moves cursor and count to exactly where the message says and touches no other row, message or queue |
| `DirectMessages.ReadKeepsRows` | src/storage/sql/SqlConversationReadWriteStore.cpp:52-189 | a read moves the cursor to the message or leaves it if beyond, sets the count to the messages to the owner above it, changes nothing else, and keeps every count true |
| `DirectMessages.DirectMessageStore.CommitMessage` | src/storage/sql/SqlDirectMessageWriteStore.cpp:16-181 | all of the transaction or nothing, whichever statement fails, and what each status means; the argument is refused iff id, sender or receiver is missing |
| `DirectMessages.DirectMessageStore.CommitRead` | src/storage/sql/SqlConversationReadWriteStore.cpp:52-189 | all of the read or nothing: the cursor returned and stored is the larger of the old one and the message, the count is of what lies above it, the receipts are what was taken off, and no other row changes; exactly when it succeeds or the argument is refused |
| `GroupMessages.NumbersAreContiguous` | src/storage/sql/SqlGroupMessageWriteStore.cpp:25-106 | in every state of every run the numbers of a live group are exactly 1 to last_seq, each once, and increase with the ids |
| `GroupMessages.CursorsAreTrue` | src/storage/sql/SqlConversationReadWriteStore.cpp:191-275 | a cursor never passes the head and names the message with its number; the listed count is the true one |
| `GroupMessages.CursorNeverGoesBack` | src/storage/sql/SqlConversationReadWriteStore.cpp:231-262 | a member's cursor is monotone, also across leaving and joining again |
| `GroupMessages.ListedUnreadIsTrue` | src/storage/sql/SqlConversationRepo.cpp:223-250 | the list query's subtraction is the number of messages above what was read and joined, iff that number fits 32 bits |
| `GroupMessages.SendKeepsDb` | src/storage/sql/SqlGroupMessageWriteStore.cpp:25-106 | a commit keeps numbering, heads and cursors |
| `GroupMessages.SendDelivers` | src/storage/sql/SqlGroupMessageWriteStore.cpp:25-106 | the message is numbered one above those its group has and the head names it; its sender has nothing unread, every other member one more, and no other cursor changes |
| `GroupMessages.SubmittedIsCommitted` | src/im/ImService.cpp:1829-1867 | a submitted command waits behind those before it, and when the worker is through them it is the group's last message if the group lives and its sender is a member |
| `GroupMessages.StepsTakeEffect` | src/storage/sql/SqlGroupRepo.cpp:335-400 | in every state of every run reading, creating, joining, removing and dissolving have their effect on exactly the cursors and heads they are about, and touch no message, queue or id |
| `GroupMessages.ReadMovesCursor` | src/storage/sql/SqlConversationReadWriteStore.cpp:191-275 | a read moves the cursor to the message or leaves it if beyond, and nothing else |
| `GroupMessages.NewGroupIsEmpty` | src/storage/sql/SqlGroupRepo.cpp:335-400 | a new group has no message, its owner can send, and that message is number 1; other groups stay |
| `GroupMessages.NewMemberHasNothingUnread` | src/storage/sql/SqlGroupJoinRequestRepo.cpp:310-333 | what was said before joining is not unread, the cursor names the last message, and no other cursor, head or message changes |
| `GroupMessages.LeavingShutsOut` | src/storage/sql/SqlGroupRepo.cpp:207-231 | whoever left can neither send nor read, nobody can in a dissolved group, and the messages, the other cursors and the other groups stay |
| `GroupMessages.JoinKeepsDb` | src/storage/sql/SqlGroupJoinRequestRepo.cpp:310-333 | a member who joins starts at the head |
| `GroupMessages.DissolveKeepsDb` | src/storage/sql/SqlGroupRepo.cpp:551-566 | dissolving removes head and cursors and keeps the messages in order |
| `GroupMessages.GroupMessageStore.CommitMessage` | src/storage/sql/SqlGroupMessageWriteStore.cpp:15-110 | the next number of the group, or no trace, and exactly when it succeeds or the argument is refused |
| `GroupMessages.GroupMessageStore.CommitRead` | src/storage/sql/SqlConversationReadWriteStore.cpp:191-275 | all of the read or nothing: only the reader's cursor moves, to the larger of the old number and the message's; what each status means |
| `RateLimits.AtMostTwiceLessOne` | src/security/rate_limit/RedisRateLimitStore.cpp:67-102 | every half-open interval of the window's length holds at most 2 x maxRequests - 1 admitted hits |
| `RateLimits.BoundIsMetExactly` | src/security/rate_limit/RedisRateLimitStore.cpp:80-88 | for every rule, a run admits that many iff the maximum is one or the window is longer than a millisecond |
| `RateLimits.RefusedOnlyWhenFull` | src/security/rate_limit/RedisRateLimitStore.cpp:80-90 | without a block, a hit is refused only when its window has admitted exactly the maximum |
| `RateLimits.CountIsTrue` | src/security/rate_limit/RedisRateLimitStore.cpp:75-90 | in every run the count an admitted hit reports is the number of hits its window has admitted, itself included |
| `RateLimits.WaitIsEnoughExactly` | src/security/rate_limit/RedisRateLimitStore.cpp:75-102 | after every run a hit at or after the reported time is admitted iff the rule has no block or one no shorter than its window |
| `RateLimits.RefusedUntil` | src/security/rate_limit/RedisRateLimitStore.cpp:75-102 | before the reported time every hit is refused and reports the same moment |
| `RateLimits.TheFiveRulesKeepIt` | src/security/rate_limit/RateLimiter.cpp:7-11 | the five rules keep that promise |
| `RateLimitStores.RedisRateLimitStore.EvalHit` | src/security/rate_limit/RedisRateLimitStore.cpp:67-102 | the script is one hit on the meter of its two keys: when it admits, what the counter then holds and until when, what a refusal reports and leaves; no other key is touched |
| `RateLimitStores.RedisRateLimitStore.HitKey` | src/security/rate_limit/RedisRateLimitStore.cpp:11-66 | the guards, the degraded answers, and otherwise: allowed iff there is no live block and the live counter is below the maximum, what remains, and a positive wait to the end of the block |
| `RateLimitStores.RedisRateLimitStore.Reset` | src/security/rate_limit/RedisRateLimitStore.cpp:22-31 | the caller starts afresh and nothing else changes |
| `RateLimitStores.KeysAreSeparate` | src/security/rate_limit/RedisRateLimitStore.cpp:32-43 | with colon-free rule names, keys coincide iff caller and rule name do |
| `RateLimitStores.CallersAreIsolated` | src/security/rate_limit/RedisRateLimitStore.cpp:32-66 | a hit or reset of one caller leaves every other caller's meter alone |
| `StatementCaches.RequestKeepsList` | src/storage/sql/PreparedStatementCache.cpp:12-58 | every request keeps the list free of duplicates, within capacity, ordered by last use and on this session; what it returns is prepared from exactly the requested text on this session |
| `StatementCaches.VictimIsLeastRecent` | src/storage/sql/PreparedStatementCache.cpp:67-74 | only a full cache evicts, exactly one item, the one used longest ago |
| `CachePolicies.CacheIsMostRecent` | src/storage/sql/PreparedStatementCache.cpp:12-74 | after any series of requests the cache holds exactly the names used last, as many as it has room for, in the order of their last use, each with the text it was last asked for with |
| `CachePolicies.HitIsReturned` | src/storage/sql/PreparedStatementCache.cpp:12-29 | a cached statement with the requested text is returned and nothing leaves the cache |
| `CachePolicies.FailureCosts` | src/storage/sql/PreparedStatementCache.cpp:30-58 | a request that cannot be prepared returns none and adds nothing; exactly which entry it costs |
| `StatementCaches.PreparedStatementCache.GetOrPrepare` | src/storage/sql/PreparedStatementCache.cpp:12-58 | list and map with node pointers refine one request on the recency list; a blank name is refused |
| `StatementCaches.PreparedStatementCache.Touch` | src/storage/sql/PreparedStatementCache.cpp:64-66 | the entry's own node moves to the front |
| `StatementCaches.PreparedStatementCache.EvictOne` | src/storage/sql/PreparedStatementCache.cpp:67-74 | the last item goes from list and map |
| `SqlConnections.SqlConnection.RunPrepared` | src/storage/sql/SqlConnection.cpp:154-206 | the statement that runs was prepared from exactly this text on the current session, and the cache stays within capacity |
| `SqlConnections.SqlConnection.Reconnect` | src/storage/sql/SqlConnection.cpp:302-315 | no statement survives into the next session |
| `SqlConnections.SqlConnection.BeginTransaction` | src/storage/sql/SqlConnection.cpp:208-226 | a transaction begins only outside one and on an unbroken connection; otherwise the flag is unchanged |
| `SqlConnections.SqlConnection.Commit` | src/storage/sql/SqlConnection.cpp:227-244 | success ends the transaction, a failure of the driver leaves the connection broken |
| `SqlConnections.SqlConnection.ResetSessionStateSafe` | src/storage/sql/SqlConnection.cpp:316-340 | a connection reported reusable and unbroken is outside any transaction |
| `SqlPools.ConnectionsAddUp` | src/storage/sql/SqlConnectionPool.cpp:68-155 | in every run whose restarts wait for the guards, total = idle + out + lost, and no more are lost than replacements failed or releases were cut short |
| `SqlPools.HandedOutOnce` | src/storage/sql/SqlConnectionPool.cpp:97-112 | no connection has two guards or is idle while out, and what is idle is unbroken and outside a transaction |
| `SqlPools.ReleaseRefills` | src/storage/sql/SqlConnectionPool.cpp:68-155 | a guard that gives up its connection refills the running pool: with the connection itself iff the driver could reset it, else with a new one in the same slot if that connects, else one fewer is ready and that is counted |
| `SqlPools.ReusableIsClean` | src/storage/sql/SqlConnection.cpp:316-340 | whatever was done with it, a connection may be put back iff it was unbroken and the driver could end what it was in, and then it is outside any transaction |
| `SqlPools.ResetLeaves` | src/storage/sql/SqlConnection.cpp:316-340 | what every driver outcome leaves of the flags: out of its transaction, broken and disconnected, broken, or untouched |
| `SqlPools.StartKeepsInv` | src/storage/sql/SqlConnectionPool.cpp:10-33 | starting keeps the pool sound iff nothing from an earlier start is still out |
| `SqlPools.RestartWithGuardOut` | src/storage/sql/SqlConnectionPool.cpp:74-82 | otherwise a guard from before puts back a connection that is in no slot |
| `SqlPools.RestartIsReached` | src/storage/sql/SqlConnectionPool.cpp:10-95 | for any connections of the two starts, a run from the beginning gets there: the connection put back is connected and in no slot, so no later stop closes it |
| `SqlPools.MoveKeepsInv` | src/storage/sql/SqlConnectionGuard.cpp:23-39 | moving a guard moves the one ownership, and no other guard's |
| `SqlPools.SqlConnectionPool.StartPool` | src/storage/sql/SqlConnectionPool.cpp:10-33 | all connections or none: new ones in slots and queue in order, and every connection from before as it was |
| `SqlPools.SqlConnectionPool.StopPool` | src/storage/sql/SqlConnectionPool.cpp:34-45 | the whole new state: every connection is closed, held ones included, slots and queue are emptied, and guards keep what they hold |
| `SqlPools.SqlConnectionPool.AcquireFor` | src/storage/sql/SqlConnectionPool.cpp:97-112 | when there is a connection, it is the first idle one and moves to the guard |
| `SqlPools.SqlConnectionPool.ResetHeld` | src/storage/sql/SqlConnectionPool.cpp:68-76 | the guard gives up its connection, reset or lost to a foreign exception |
| `SqlPools.SqlConnectionPool.ReturnConn` | src/storage/sql/SqlConnectionPool.cpp:125-155 | back into the queue, replaced in its own slot, or counted as failed |

## Left out

- TcpServer, TcpConnection life cycle and the stop chain: modelled as state machines on values, not as objects updated in place; the aliasing of connection objects is the identity of an entry in a map.
- Executors inside `ServerStops`: their stop is one step that waits until nothing waits and nothing runs, which `ThreadPools` proves of the executor itself.
- BackPressure: atomics are sequentially consistent; relaxed C++ ordering is not modelled.
- TimerQueues.TimerQueue: its fields are one record that each method reassigns; timerfd_settime is taken to succeed, and failing to arm is not modelled.
- Groups: a Group is a value inside the manager's map, changed by functions; its name and creation time are left out.
- Sessions: peer address, joined groups and the pending auth operation of a session are left out; auth, login and token login are one handler with what the auth service answered.
- TcpConnections.HandleRead: assumes a frame limit below 2^32 - 4, which the configuration guarantees; the PONG that answers a PING is a separate call of SendInLoop; the debug assertion in retrieveAsString is not modelled.
- TcpSenders.TcpConnection.SendInLoop: the drop counters are unbounded, not 32-bit.
- TcpSenders.TcpConnection.HandleClose: heartbeats and the channel's registration with epoll are left out.
- BatchSends.TcpServer.SendBatchToConnKeys: tryReserveFrame runs without interference here; its interleaving is the subject of BackPressure. A batch for a missing loop, which would be released again, does not occur.
- Snowflake.SnowflakeIdGenerator.NextId: sleeping is running through a series of clock readings; a call still asleep at their end returns a value of its own. The timestamp is not bounded to 64 bits.
- DirectMessages: contents, previews, times and pending deliveries are left out, and receipts are only counted; unread_count is not bounded to 32 bits; a COMMIT that fails is taken to leave no trace; a pool without a connection to give is left out.
- GroupMessages: contents, previews and times are left out; creating, joining, leaving and dissolving are functions on the tables.
- Accounts and group ids are compared exactly; the case-insensitive collation of the tables is not modelled.
- RateLimits: Redis keys are never evicted before they expire, and its clock does not go back.
- StatementCaches.PreparedStatementCache.constructor: takes a positive capacity; the exception for zero is not modelled.
- SqlPools: `healthy()` pings idle connections without taking them and can leave one broken; the server calls it only at start-up, and it is not a step here. Waiting on the condition variable is a step that is enabled or times out.
- Client, configuration parsing, logging, health reports, JSON coding, password and token hashing, epoll and socket calls, and the remaining request handlers: they would only add field checks and wiring.
