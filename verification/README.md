# Verification model of the task manager

The system is a distributed task manager. Schedulers claim tasks from a PostgreSQL
queue, workers run them, the parts talk in length-prefixed messages over asio sockets,
a C library gives other languages access, and a web server chains tasks into pipelines
and starts them by the clock. This project models its small engines and proves what
they keep over every run.

`dafny verify dfyconfig.toml` verifies the whole project.

## What is modelled, and how

**Two-lock queue** (`core/common/queue.h`). `ConcurrentQueue` is a transition system
for any number of threads in which every lock, every unlock and every shared read or
write is a step of its own (`PushNext`, `PopNext`, `FrontNext`, `EmptyNext`, `SizeNext`);
a new node may get any address not in use, freed ones included. `QueueSpec` is the
atomic FIFO. `QueueSimulation` relates the two step by step, `QueueAccesses` lists the places
each step reads and writes, and `QueueTheorems` draws the conclusions. `LinkedQueue` is the same queue as a class over linked nodes, each method
proved against the same `QueueSpec.Apply`. A failed pop takes effect where it reads
`tail_`, although it is only found to have failed later, against a stale snapshot.

**Task claims** (`scripts/create_core_tables.py`). `TaskClaim` runs any number of calls of
`funcNewTasksForSchedr` at once: snapshot, lock or skip, recheck, claim, commit and abort
are separate steps. What it takes PostgreSQL to do at READ COMMITTED is listed at its head:
a statement sees what was committed when it began; `FOR UPDATE OF tq SKIP LOCKED` passes over
rows locked by others and rechecks the newest committed `tq` row only; updates show at
commit and locks last to the end of the transaction. `SetState` stands for every other writer
of `tblTaskState`, which may set any state at any time, so safety cannot rest on
`ts.state = 1`. `TaskTables` is the same two functions called one at a time, as a class whose
loop updates the tables row by row.

**Stream buffer** (`core/3rdparty/asio/basic_streambuf.hpp`). `StreamBuffer.StreamBuf` has the
pointers of `std::streambuf` as offsets into `buffer_`. Whole runs of prepare, write, commit, consume,
put, peek and get, in any order and with refused characters, are refined to a byte queue with a
hard maximum and a prepared area, up to the first `prepare` that throws.

**Put area** (`core/3rdparty/asio/basic_socket_streambuf.hpp`). The send loop runs against a
script that gives the outcome of every try; `Offered` is how many characters a script lets through,
so that would-blocks count for nothing and an operation fails exactly when it has more to send.

**Cascade** (`web/server/core.py`, `web/server/pipeline_task.py`). `Cascade.Server` is the
callback; `GraphOf` is the graph of flagged and enabled successors it follows. The theorems
hold for every graph, so for that of every pipeline. `accepts` says which attempts to start
a task succeed.

**Text lists** (`web/server/pipeline_task.py`, `web/server/event.py`). Python's `str`, `int`, `join`
and `split` on ASCII strings, and the two list codecs made of them.

**Messages** (`core/base/messages.cpp`). `MessageFormat` says what bytes a list of fields
becomes and how any bytes are read; `Messages` has the writer, the reader and the five messages
as classes.

**Event timer** (`web/server/events_process.py`), **running time** (`core/worker/process.cpp`) and
**client blocks** (`core/client/zmclient.cpp`).

## Where the code differs from what one might expect

- Vectors are reserved but never resized by the reader (`core/base/messages.cpp:59-60`), so a decoded
  vector keeps the size its variable had, and a default-constructed one stays empty.
  `RestoredIff` gives the exact condition under which a message comes back whole.
- A `prepare` that throws has already moved the contents down and does not move the pointers
  (`core/3rdparty/asio/basic_streambuf.hpp:321-340`). `FailedPrepareIsSafeIff` says exactly for which sizes and
  positions of `gptr` the contents are sure to survive; `FailedPrepareLoses` runs a buffer into a case where they do not.
- `commit` and `consume` cast to `int` (`basic_streambuf.hpp:236` and `253`). They are exact if and only if less than 2^31 bytes move at a time.
- After an `overflow` that fails part way, the same put area is sent again from its start;
  `RetryRepeatsUnlessNothingWasSent` says exactly when a retried flush repeats bytes, `OneCharacterTwice` runs
  into it, and `DeliveredIff` gives the exact condition over every run. `NextIsSafeIff` and `RetryIsSafeIff` give the
  caller's side: safe, whatever the socket does, exactly with one character at most to send. An unbuffered stream is
  always safe (`UnbufferedNeverRepeats`).
- An event with a single "HH:MM" entry starts on the first day only
  (`web/server/events_process.py:66`). `EachOncePerDayIff` gives the exact condition for daily starts.
  An event that lists both the time and the full date of one minute starts at every tick of it
  (`SecondTickSilentIff`).
- A period of 0 or less never starts anything (`web/server/events_process.py:59`).
- A pipeline task id without a row makes the tick fail before anything is stored, so starts that are due
  are tried again at later ticks; over any run a failed tick counts for nothing, its time included
  (`FailedTicksLeaveNoTrace`).
- `web/server/core.py:46` names an undefined `usr`, so the callback as written always fails there. The
  database handle is taken as given and lines 48-67 are modelled. The INSERT in
  `web/server/task.py:32-38` names more columns than it gives values, so whether a start succeeds is a parameter.
- A flag list shorter than the successor list gives no successors at all (`web/server/pipeline_task.py:103-105`).
- The counters of `core/worker/process.cpp` are ints of milliseconds and wrap after 2^31 ms
  (`LongRunsAreMisreported`). `NarrowedIsRightIff` gives the exact condition.
- A negative length makes the reader throw `std::length_error` (`core/base/messages.cpp:43` and `59`), which no `deserialn`
  catches: `TaskStatus` and `InfoMess` then keep their type, and `getConnectPnt` gives no value (`NegativeLengthThrows`).
- A message padded by a multiple of 2^32 bytes is accepted, since its size is compared as an `int`.
- An array from `zmGetAllSchedulers` or `zmGetAllWorkers` passed in again as the out pointer stays tracked under
  its old address. `GetAllIsSafeIff` says exactly which out pointers a caller can pass whatever `realloc` does,
  `GetAllKeepsBooksIff` exactly which calls keep the books once it is known what `realloc` did.

## Model

| member | source | states |
|---|---|---|
| QueueSpec.FirstInFirstOut | core/common/queue.h:70-85 | in every run of the atomic queue, popped values followed by queued ones are the pushed ones: none lost, repeated or overtaken |
| QueueSpec.AnswersAreRight | core/common/queue.h:82-101 | whenever a call takes effect in a run: a pop or front gives the oldest value pushed and not popped, none only if all are popped; empty says whether they are; size is how many are not |
| QueueSimulation.CallSim | core/common/queue.h:70-101 | entering and leaving an operation is a call and a return of the atomic queue |
| QueueSimulation.PushLockSim | core/common/queue.h:74-80 | taking and giving back the tail mutex changes nothing queued |
| QueueSimulation.PushAllocSim | core/common/queue.h:71-72 | a node prepared outside the locks, at any unused address, disturbs nobody |
| QueueSimulation.PushWriteSim | core/common/queue.h:75-77 | filling and linking the dummy node keeps the simulation although the value is not queued yet |
| QueueSimulation.PushMoveSim | core/common/queue.h:78 | a push takes effect when tail_ moves, even while a pop holds an older tail |
| QueueSimulation.PushCountSim | core/common/queue.h:79 | counting after the move brings sz_ back in step |
| QueueSimulation.PopLockSim | core/common/queue.h:46-50 | a pop's locks, its snapshot and its comparison change nothing queued: the outcome is settled before them |
| QueueSimulation.PopCountSim | core/common/queue.h:60-64 | a pop takes effect, success or failure, at its decrement under both locks |
| QueueSimulation.PopTakeSim | core/common/queue.h:51 | the value moved out is the one the pop was given when it took effect |
| QueueSimulation.PopUnlinkSim | core/common/queue.h:52-53 | advancing head_ drops exactly the popped node from the chain |
| QueueSimulation.PopFreeSim | core/common/queue.h:82-85 | freeing the old head touches no node of the chain or of another thread |
| QueueSimulation.FrontSim | core/common/queue.h:86-93 | front answers as of its tail snapshot |
| QueueSimulation.EmptySim | core/common/queue.h:98-101 | empty answers as of its tail snapshot |
| QueueSimulation.SizeSim | core/common/queue.h:94-97 | size answers the length of the atomic queue |
| QueueTheorems.StepSim | core/common/queue.h:46-101 | every step of every thread is matched by the atomic queue |
| QueueTheorems.Linearizable | core/common/queue.h:46-101 | every interleaving shows the calls and returns of a run of the atomic FIFO |
| QueueTheorems.SizeLaw | core/common/queue.h:60-64 | in every reachable state sz_ is the number of linked elements less one exactly for a pop between decrement and head advance (and one for a push between move and count), never negative, and the length at rest |
| QueueAccesses.StepWritesOnly | core/common/queue.h:46-101 | a step changes no existing place but those listed for it |
| QueueAccesses.StepReadsOnly | core/common/queue.h:46-101 | what a step does depends on no place but those listed for it |
| QueueTheorems.DataRaceFree | core/common/queue.h:46-101 | no two threads are ever about to touch one of these places with one writing |
| QueueTheorems.NotBothEntitled | core/common/queue.h:46-81 | the nodes poppers may touch lie strictly before the one pushers write |
| QueueTheorems.NeverStuck | core/common/queue.h:46-101 | a thread that waits for no mutex can go on: no null pointer, empty cell or missing successor |
| QueueTheorems.DeadlockFree | core/common/queue.h:46-101 | while a call is pending, some pending call can step |
| LinkedQueue.Queue.constructor | core/common/queue.h:66 | an empty queue over one dummy node |
| LinkedQueue.Queue.Push | core/common/queue.h:70-81 | the value joins the contents at the end, with one new node |
| LinkedQueue.Queue.TryPop | core/common/queue.h:46-64 | removes and gives the first value exactly if there is one, else leaves queue and variable alone |
| LinkedQueue.Queue.Front | core/common/queue.h:86-93 | gives the first value if there is one |
| LinkedQueue.Queue.Size | core/common/queue.h:94-97 | the number of values held |
| LinkedQueue.Queue.Empty | core/common/queue.h:98-101 | whether there are none |
| TaskRows.EligibleBelow | scripts/create_core_tables.py:158-165 | the query's answer: every id whose state is 1, whose schedr is NULL and whose preset is NULL or the caller, and no other, ascending |
| TaskClaim.SubmitKeeps | scripts/create_core_tables.py:96-124 | a submit keeps the claim invariant |
| TaskClaim.SetStateKeeps | scripts/create_core_tables.py:64-67 | so does any write of a state by anyone |
| TaskClaim.BeginKeeps | scripts/create_core_tables.py:157-167 | so does the snapshot of a new call |
| TaskClaim.AdvanceKeeps | scripts/create_core_tables.py:164-185 | so does each lock, skip, recheck and claim |
| TaskClaim.CommitKeeps | scripts/create_core_tables.py:169-187 | so does a commit |
| TaskClaim.AbortKeeps | scripts/create_core_tables.py:157-187 | so does an abort at any point |
| TaskClaim.StepKeeps | scripts/create_core_tables.py:157-187 | every step of every transaction keeps the claim invariant |
| TaskClaim.RunKeeps | scripts/create_core_tables.py:157-187 | the invariant holds in every reachable state of every interleaving |
| TaskClaimTheorems.ExclusiveClaims | scripts/create_core_tables.py:157-186 | no task is in two committed calls; a committed call has at most maxTaskCnt tasks, ascending, each allowed by its preset, marked with its scheduler, taken not before created |
| TaskClaimTheorems.CommitMarks | scripts/create_core_tables.py:169-183 | a commit changes exactly the claimed rows, whose schedr was NULL, and puts them out of every scheduler's reach |
| TaskClaimTheorems.StepIsMonotone | scripts/create_core_tables.py:164-171 | only the commit of a claim moves schedr, and only away from NULL |
| TaskClaimTheorems.ClaimsArePermanent | scripts/create_core_tables.py:169-171 | once committed, schedr never changes and the winning call stays the winner |
| TaskClaimTheorems.RunOutClaims | scripts/create_core_tables.py:157-186 | the loop left to itself ends and claims the first obtainable candidates up to the limit |
| TaskClaimTheorems.SoloCallClaims | scripts/create_core_tables.py:157-186 | a call by itself claims the first maxTaskCnt eligible tasks nobody has locked, whatever is in flight |
| TaskClaimTheorems.AloneTakesLowest | scripts/create_core_tables.py:163-167 | with no lock outstanding, exactly the lowest min(maxTaskCnt, number eligible) ids |
| TaskClaimTheorems.SoloCallTakesOpen | scripts/create_core_tables.py:157-186 | in the rows' own columns: a call by itself claims only READY, unclaimed, unlocked tasks meant for it or anyone, ascending, and leaves one only when it is full with tasks before it |
| TaskClaimTheorems.SubmittedIsClaimed | scripts/create_core_tables.py:120-122 | a submitted task has state 1 and is claimed by a call by itself unless that fills up with tasks before it |
| TaskClaimTheorems.AbortLeavesClaimable | scripts/create_core_tables.py:157-186 | an aborted claim changes no row and leaves no lock, and a later call gets its tasks |
| TaskTables.Tables.StartTask | scripts/create_core_tables.py:96-124 | one new row with the arguments given, presets 0 as NULL, state 1 and no scheduler, or none when a CHECK fails; the id is used up either way |
| TaskTables.Tables.NewTasksForSchedr | scripts/create_core_tables.py:146-187 | hands out, in the rows' own columns, only READY tasks nobody has that are meant for the caller or anyone, with their own parameters, ascending, at most maxTaskCnt, none passed over without need; marks exactly these |
| TaskTables.Tables.ClaimLoop | scripts/create_core_tables.py:168-186 | the row-by-row updates amount to claiming all rows at once |
| TaskTables.Tables.constructor | scripts/create_core_tables.py:59-84 | no task to begin with |
| TaskTables.ClaimNext | scripts/create_core_tables.py:168-183 | one turn of the loop claims one row that is untouched so far |
| TaskTables.Tables.ClaimRow | scripts/create_core_tables.py:169-183 | the UPDATEs of one turn change one row, as a whole |
| TaskTables.ClaimsAreFirst | scripts/create_core_tables.py:157-167 | a call takes only eligible tasks, ascending, and none before an eligible one it leaves |
| TaskTables.NeverOvertaken | scripts/create_core_tables.py:157-186 | over any sequence of submits and calls a scheduler receives tasks in strictly ascending order, all before any it could still get; takeInWorkTime >= createTime throughout |
| TaskTables.NonePassedOver | scripts/create_core_tables.py:157-186 | no call of any run hands out a task and leaves an eligible earlier one |
| TaskTables.RowsAreAsSubmitted | scripts/create_core_tables.py:110-118 | over any run every row keeps the arguments of the submit that took its id |
| TaskTables.Operate | scripts/create_core_tables.py:96-187 | each call does to the tables and returns what the sequence says |
| TaskTables.Drive | scripts/create_core_tables.py:96-187 | so does any sequence of submits and calls |
| StreamBuffer.StreamBuf.constructor | core/3rdparty/asio/basic_streambuf.hpp:131-141 | an empty buffer within its maximum |
| StreamBuffer.StreamBuf.Reserve | core/3rdparty/asio/basic_streambuf.hpp:308-346 | succeeds exactly when size + n fits the maximum, then keeps the contents and has room; otherwise moves no pointer but shifts the bytes |
| StreamBuffer.StreamBuf.MemMove | core/3rdparty/asio/basic_streambuf.hpp:325 | the bytes are moved to the start, those after them stay |
| StreamBuffer.StreamBuf.Grow | core/3rdparty/asio/basic_streambuf.hpp:334 | the buffer has the new size and keeps its first bytes |
| StreamBuffer.StreamBuf.Prepare | core/3rdparty/asio/basic_streambuf.hpp:214-219 | throws exactly when size() + n > max_size(), then moves no pointer but smears the contents; otherwise keeps them and leaves gptr or brings it to the start |
| StreamBuffer.StreamBuf.Fill | core/3rdparty/asio/basic_streambuf.hpp:214-219 | bytes written where prepare says go after the contents and leave them alone |
| StreamBuffer.StreamBuf.Commit | core/3rdparty/asio/basic_streambuf.hpp:233-238 | appends at most the whole output sequence; exact if and only if below 2^31 |
| StreamBuffer.StreamBuf.Consume | core/3rdparty/asio/basic_streambuf.hpp:247-254 | drops at most the whole input sequence from the front; exact if and only if below 2^31 |
| StreamBuffer.StreamBuf.Underflow | core/3rdparty/asio/basic_streambuf.hpp:263-274 | offers the first byte exactly when there is one, contents unchanged, egptr caught up |
| StreamBuffer.StreamBuf.Overflow | core/3rdparty/asio/basic_streambuf.hpp:283-306 | throws exactly on a real character with the put area full and the size at its maximum, and then leaves buffer and pointers alone; otherwise appends it |
| StreamBuffer.StreamBuf.Store | core/3rdparty/asio/basic_streambuf.hpp:300-301 | the contents grow by the character |
| StreamBuffer.StreamBuf.Put | core/3rdparty/asio/basic_streambuf.hpp:283-306 | a character is refused exactly when the buffer holds its maximum; the contents grow by it or stay |
| StreamBuffer.StreamBuf.Get | core/3rdparty/asio/basic_streambuf.hpp:263-274 | gives and removes the first byte even when egptr lags |
| StreamBuffer.StreamBuf.ReadSizeHelper | core/3rdparty/asio/basic_streambuf.hpp:353-359 | the amount it names can always be prepared; it is the limit, the room left or max(512, spare capacity), whichever is least |
| StreamBuffer.FailedPrepareIsSafeIff | core/3rdparty/asio/basic_streambuf.hpp:321-340 | n bytes survive a failed prepare, whatever they are, exactly when gptr is at the start or n is at most gptr |
| StreamBuffer.FailPrepare | core/3rdparty/asio/basic_streambuf.hpp:321-340 | a buffer of any contents, read from and then prepared for too much, ends up smeared by what was read |
| StreamBuffer.FailedPrepareLoses | core/3rdparty/asio/basic_streambuf.hpp:321-340 | one such run: "bcd" becomes "cdd" |
| StreamBuffer.Receive | core/3rdparty/asio/basic_streambuf.hpp:214-238 | prepare, write and commit append the data, or throw exactly when there is no room |
| StreamBuffer.Operate | core/3rdparty/asio/basic_streambuf.hpp:214-346 | each operation on the buffer is that operation on the bounded byte queue with its prepared area, refusals included; a failed prepare smears the bytes |
| StreamBuffer.OperateCommit | core/3rdparty/asio/basic_streambuf.hpp:233-238 | a commit of part of what was written moves that part and leaves the rest prepared |
| StreamBuffer.OperatePut | core/3rdparty/asio/basic_streambuf.hpp:283-306 | a character put takes the place of the first one prepared |
| StreamBuffer.Drive | core/3rdparty/asio/basic_streambuf.hpp:131-346 | any run of prepare, write, commit, consume, put, peek and get up to the first failed prepare is a run of that queue, across shifts, growth, refused characters and a lagging egptr |
| StreamBuffer.QueueConserves | core/3rdparty/asio/basic_streambuf.hpp:221-306 | over any run what was added is, in order, what was taken followed by what is left; held and prepared bytes never exceed the maximum |
| StreamBuffer.StepConserves | core/3rdparty/asio/basic_streambuf.hpp:221-306 | one operation conserves the bytes |
| PutArea.SocketBuf.constructor | core/3rdparty/asio/basic_socket_streambuf.hpp:566-576 | an empty put area of full size |
| PutArea.ThroughIsByTries | core/3rdparty/asio/basic_socket_streambuf.hpp:490-523 | what a script lets through, by its tries: a would-block is no failure, without failures each send gets at least one character through, and what was sent before the first failure |
| PutArea.SocketBuf.SendAll | core/3rdparty/asio/basic_socket_streambuf.hpp:490-523 | succeeds exactly when the socket offers room for everything, whatever would-blocks there are; what it offers is sent, once and in order |
| PutArea.SocketBuf.Overflow | core/3rdparty/asio/basic_socket_streambuf.hpp:468-540 | succeeds exactly when all there is to send is offered room; on success sent plus pending grows by the character, on failure the offered part is sent and the put area stays |
| PutArea.SocketBuf.Sync | core/3rdparty/asio/basic_socket_streambuf.hpp:542-545 | succeeds exactly when all that is pending is offered room; sends the offered part and forgets what is pending only on success |
| PutArea.SocketBuf.Put | core/3rdparty/asio/basic_socket_streambuf.hpp:468-540 | stores the character while there is room, else succeeds exactly when overflow's output is offered room; what is sent and pending then, and after a failure |
| PutArea.SocketBuf.SetUnbuffered | core/3rdparty/asio/basic_socket_streambuf.hpp:547-558 | accepted exactly when nothing is pending |
| PutArea.Operate | core/3rdparty/asio/basic_socket_streambuf.hpp:468-558 | each operation on the buffer is that operation on the machine, and reports its failure |
| PutArea.Drive | core/3rdparty/asio/basic_socket_streambuf.hpp:468-576 | every run, buffered or not, failures and retries included, is a run of the machine, with the success of each operation |
| PutArea.DeliveredIff | core/3rdparty/asio/basic_socket_streambuf.hpp:484-540 | over every run, bytes sent followed by bytes pending are the accepted characters if and only if no failed operation got anything through; else there are exactly that many too many |
| PutArea.DeliveredUntilFailure | core/3rdparty/asio/basic_socket_streambuf.hpp:468-576 | until the first failure they are all characters put, in order, none lost or repeated, for every pattern of partial sends and would-blocks; a flush leaves none pending |
| PutArea.NextIsSafeIff | core/3rdparty/asio/basic_socket_streambuf.hpp:468-545 | the next put or flush keeps delivery right, whatever the socket does, if and only if it has one character at most to send |
| PutArea.UnbufferedNeverRepeats | core/3rdparty/asio/basic_socket_streambuf.hpp:476-523 | an unbuffered stream never repeats a byte, whatever fails |
| PutArea.RetryIsSafeIff | core/3rdparty/asio/basic_socket_streambuf.hpp:484-523 | a flush can be retried after any failure if and only if one character waits at most |
| PutArea.RetryCanRepeat | core/3rdparty/asio/basic_socket_streambuf.hpp:484-523 | with two or more waiting, a buffer is driven into the failure that repeats one |
| PutArea.RetryRepeatsUnlessNothingWasSent | core/3rdparty/asio/basic_socket_streambuf.hpp:484-523 | a failed flush followed by one that succeeds leaves the socket with what it should have exactly when the failed one got nothing through |
| PutArea.OneCharacterTwice | core/3rdparty/asio/basic_socket_streambuf.hpp:484-523 | one such run: of "ab" the socket gets "aab" |
| Cascade.GetNextTasks | web/server/pipeline_task.py:87-105 | the stored successors with their flags; nothing for a missing row, a part that is no integer or too few flags |
| Cascade.PairUp | web/server/pipeline_task.py:97-105 | all pairs, or none when the flags run out |
| Cascade.StoredSuccessorsIff | web/server/pipeline_task.py:41-43 | successors stored by add come back with their flags exactly when there are enough flags |
| Cascade.StartsAreFlaggedAndEnabled | web/server/core.py:58-67 | a successor is started once for each flagged listing if enabled, and not at all if not |
| Cascade.GraphOf | web/server/core.py:56-67 | every start a completion leads to is of an existing node |
| Cascade.GraphStarts | web/server/core.py:58-67 | with lists stored as ids and flags a completion starts the flagged and enabled ids in list order, up to the first flagged one without a row; none if the flags are short |
| Cascade.LaunchedIs | web/server/core.py:65-67 | of the attempts the accepted ones become rows, ready, with their starter, in order |
| Cascade.StartedPerListing | web/server/core.py:58-67 | with all flagged ids present and all starts accepted an enabled node gets one row for each flagged place, a disabled one none |
| Cascade.Server.TaskChangeCBack | web/server/core.py:48-67 | stores the state, marks the pipeline task, adds no row unless COMPLETED, and then exactly the rows for the flagged, enabled and accepted successors as stored, in list order, READY and started by the node |
| Cascade.Server.StartNext | web/server/core.py:59-67 | the loop adds a row for each accepted start of a flagged, enabled successor, in order |
| Cascade.Server.constructor | web/server/core.py:46-51 | the tables as they are |
| Cascade.Server.StartExternally | web/server/task.py:25-47 | a row started on nobody's behalf |
| Cascade.Drive | web/server/core.py:32-67 | any run of callbacks and external starts on the server is a run of the graph |
| CascadeTheorems.CompletedStep | web/server/core.py:40-49 | completions of a node grow by one exactly when one of its tasks is reported COMPLETED |
| CascadeTheorems.StartedByStep | web/server/core.py:56-67 | starts of v for u grow by the flagged listings exactly at a completion of u |
| CascadeTheorems.EdgeConservation | web/server/core.py:56-67 | over any run, starts of v for u are at most completions of u times listings, and equal if all starts succeed; the others are the external ones |
| CascadeTheorems.OwedStep | web/server/core.py:56-67 | one event adds to the starts of v exactly what it newly owes, if every start succeeds |
| CascadeTheorems.NodeConservation | web/server/core.py:40-67 | starts of v are its external starts plus one per flagged listing under every completed task; ERROR and STOP add nothing |
| CascadeTheorems.ReportLightens | web/server/core.py:56-67 | each terminal report takes at least one off the total weight of what runs |
| CascadeTheorems.LaunchedWeight | web/server/core.py:59-67 | what a completion launches weighs at most its node's weight less one |
| CascadeTheorems.CascadeBounded | web/server/core.py:56-67 | on an acyclic graph the terminal reports of any cascade are at most the weight it began with |
| CascadeTheorems.CycleGoesOn | web/server/core.py:56-67 | from a node on a cycle there is a cascade of any length |
| CascadeTheorems.CascadesEndIff | web/server/core.py:56-67 | every cascade from every table is bounded if and only if the start edges form no cycle |
| TextLists.IntOfStr | web/server/pipeline_task.py:98-99 | int(str(v)) is v for every integer |
| TextLists.Split | web/server/pipeline_task.py:98-99 | split always gives a part, and none with a comma |
| TextLists.BadPartIff | web/server/pipeline_task.py:98-99 | a list cannot be read exactly when some non-empty part is no integer |
| TextLists.StrangeCharIsNoInt | web/server/pipeline_task.py:98-99 | text with a character that is no digit, sign, underscore or space is no integer |
| TextLists.SplitOfJoin | web/server/pipeline_task.py:41-43 | split undoes join on comma-free parts |
| TextLists.IntsRoundTrip | web/server/pipeline_task.py:41-43 | every list of integers is parsed back as printed |
| TextLists.TimesRoundTripIff | web/server/event.py:37-38 | the non-empty times come back in order if and only if no entry holds a comma |
| MessageFormat.LeRoundTrip | core/base/messages.cpp:99-102 | every int is read back from its four bytes |
| MessageFormat.ReadField | core/base/messages.cpp:30-63 | reading stays inside the message and changes the variable only on success |
| MessageFormat.ReadFrom | core/base/messages.cpp:12-21 | reading a list of fields stays inside the message and keeps the earlier variables |
| MessageTheorems.FieldLayout | core/base/messages.cpp:96-111 | an integer is its four bytes, least significant first; a string or vector is its length and what follows |
| MessageTheorems.VectorLayout | core/base/messages.cpp:104-111 | each element of a vector stands at its place |
| MessageTheorems.MessageLayout | core/base/messages.cpp:74-82 | a message begins with its own size and its type |
| MessageTheorems.FieldRoundTrip | core/base/messages.cpp:36-110 | a field is read back where it was written and the offset moves by its width |
| MessageTheorems.RoundTrip | core/base/messages.cpp:12-117 | a serialised message is read to its last byte, scalars and strings restored, vectors laid over what was held |
| MessageTheorems.VectorRestoredIff | core/base/messages.cpp:53-63 | a vector is restored exactly when its variable had the right size |
| MessageTheorems.RestoredIff | core/base/messages.cpp:53-63 | a message is restored exactly when all its vector variables had |
| MessageTheorems.CutIsRefused | core/base/messages.cpp:14-18 | every strict prefix is refused and no field touched |
| MessageTheorems.PaddedIsRefusedIff | core/base/messages.cpp:14-18 | every extension is refused unless by a multiple of 2^32 bytes |
| MessageTheorems.UntouchedAfterFailure | core/base/messages.cpp:26-63 | on any bytes, fields from the first unreadable one on are left alone |
| MessageTheorems.PrefixReader | core/base/messages.cpp:120-133 | reading only the first variables agrees with reading all |
| Messages.SerialWriter.constructor | core/base/messages.cpp:74-82 | the buffer is filled to its end and no further, with the serialised message |
| Messages.SerialWriter.FieldSizes | core/base/messages.cpp:87-95 | the sizes added up are the width of what is written |
| Messages.SerialWriter.WriteFields | core/base/messages.cpp:81-82 | the fields' bytes follow what was written before |
| Messages.SerialWriter.WriteField | core/base/messages.cpp:96-111 | each overload writes its field's bytes |
| Messages.SerialReader.constructor | core/base/messages.cpp:12-19 | good exactly when the header equals the size |
| Messages.SerialReader.CheckFieldSize | core/base/messages.cpp:27-32 | fails exactly when the field would end past the message |
| Messages.SerialReader.Read | core/base/messages.cpp:33-63 | reads one field as the format says; nothing after a failure |
| Messages.ReadFields | core/base/messages.cpp:20 | the fields one after the other |
| Messages.ReadMessage | core/base/messages.cpp:12-25 | a reader over a whole message |
| Messages.GetMessType | core/base/messages.cpp:120-127 | the type, or UNDEFINED for what cannot be read |
| Messages.GetConnectPnt | core/base/messages.cpp:128-133 | the connection point, an empty string where it cannot be read, no value where the reading throws |
| Messages.NegativeLengthThrows | core/base/messages.cpp:40-43 | one message whose type is read and whose string throws |
| Messages.PrefixReadersAgree | core/base/messages.cpp:120-133 | both agree with every full decode that succeeds |
| Messages.NewTask.Serialn | core/base/messages.cpp:140-149 | bytes 0-3 are the size, bytes 4-7 type 1, then the fields in this order |
| Messages.NewTask.Deserialn | core/base/messages.cpp:151-161 | holds afterwards what a reading of the whole message gives: all fields but the type |
| Messages.TaskStatus.Serialn | core/base/messages.cpp:175-181 | bytes 0-3 are the size, bytes 4-7 its type, then the fields in this order |
| Messages.TaskStatus.Deserialn | core/base/messages.cpp:183-191 | holds afterwards what a reading of the whole message gives; the type too, even after a failure, but not after a throw |
| Messages.TaskProgress.Serialn | core/base/messages.cpp:203-210 | bytes 0-3 are the size, bytes 4-7 type 10, then the fields in this order |
| Messages.TaskProgress.Deserialn | core/base/messages.cpp:212-220 | holds afterwards what a reading of the whole message gives: all fields but the type |
| Messages.InfoMess.Serialn | core/base/messages.cpp:228-231 | bytes 0-3 are the size, bytes 4-7 its type and the connection point |
| Messages.InfoMess.Deserialn | core/base/messages.cpp:233-238 | holds afterwards what a reading of the whole message gives; the type too, even after a failure, but not after a throw |
| Messages.InternError.Serialn | core/base/messages.cpp:246-250 | bytes 0-3 are the size, bytes 4-7 type 24, then the fields in this order |
| Messages.InternError.Deserialn | core/base/messages.cpp:252-257 | holds afterwards what a reading of the whole message gives: all fields but the type |
| Messages.SendNewTask | core/base/messages.cpp:140-161 | every field arrives |
| Messages.SendTaskStatus | core/base/messages.cpp:175-191 | every field arrives, the type included |
| Messages.SendTaskProgress | core/base/messages.cpp:203-220 | the scalars after the vectors arrive; each vector exactly when the receiver's was as long |
| Messages.SendInfoMess | core/base/messages.cpp:228-238 | type and connection point arrive |
| Messages.SendInternError | core/base/messages.cpp:246-257 | every field arrives |
| EventTimer.AccInRange | web/server/events_process.py:59-63 | the accumulator lies in [0, P] after every tick |
| EventTimer.AccIsElapsed | web/server/events_process.py:60 | with no start in between, the accumulator is what it was plus the time gone by |
| EventTimer.StartsAreAPeriodApart | web/server/events_process.py:59-63 | between starts in a row more than the period has gone by, and at most the period plus the last tick |
| EventTimer.NoPeriodNoStart | web/server/events_process.py:59 | without a period nothing is started or counted |
| EventTimer.QueuedByIsEnabled | web/server/events_process.py:86-94 | what a start queues are the enabled tasks before the first without a row, in their order, each as often as listed |
| EventTimer.StartTask | web/server/events_process.py:86-94 | queues just these; succeeds exactly if every task has a row |
| EventTimer.Event.Check | web/server/events_process.py:56-73 | every enabled task is queued once per start that is due, no disabled one, and the last starts are stored; or the tick fails at a missing row, having queued the enabled tasks before it, and stores nothing |
| EventTimer.Event.CheckEnabled | web/server/events_process.py:59-73 | the same for an enabled event |
| EventTimer.Event.CheckTimes | web/server/events_process.py:65-71 | the loop over the times of day |
| EventTimer.Event.constructor | web/server/event.py:34-56 | nothing started yet |
| EventTimer.Operate | web/server/events_process.py:55-73 | one tick on the stored event, with what it queues |
| EventTimer.Drive | web/server/events_process.py:39-94 | any run of ticks on one event, failed ones included |
| EventTimer.FailedTicksLeaveNoTrace | web/server/events_process.py:48-79 | over any run the stored fields are those of the ticks that did not fail, time included |
| EventTimer.SecondTickSilentIff | web/server/events_process.py:65-71 | a second tick in a minute starts nothing exactly when time and full date are not both listed |
| EventDays.HMInjective | web/server/events_process.py:44 | different minutes of the day are different text |
| EventDays.HMReads | web/server/events_process.py:44 | the text of a minute is its hours and minutes, two digits each |
| EventDays.StartsAtIs | web/server/events_process.py:65-71 | a tick starts its minute exactly when the previous listed tick was in another |
| EventDays.LastStep | web/server/events_process.py:65-71 | a tick in a listed minute makes it the last start, another changes nothing |
| EventDays.LastIsPrevious | web/server/events_process.py:68 | the stored last start is the text of the latest tick in a listed minute |
| EventDays.CountIsFirst | web/server/events_process.py:66-68 | on any day a minute is started by its first tick or by none, however many fall in it |
| EventDays.OtherEntryFrees | web/server/events_process.py:66-68 | with another time listed, the first tick in a minute does start it |
| EventDays.AloneStartsOnce | web/server/events_process.py:66-68 | with one time listed, it does so on the first day and never again |
| EventDays.EachOncePerDayIff | web/server/events_process.py:65-71 | every listed time starts exactly once on every day if and only if two different times are listed, or none, or there is at most one day |
| RunTime.Process.constructor | core/worker/process.cpp:88-93 | nothing counted, running |
| RunTime.Process.GetProgress | core/worker/process.cpp:105-112 | counted plus skipped time is the time since the start; while it fits an int the answer is the whole percentage of the average that the counted seconds make, 100 at most |
| RunTime.ProgressIsPercent | core/worker/process.cpp:110-111 | the progress r satisfies r * m <= 100 * seconds < (r + 1) * m below 100 |
| RunTime.Process.CheckMaxRunTime | core/worker/process.cpp:113-119 | the same accounting; while it fits an int, late exactly when there is a limit above 0 and the counted whole seconds exceed it |
| RunTime.Process.SetTaskState | core/worker/process.cpp:120-123 | paused exactly in state PAUSE, both counters untouched |
| RunTime.ProgressIsSound | core/worker/process.cpp:110-118 | of two counter values, progress within 0..100 and in order, 100 exactly when the whole seconds reach max(1, average), the product fits an int, a late one stays late |
| RunTime.Drive | core/worker/process.cpp:105-123 | any schedule of samples, checks and changes of state, with what each answers |
| RunTime.Operate | core/worker/process.cpp:105-123 | one operation adds the time since its timer's last reading to what is counted or to what is skipped |
| RunTime.TimesAddUp | core/worker/process.cpp:105-119 | counted plus skipped time is the time from the start to the last reading |
| RunTime.TimeGrows | core/worker/process.cpp:105-119 | on a clock that does not go back counted time does not shrink |
| RunTime.RunIsSound | core/worker/process.cpp:105-119 | over any schedule, while the counter fits an int: progress in 0..100, never down, 100 exactly when counted seconds suffice, and a timeout once found stays |
| RunTime.NarrowedIsRightIff | core/worker/process.cpp:105-119 | the narrowed counter gives the right progress for every average, and the right verdict for every limit, if and only if less than 2^31 ms are counted |
| RunTime.NarrowSum | core/worker/process.cpp:107 | narrowing at every sample is narrowing once |
| RunTime.LongRunsAreMisreported | core/worker/process.cpp:105-119 | what goes wrong just past 2^31 ms: progress is negative for averages up to 100 s and a timeout is not seen |
| ClientBlocks.UniqueKeepsOneOfEach | core/client/zmclient.cpp:434-435 | sorted and made unique, a list holds each of its blocks once |
| ClientBlocks.SortSorts | core/client/zmclient.cpp:434 | sorting orders the list and keeps its blocks |
| ClientBlocks.GetAllIsSafeIff | core/client/zmclient.cpp:183-186 | tracked blocks stay exactly the live ones whatever realloc does if and only if the out pointer is NULL or the user's own |
| ClientBlocks.OwnResultIsNotSafe | core/client/zmclient.cpp:183-186 | the array one call gave is never such a pointer for the next |
| ClientBlocks.GetAllKeepsBooksIff | core/client/zmclient.cpp:183-186 | once realloc has answered, the books are exact if and only if the out pointer was NULL, the user's own, or this connection's and not moved |
| ClientBlocks.FreeKeepsBooks | core/client/zmclient.cpp:428-452 | a free leaves its connection no block and touches no other's |
| ClientBlocks.ConnectKeepsBooks | core/client/zmclient.cpp:65-67 | resetting the entry of a new connection loses no block, even at a used address |
| ClientBlocks.DisconnectKeepsBooks | core/client/zmclient.cpp:70-75 | a disconnect keeps the books exact |
| ClientBlocks.Client.CreateConnection | core/client/zmclient.cpp:52-69 | an empty entry for the new connection |
| ClientBlocks.Client.constructor | core/client/zmclient.cpp:41 | no connection and no block |
| ClientBlocks.Client.GetAll | core/client/zmclient.cpp:177-192 | the block realloc gives is tracked and returned; nothing changes without rows or connection |
| ClientBlocks.Client.FreeEach | core/client/zmclient.cpp:433-440 | every block of the list is freed exactly once |
| ClientBlocks.Client.FreeResources | core/client/zmclient.cpp:428-452 | all of the connection's blocks and no others are freed and forgotten |
| ClientBlocks.Client.Disconnect | core/client/zmclient.cpp:70-75 | the same, and the connection is closed |
| ClientBlocks.Operate | core/client/zmclient.cpp:52-75 | each call does to the library's state what the run says |
| ClientBlocks.Drive | core/client/zmclient.cpp:52-452 | so does any run with good out pointers |
| ClientBlocks.RunKeepsBooks | core/client/zmclient.cpp:37-41 | over any run with good out pointers, tracked blocks are exactly the live ones that are not the user's, each under one connection |
| ClientBlocks.CarefulCallersKeepBooks | core/client/zmclient.cpp:177-192 | callers who pass only NULL or their own blocks keep the books exact over any run, whatever realloc does |

## Left out

- QueueTheorems.Linearizable: `sz_` is an unbounded integer, moves of values do not throw, allocation does not fail, and mutexes order memory.
- TaskClaim.RunKeeps: foreign keys, NOTIFY triggers, prefetching by the FOR loop and waiting for rows of `tblTaskState` are not modelled.
- TaskTables.Tables.NewTasksForSchedr: the LIMIT is applied to the ordered answer, since nothing is locked when calls come one at a time.
- StreamBuffer.Drive: a commit of bytes that were prepared but not written, whose values the code does not fix, and moves of 2 GiB and more.
- StreamBuffer.StreamBuf.Consume: pointer wrap-around for an `n` near the top of `size_t`.
- StreamBuffer.StreamBuf.ReadSizeHelper: the vector's capacity is a parameter; the allocator and `basic_streambuf_ref` are left out.
- PutArea.SocketBuf.SendAll: waiting for the socket is an outcome of the script, which is finite, so endless would-blocks end as a failure.
- The get area, connecting and closing of the socket buffer.
- MessageFormat.ReadField: offset arithmetic that leaves `int` ends in the status Undefined; machines are little-endian.
- Messages.SendTaskProgress: a reader whose vectors are resized is not modelled, since the code has none.
- TextLists.IntsRoundTrip: `int` on digits or spaces outside ASCII, and the quoting of SQL text.
- Cascade.Server.TaskChangeCBack: ids are places in one user's table; progress, times, results, parameters and the polling of `hasChange` are not kept; a state that stays terminal is delivered once.
- EventTimer.Event.Check: one event; the accumulator is exact rather than a float; a failing event also stops the user's later events at that tick.
- EventDays.EachOncePerDayIff: the clock never goes back, so no change from summer time.
- RunTime.Process.GetProgress: the timers' own bodies are not part of this model; a sample reads the time since the last update.
- ClientBlocks.Client.GetAll: realloc does not fail; the arrays' contents and the lock around the map are not modelled.
- `fork`, `exec`, `kill`, file redirection and the Windows branch of `core/worker/process.cpp`.
- The message handling of schedulers and workers, their loops and the database provider.
- The rest of the web server: users, pages, the task table's own columns.
- The bundled JSON parser (`core/common/json.h`), in-process signals and slots (`core/common/connector.h`), and the loop-tick counter and clamp of `core/common/misc.h` are outside the model.
