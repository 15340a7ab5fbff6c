# Verified model of the delegate protocol

Delegates run work for a control plane through Redis streams. The control plane sends
a workspace to a worker as a chunked transfer, the worker sends its output back the
same way, and a dispatcher thread per execution drives the Execution row from four
streams. This project models that in Dafny 4.11 and proves what every run keeps.

`dafny verify dfyconfig.toml` checks everything.

| file | what it holds |
|---|---|
| `Protocol.dfy` | messages, the chunks of a payload, one whole transfer |
| `Receiver.dfy` | the worker-side receiver as a fold over messages; slicing; exactly when it decides |
| `Shuffle.dfy` | streams shared by many senders; last start wins; duplicates, noise, loss, reordering |
| `Redis.dfy` | one Redis stream with other clients writing, and a clock |
| `ChunkedTransfer.dfy` | `send_bytes` and `receive_once` as loops; the real-time bound |
| `Worker.dfy` | the retry loop and the two phases of an invocation |
| `OutputReceiver.dfy` | the dispatcher's own receiver, and its agreement with the other |
| `Watching.dfy` | the dispatcher's handlers as functions; convergence |
| `FailedRuns.dfy` | the counterpart of convergence for invocations that fail |
| `StreamDispatcher.dfy` | the handlers and `watch_execution` imperatively |
| `EndToEnd.dfy` | one worker invocation under one watcher |
| `Lifecycle*.dfy` | one execution as a machine of interleaved steps; its invariants; its theorems |
| `WatcherTable.dfy` | the dispatcher's main loop |
| `Confinement.dfy` | workspace confinement over whole runs of the control plane and the dispatcher |
| `StreamNames.dfy` | the key grammar |
| `RedisAcl.dfy` | ACL users and reconciliation |
| `ControlPlane.dfy` | tokens, delegates and executions, and how requests move Redis and the tables apart |
| `RestartGateway.dfy` | the gateway's connection table, and what revocation does to it |

How the world enters the model:

- The hash is any function and base64 any pair of functions, given as a `Codec`. A lemma
  that needs decoding to undo encoding says `Lossless`; one that needs no collision says
  `NoCollision`.
- A stream is a sequence; entry i has id i + 1 and "0" is 0. XREAD gives any non-empty
  beginning of what follows the cursor, or nothing once its block has run out. Entries
  are already parsed.
- `Stream.future` is what other clients will still write; every call lets any part of it
  in first, so each contract holds in every interleaving with them.
- Time passes while XREAD blocks and nowhere else; `lag` is the most a reply is late by.
  A watcher's clock moves by at least 1 ms per poll.
- Random ids are parameters, assumed fresh. Execution and delegate ids are canonical UUID text.
- Every HTTP request is one atomic step. Asyncio code is split at its awaits.
- On the events stream only the dispatcher sends data; workers write DATA_REQUESTs. On the
  other three streams anyone may write anything.
- In `Lifecycle.dfy` deleting the streams moves a floor below which nothing is readable;
  ids of later entries keep growing, as Redis's do. `Redis.dfy` follows one stream until it is deleted.

## What the code does not promise

- **SUCCEEDED does not always mean stored under its own checksum.** The output file is
  opened, which empties it, then written, and only then is the row updated
  (`control_plane/delegates/management/commands/stream_dispatcher.py:191-195`). If one
  reply holds two whole outputs and the thread dies anywhere between the second open and
  its update, the execution stays SUCCEEDED for ever with the first output's checksum over
  what had been written of the second: `LifecycleResults.TornStore` reaches that state for
  every such point. `StoredExactly` is the exact condition: the two agree if and only if
  no step of the run killed a thread of a SUCCEEDED execution whose bytes written so far
  hash otherwise than the row's checksum.
- **A terminal status may still change within the reply that set it.** Like any, it survives
  exactly when the last event of the reply to write a status, if any, writes that same one
  (`Watching.TerminalSurvives`); `Watching.TerminalOverwritten` is a reply that takes an
  execution to FAILED and on to RUNNING. `TerminalStability` is about the head of the loop.
- **A revoked delegate may still enter the gateway's table.** A handler that looked the
  delegate up while it was ACTIVE registers it after the disconnect has found nothing
  (`control_plane/delegates/management/commands/restart_gateway.py:69-75`, run in
  `RestartGateway.RevokedSlipsIn`); `RevokedComesBack` says that this is the only way.
- **Convergence rests on `output` being the last key**: `Watching.KeyOrderMatters` gives a reply in
  another order that leaves a finished execution RUNNING.
- **An empty payload has no chunk at all**, although the comment at
  `shared/delegate_protocol/chunked_transfer.py:105-107` says at least one is sent; the
  model follows the code (`Protocol.ChunkArithmetic`). Such transfers are received all the same.
- **Chunks are joined in arrival order**, not by sequence number (`Shuffle.ArrivalOrder`).
- **`is_delegate_user` also accepts a UUID followed by a newline**, because `$` does
  (`control_plane/delegates/redis_acl.py:30`); `RedisAcl.IsDelegateUser` does the same.

## Model

| member | source | states |
|---|---|---|
| Protocol.ChunkArithmetic | shared/delegate_protocol/chunked_transfer.py:93-114 | there are ceil(len/size) chunks, none iff the payload is empty, none of them empty, all but the last of exactly the chunk size |
| Protocol.ChunksSplit | shared/delegate_protocol/chunked_transfer.py:94-95 | chunk k is the payload from k*size to the next boundary or the end, and is the last iff that is the end |
| Protocol.ChunksJoin | shared/delegate_protocol/chunked_transfer.py:93-103 | the chunks put together are the payload |
| ChunkedTransfer.SendBytes | shared/delegate_protocol/chunked_transfer.py:79-114 | writes one whole transfer, in order, shuffled in any way into what others write meanwhile -- or, if an XADD raises, exactly the beginning of it that got through; returns the payload's hash and size |
| Shuffle.ScriptShape | shared/delegate_protocol/chunked_transfer.py:84-113 | a transfer is its start with true size and hash, chunks numbered from 0 without gap, and an end that counts them |
| Shuffle.RoundTrip | shared/delegate_protocol/chunked_transfer.py:79-181 | a sender's output is received as its payload, at its last message, whatever the receiver held before |
| Receiver.FoldAppend | shared/delegate_protocol/chunked_transfer.py:140-181 | reading may be interrupted anywhere: the first part decides or hands on its state, and cursors add up |
| Receiver.BatchIndependence | shared/delegate_protocol/chunked_transfer.py:146-181 | under every partition into replies the result and the deciding message are those of reading message by message |
| Receiver.DecidesExactly | shared/delegate_protocol/chunked_transfer.py:155-181 | from any cursor on any stream, the receiver decides at the first end whose transfer was the last one started since the cursor, and with none it never decides |
| Shuffle.ShuffleHonest | shared/delegate_protocol/chunked_transfer.py:79-114 | one more sender with an id of its own, cut off anywhere and woven in anyhow, leaves the stream a shuffle of honest senders |
| Shuffle.LastStartWins | shared/delegate_protocol/chunked_transfer.py:131-181 | on any shuffle of any number of senders, from any cursor, every decision is an acceptance, of exactly the payload of the one sender whose end was just read; size and checksum errors never arise |
| Shuffle.ArrivalOrder | shared/delegate_protocol/chunked_transfer.py:155-181 | between a start and its end, whatever else is there, the receiver judges the first-seen chunks joined in arrival order against the start's size, then hash |
| Shuffle.NoiseTolerance | shared/delegate_protocol/chunked_transfer.py:164-181 | duplicates of chunks already sent, requests, and other transfers' chunks and ends, anywhere, still give exactly the payload |
| Shuffle.CorruptionNeverAccepted | shared/delegate_protocol/chunked_transfer.py:172-181 | if only the starts are true, whatever is lost, forged or reordered, anything accepted has the payload's size and hash, and is the payload unless the hash collides |
| ChunkedTransfer.ReceiveOnce | shared/delegate_protocol/chunked_transfer.py:131-181 | terminates; success and validation failure are the first decision on the stream from the cursor, with `last_id` exactly the deciding message even within a batch; a timeout means nothing read decides, and, by the times at which XREAD gave the entries out, it comes no earlier than the wait after every start and every first-seen chunk of the last started transfer, less than 100 ms plus one late reply after the last of these, and in under (their number + 1) times (wait + 100 ms + lateness) |
| ChunkedTransfer.ProgressIs | shared/delegate_protocol/chunked_transfer.py:156-170 | the entries that extend the deadline are exactly the starts and the chunks of the last started transfer that no earlier chunk since repeats |
| ChunkedTransfer.DeadlineIs | shared/delegate_protocol/chunked_transfer.py:138-170 | the deadline in force is the wait after the last such entry, or after the call if there is none |
| ChunkedTransfer.ReadReply | shared/delegate_protocol/chunked_transfer.py:150-181 | one reply either extends what is read, with deadline and state kept in step, or holds the deciding message and reports it |
| ChunkedTransfer.BudgetIsProduct | shared/delegate_protocol/chunked_transfer.py:138-145 | the bound on a failing call is that product |
| ChunkedTransfer.OnlyProgressExtends | shared/delegate_protocol/chunked_transfer.py:162-170 | a duplicate or foreign message inserted anywhere changes neither the deadline nor the count of progress |
| ChunkedTransfer.BlockMs | shared/delegate_protocol/chunked_transfer.py:145 | every block is at least 100 ms and ends less than 100 ms past the time remaining |
| Worker.ReceiveWorkspace | worker/worker_app/tasks.py:68-93 | one request per attempt and no other write; attempts read consecutive segments without gap or overlap; success exactly when the last attempt received; otherwise exactly the maximum number of attempts, all failed |
| Worker.HonestAttempts | worker/worker_app/tasks.py:82-91 | on a stream of honest senders every failed attempt is a timeout, and what is received is the payload of a transfer complete on the stream |
| Worker.WorkerProcess.PrepareExecution | worker/worker_app/tasks.py:157-206 | announces, reports, and leaves a workspace under its id exactly when one was received |
| Worker.WorkerProcess.ExecuteTask | worker/worker_app/tasks.py:117-150 | does nothing without a workspace; consumes it; sends the whole of what the executor made of it between EXECUTING and TASK_SUCCEEDED, or reports TASK_FAILED having sent nothing or just what got through before an XADD raised |
| Worker.WorkerProcess.Invoke | worker/worker_app/tasks.py:117-206 | what is reported and sent is what came of running the executor on the very bytes the last attempt received; without one, TRANSFER_FAILED after exactly the maximum of attempts; no workspace is left behind |
| OutputReceiver.AgreeStep | control_plane/delegates/management/commands/stream_dispatcher.py:160-208 | holding the same partial transfer, the two receivers do the same with any message |
| OutputReceiver.ReceiversAgree | control_plane/delegates/management/commands/stream_dispatcher.py:160-208 | on any message sequence the dispatcher takes the decisions that repeated `receive_once` calls take, all of them, at the same ends, with the same bytes |
| OutputReceiver.FirstDecisionAgrees | shared/delegate_protocol/chunked_transfer.py:155-181 | the first decision of either receiver is the first of the other, and one decides iff the other does |
| StreamDispatcher.HandleDataRequest | control_plane/delegates/management/commands/stream_dispatcher.py:80-138 | answers exactly if the execution exists, the delegate named is ACTIVE and assigned, all tenants are equal, and the file named is there or none is; then sends the whole workspace or just that file as one transfer and counts one attempt; else writes and changes nothing |
| StreamDispatcher.HandleStatus | control_plane/delegates/management/commands/stream_dispatcher.py:148-157 | whatever the string, a report changes nothing but its own row's status, never to SUCCEEDED, and only to the status that report means |
| Watching.ReportsMoveStatusOnly | control_plane/delegates/management/commands/stream_dispatcher.py:60-68 | any number of reports, whatever they say, move the status alone and never to SUCCEEDED |
| Watching.OnlyOutputSucceeds | control_plane/delegates/management/commands/stream_dispatcher.py:60-68 | if an execution becomes SUCCEEDED, the end of an output transfer was found valid on the way |
| StreamDispatcher.HandleOutputMessage | control_plane/delegates/management/commands/stream_dispatcher.py:160-208 | updates the partial transfer in place; at its end, bytes of the announced size and hash are stored and the row SUCCEEDED, others are not stored and the row FAILED; no other message touches row or file |
| StreamDispatcher.WatchExecution | control_plane/delegates/management/commands/stream_dispatcher.py:228-284 | through lost connections and any slicing, and with the row's delegate cleared or the row deleted at any turn, handles exactly what each XREAD gave, each stream's entries once and in order from the start; answers each request as the tables then say, and writes nothing else; reads a reply only while the status is QUEUED, TRANSFERRING or RUNNING; ends on SUCCEEDED, FAILED or TRANSFER_FAILED, on a missing row, or at its deadline, and then -- unless the row is gone -- deletes the streams |
| Watching.ConvergeReply | control_plane/delegates/management/commands/stream_dispatcher.py:262-277 | within one reply either the output is still under way or its end was the reply's last event |
| Watching.Convergence | control_plane/delegates/management/commands/stream_dispatcher.py:235-277 | with no failure reported and one output transfer, under any slicing the status is terminal iff the whole output was read, and then SUCCEEDED with exactly those bytes |
| Watching.KeyOrderMatters | control_plane/delegates/management/commands/stream_dispatcher.py:262-277 | a reply with the output before a status leaves a finished execution RUNNING |
| Watching.LastWriterWins | control_plane/delegates/management/commands/stream_dispatcher.py:262-277 | after any messages the status is what the last granted request, mapped report or output end among them wrote, and unchanged if there was none |
| Watching.TerminalSurvives | control_plane/delegates/management/commands/stream_dispatcher.py:262-277 | a terminal status survives the rest of its reply iff the last writer in it, if any, writes that same status |
| Watching.TerminalOverwritten | control_plane/delegates/management/commands/stream_dispatcher.py:262-277 | one reply that leads to FAILED and on to RUNNING |
| Watching.EveryLifeKeeps | control_plane/delegates/management/commands/stream_dispatcher.py:237-277 | on any messages, log rows are numbered 1..n and are the LOG lines read, and SUCCEEDED means stored under its hash |
| Watching.LogLineAt | control_plane/delegates/management/commands/stream_dispatcher.py:271-273 | the LOG lines of a stream hold the text of each LOG entry in its place |
| Watching.LogLinesCount | control_plane/delegates/management/commands/stream_dispatcher.py:271-273 | and nothing else |
| FailedRuns.FailureConverges | control_plane/delegates/management/commands/stream_dispatcher.py:60-68 | under any slicing, with reports of which the last says failure and an output whose end is never read, the status is not terminal until all reports are handled, then FAILED or TRANSFER_FAILED as reported, and nothing is stored |
| EndToEnd.FaultFreeInvocation | worker/worker_app/tasks.py:117-206 | what a successful invocation writes, as far as a watcher has read it: SUCCEEDED with the worker's bytes if all output was read, and not terminal if not |
| EndToEnd.InvokeAndWatch | control_plane/delegates/management/commands/stream_dispatcher.py:228-284 | an invocation and a watcher on what it writes: with a workspace and a result, SUCCEEDED with exactly that result once all output is read; without a workspace TRANSFER_FAILED, and with an executor or a send that raised FAILED, once all reports are read; never terminal before; and a watcher that ends on a terminal status has got that far |
| LifecycleResults.RecoverySafety | worker/worker_app/tasks.py:77-93 | in every run, with timeouts, redelivery, watchers dying in mid-transfer, restarts and stream deletion, a worker gets only the full payload of one completely sent transfer, every failed attempt is a timeout, and it gives up only after exactly the maximum of them |
| LifecycleResults.AtMostOneWatcher | control_plane/delegates/management/commands/stream_dispatcher.py:319-371 | in every interleaving of announcements, deaths, pruning and restarts at most one watcher is alive, and it is in the table |
| LifecycleResults.AttemptsExact | control_plane/delegates/management/commands/stream_dispatcher.py:130-133 | the attempt count is exactly the number of saves, no increment is lost, and it never exceeds the complete transfers |
| LifecycleResults.LogPrefix | control_plane/delegates/management/commands/stream_dispatcher.py:271-273 | at every point of a watcher's life its rows are numbered 1..n and are exactly the first LOG lines of the stream it reads |
| LifecycleResults.TerminalStability | control_plane/delegates/management/commands/stream_dispatcher.py:241-249 | a status that is terminal at a loop head is never changed by any later step, nor the rest of the row or the stored output, and no transfer is sent again |
| LifecycleResults.StoredExactly | control_plane/delegates/management/commands/stream_dispatcher.py:183-206 | on every run, SUCCEEDED has its path and a file; the recorded checksum is that file's hash iff no step of the run killed a SUCCEEDED execution's thread between opening the file and updating the row with bytes in it of another hash |
| LifecycleResults.TearRests | control_plane/delegates/management/commands/stream_dispatcher.py:191-195 | such a death is final: nobody is left to write the file or the row again |
| LifecycleResults.TornStore | control_plane/delegates/management/commands/stream_dispatcher.py:191-195 | for every number of bytes written, a reachable final state that is SUCCEEDED with the first output's checksum over that much of the second |
| LifecycleResults.ThreadFollowsHandlers | control_plane/delegates/management/commands/stream_dispatcher.py:235-277 | whatever is interleaved, a thread reads reply by reply in key order, each after finding the status not terminal, and at the head of its loop sees exactly what handling its messages one after another leads to |
| LifecycleResults.ThreadConverges | control_plane/delegates/management/commands/stream_dispatcher.py:235-277 | so in every interleaving, with no failure reported and one output handled, the row is SUCCEEDED with exactly that output once its end is handled, and not terminal before |
| LifecycleResults.DeletedForGood | control_plane/delegates/management/commands/stream_dispatcher.py:211-225 | after a watcher's cleanup and whatever follows, no entry that was on its streams is read again by any thread or worker |
| LifecycleProgress.HearsWhole | shared/delegate_protocol/chunked_transfer.py:131-181 | whatever it held before, a worker that hears one whole transfer uninterrupted is done with its payload |
| LifecycleProgress.GrantIsReceived | control_plane/delegates/management/commands/stream_dispatcher.py:80-133 | from any state with a request granted and a worker waiting, the steps of the two undisturbed leave the worker with the whole payload and the row TRANSFERRING with that transfer and one more attempt |
| LifecycleSteps.InvStep | control_plane/delegates/management/commands/stream_dispatcher.py:228-371 | every step of every participant keeps every invariant |
| WatcherTable.MainLoop.HandleAnnouncement | control_plane/delegates/management/commands/stream_dispatcher.py:334-369 | starts at most one thread, only for an execution in the DB with a delegate and no live watcher, on the streams the DB implies whatever was announced |
| WatcherTable.MainLoop.HandleReply | control_plane/delegates/management/commands/stream_dispatcher.py:325-371 | over a whole reply, with threads dying and the DB changing meanwhile, every announcement of an execution with a delegate finds a live watcher or starts one, no two live threads watch one execution, each new one is on streams derived from the DB as its announcement found it, and only live ones are left in the table |
| Confinement.Confined | control_plane/delegates/management/commands/stream_dispatcher.py:92-127 | in every run, every entry the dispatcher wrote for an execution is part of a whole transfer of its fixture, or of the one file asked for, on the events stream of the delegate the execution was created for, granted when asked for in that delegate's name, ACTIVE, still assigned, and of one tenant with request and execution; and only that delegate's Redis user can read it |
| Confinement.GrantedExactly | control_plane/delegates/management/commands/stream_dispatcher.py:88-121 | a watcher may grant a request exactly if the delegate named is the one assigned, ACTIVE, of one tenant with request and execution, and the file named is there or none is |
| Confinement.GrantedThen | control_plane/delegates/management/commands/stream_dispatcher.py:92-101 | each grant is a step of the run, made on the tables as they were at that step |
| Confinement.InvStep | control_plane/delegates/management/commands/stream_dispatcher.py:348-352 | requests, deletions, announcements, foreign writes and the dispatcher's own steps all keep the invariant behind it |
| StreamNames.ParseKey | shared/delegate_protocol/streams.py:19-26 | a stream key parses back to its delegate, execution and kind |
| StreamNames.ParsedIsKey | shared/delegate_protocol/streams.py:19-26 | anything that parses is the key of what it parses to |
| StreamNames.KeysInjective | shared/delegate_protocol/streams.py:12-26 | two stream keys are equal iff delegate, execution and kind are, and none is the global stream |
| StreamNames.PrefixCovers | shared/delegate_protocol/streams.py:15-26 | a delegate's prefix covers the streams of exactly that delegate, and not the global one |
| RedisAcl.RulesOverwrite | control_plane/delegates/redis_acl.py:57-64 | the rules leave exactly the delegate's user, whatever the user was before |
| RedisAcl.DelegateAccess | control_plane/delegates/redis_acl.py:57-64 | that user is on, with one password and just the listed commands; it reads and writes a stream iff it is the delegate's own, and may write but not read the announcements |
| RedisAcl.DelegateUserGroups | control_plane/delegates/redis_acl.py:30 | a name is delegate-shaped iff it is five groups of 8, 4, 4, 4 and 12 lower-case hex digits joined by dashes, with or without a final newline |
| RedisAcl.Reconcile | control_plane/delegates/redis_acl.py:91-106 | completes exactly if none of its commands raises, and then gives the table that matches the DB; cut off, it has issued just the commands before, and the table is on the way to the same end with no more drift than before |
| RedisAcl.ReconciledInSync | control_plane/delegates/redis_acl.py:91-106 | that table has no drift, fresh rules for every active delegate, and every other user untouched |
| RedisAcl.CutOffPass | control_plane/delegates/redis_acl.py:100-104 | any number of a pass's commands, however cut off, add no drift and do not change where a completed pass ends |
| RedisAcl.SecondPass | control_plane/delegates/redis_acl.py:91-106 | passing again changes only the passwords of active delegates |
| RedisAcl.FreshTwice | control_plane/delegates/redis_acl.py:57-64 | what two passes give a delegate differs only in the password |
| ControlPlane.Api.RegisterDelegate | control_plane/delegates/views.py:49-134 | whatever the state of the users: registers exactly when token, tenant, signing, provisioning and saving all hold; uses the token once; only an abort after provisioning makes Redis and the table disagree any more, by its own id |
| ControlPlane.Api.RevokeDelegate | control_plane/delegates/views.py:139-173 | the row is revoked whether or not the Redis user could be deleted; afterwards Redis and the table disagree about this delegate iff it still has a user, and as before about all others |
| ControlPlane.Api.CreateExecution | control_plane/delegates/views.py:178-217 | creates an execution exactly for an ACTIVE delegate of the requested tenant |
| ControlPlane.Api.ReconcileAll | control_plane/delegates/management/commands/stream_dispatcher.py:287-291 | whatever had become of the users, one completed pass settles every disagreement, and a cut-off one adds none |
| RestartGateway.Gateway.HandleHello | control_plane/delegates/management/commands/restart_gateway.py:57-69 | a claim is looked up iff it is the certificate's CN and not empty |
| RestartGateway.Gateway.Admit | control_plane/delegates/management/commands/restart_gateway.py:69-76 | a delegate found active enters the table under its CN, and nothing else changes |
| RestartGateway.Gateway.EndHandler | control_plane/delegates/management/commands/restart_gateway.py:77-80 | a handler's end removes its own entry and never a newer connection's |
| RestartGateway.Gateway.DisconnectDelegate | control_plane/delegates/management/commands/restart_gateway.py:94-101 | pops the delegate's own live socket, if there is one, and touches no other entry |
| RestartGateway.Gateway.SendRestart | control_plane/delegates/management/commands/restart_gateway.py:83-91 | goes to a live socket whose certificate is that delegate's |
| RestartGateway.SoundNext | control_plane/delegates/management/commands/restart_gateway.py:53-101 | every step of every coroutine keeps each entry a live socket whose certificate is that delegate's |
| RestartGateway.OnlyOwnEntryGoes | control_plane/delegates/management/commands/restart_gateway.py:77-101 | an entry goes only by its own handler's end or its delegate's disconnect, and is replaced only by a connection of the same CN |
| RestartGateway.RefusesExactly | control_plane/delegates/management/commands/restart_gateway.py:62-73 | a HELLO is refused iff its claim is empty or not the certificate's CN, and after a lookup iff that found no ACTIVE delegate |
| RestartGateway.RefusedForGood | control_plane/delegates/management/commands/restart_gateway.py:62-80 | whatever follows a refusal, no HELLO on that connection is looked up again, and it enters the table under no name |
| RestartGateway.RevokedComesBack | control_plane/delegates/management/commands/restart_gateway.py:69-75 | once a delegate is revoked and disconnected, some run lets it in again iff at that moment a handler had found it ACTIVE and not yet heard back |
| RestartGateway.RevokedSlipsIn | control_plane/delegates/management/commands/restart_gateway.py:69-75 | such a run |

## Left out

- Certificates, TLS, CSR signing, zip building and extraction, the filesystem and its
  path checks, Celery and Django internals: library calls. A payload is any byte sequence.
- SHA-256 and base64 themselves, and malformed fields of stream entries.
- Audit events, printing, and the LOG lines the worker writes: no effect on what is modelled.
- ACL SAVE, whose failure is swallowed; passwords are opaque; the DELEGATE_COMMANDS list is a parameter.
- Several dispatcher replicas sharing an execution's row, and interleavings inside one HTTP request, inside
  `reconcile`, or between the two queries of the ownership check.
- Exceptions other than from the executor, XREAD, the worker's output XADDs, SETUSER, DELUSER and row creation; a thread that
  dies of one is `Die` in the machine.
- ReceiveOnce: does not model deletion of the stream while it reads; `LifecycleResults.RecoverySafety` does.
- WatchExecution: handles one message as one step; the machine splits it between every two
  XADDs and between opening, writing and recording a file. The row vanishes between replies only.
- In the machine any DATA_REQUEST may be granted or refused; the check itself is
  `StreamDispatcher.HandleDataRequest`.
- Whether anything is delivered at all: no fairness is assumed, so nothing says a message is eventually read.
