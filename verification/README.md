# Proofs about ClearMoon

ClearMoon is a reactor-style network library. This project models the stateful algorithms under
its I/O and proves what they keep, over all runs where that makes sense. Check it with
`dafny verify dfyconfig.toml`.

The layout follows the library. Each stateful component has a model file, in which a step of the
C++ code is a function on values and a run is a sequence of steps, and a class file, in which the
code appears in its own form: fields, loops, arrays, updates in place. Every method of a class is
proved to do what the step function says; the properties are then proved about all runs of the
step functions.

| component | model and theorems | class |
|---|---|---|
| timers | `TimerModel`, `TimerInvariant`, `TimerTheorems`, `TimerSchedule`, `TimerCancel` | `TimerQueue.dfy` |
| event loop | `EventLoopModel` | `EventLoop.dfy` |
| HTTP parser | `HttpModel`, `HttpChunking`, `HttpRoundTrip`, `HttpAnswers` | `HttpContext.dfy` |
| connection output | `OutputModel`, `OutputStream` | `TcpConnection.dfy` |
| retransmission | `ConnectionModel`, `Retransmission`, `CrossThread`, `TimerService`, `Backoff` | `TcpConnection.dfy` |
| bounded queue | `BlockQueueModel` | `BlockQueue.dfy` |
| buffer | `BufferSizes`, `Endian`, `Octets` | `Buffer.dfy` |
| channels and epoll | `RegistrationModel` | `Registration.dfy` |

System calls, clocks, the allocator, the scheduler and user callbacks are arguments: short writes
and error codes, any later clock value, any free address, any interleaving, any sequence of calls
made by a callback.

Timers. The C++ code stores raw `Timer*` in two ordered sets, so the heap is explicit: a map from
addresses to live `Timer` objects. `delete` takes an address out, and the allocator may hand it
out again. Each dereference has the precondition that the address is alive (`Safe`). `handleRead`
is cut into steps, so that adds and cancels may come between any two callbacks and inside each.
Sequence numbers are taken to be unique (the counter at net/Timer.h:28 is not atomic), and one
clock is used for timestamps and timerfd (the code uses the realtime clock for one and the
monotonic clock for the other); any time may pass between the clock reading and
`timerfd_settime`. Consequences of the code that may surprise: a cancel stops a timer exactly if
it is active or its callback was already entered in the current batch, so one that overtakes the
queued `addTimerInLoop` is lost; and the destructor does not free timers whose `addTimerInLoop`
has not run.

Event loop. A call from another thread is several steps: the change under the lock and the write
to the eventfd, or, for `quit`, the test of the flag, its change and the write. `loop()` clears
`quit_` on entry, so a quit counts exactly if its change of the flag comes after that.

HTTP. `parse` is modelled with its three outcomes: false, true, and the exception that
`std::stoul` throws on a bad Content-Length. The comment at net/Http/HttpContext.h:27 says that
true means `kGotAll`; the code also returns true on a bad request line, and in no other case
(`TrueMeans`). The header name in the look-up at net/Http/HttpContext.cc:83 is compared
case-sensitively, and so it is here.
`HttpServer::onMessage` parses into a new request on each call; `FreshRequestIsExact` says exactly
when that is harmless, in terms of the bytes that the messages make up.

Connection. Runs are those of the loop thread, with callbacks that do not call back into the
connection. The timer service under retransmission is reduced to what `CancelStops` gives: a
cancelled timer does not fire any more, except once if it is already in the batch. `TimerService`
proves that every run of the timer queue is a run of that service. After `shutdown(SHUT_WR)` the
socket takes no byte, so a shutdown delivers what was given before it exactly if nothing was left
to write (the comment at net/TcpConnection.cc:537-538 expects the buffer to drain).
`onRetransmitTimeout` uses a reference to a map entry after a send that may have cleared the map
(net/TcpConnection.cc:572-584); each step that may do so carries a safety condition, and
`FireIsSafeExactly` says exactly when it is violated: the message is empty, the socket refuses it,
and the connection is shutting down with nothing left to write. On the loop thread alone that
never happens; it can happen between another thread's `shutdown()` or `forceClose()` and the
closure that it queues (`CrossThread`). The comments
at net/TcpConnection.cc:17-19 speak of 1000 ms and 10 s; the constants are used as 1 ms and 10 ms,
and that is what is modelled.

Channels. `epoll_ctl` follows its manual page for ADD, MOD and DEL on listed and unlisted
descriptors, and it is proved that no call fails for such a reason. `disableAll` is not
idempotent: on a channel that is not registered it registers it, with an empty mask.

Byte order. The conversions of net/Endian.h are modelled for hosts of either order. Those for 64
bits under _WIN32 convert the halves and leave them in place, so the bytes are not in network
order on a little-endian host; `HalvesWireFormatIsExact` says for which values they are. (The rest
of the library needs Linux, so that branch is not used by it.)

Where a property that one would expect is false, there is a lemma that names the condition under
which it holds, with an if and only if, and, beside it, an input for which it fails:

| property | holds iff | fails for |
|---|---|---|
| a cancelled timer does not run again | `CancelIsExact` | `CancelBeforeAddIsLost` |
| a quit ends the loop | `QuitBeforeLoopIsForgotten` | `EarlyQuitIsLost` |
| true from parse means a complete request | `TrueMeans` | `EmptyLineIsBad` |
| a request may arrive in several messages | `FreshRequestIsExact` | `SplitRequestIsLost` |
| a printed request line or target is read back | `RequestLineRoundTrip`, `UrlRoundTrip` | `QuestionMarkEndsPath` |
| a printed header field is read back | `FieldRoundTrip` | `EmptyValueIsNotReadBack` |
| a body of announced length is read | `AnnouncedBodyIsExact` | `OtherSpellingIsMissed` |
| sends keep the stream in order | `SendOrderIsExact` | `SendOvertakesFile` |
| so do files | `SendFileOrderIsExact` | `SecondFileReplacesFirst` |
| enough write events finish the output | `DeliveryIsExact` | `EmptyFileOnNewConnection` |
| what was given before a shutdown is delivered | `ShutdownDeliversExactly` | `ShutdownLosesPending` |
| a timeout uses an entry that exists (on the loop thread alone always: `LoopThreadRunsAreSafe`) | `FireIsSafeExactly` | `TimeoutOvertakesShutdown` |
| each message has one timer | `FreshnessIsExact` | `PendingNumberReused`, `AckedNumberReused` |
| a channel is registered iff it asks for something | `EmptyInterestIsExact` | `NewChannelDisabled` |

## Model

| member | source | states |
|---|---|---|
| TimerModel.InsertSpec | net/TimerQueue.h:53-65 | insertion into the set ordered by (expiration, address) adds exactly that element, keeps the order, and puts it first iff it is least |
| TimerModel.EraseSpec | net/TimerQueue.h:53-65 | erasing removes exactly that element, keeps the order, and never brings the first expiration forward |
| TimerInvariant.DueIsExact | net/TimerQueue.cc:195-199 | the sentinel's lower bound cuts the set exactly between expiration <= now and expiration > now |
| TimerInvariant.StepsAreSafe | net/TimerQueue.cc:92-261 | no step dereferences a timer that was deleted |
| TimerInvariant.StepKeeps | net/TimerQueue.cc:92-261 | every step keeps the invariant: both sets agree, each live timer has exactly one owner (posted, active, batch), each is freed once, runs are spaced |
| TimerInvariant.Reachable | net/TimerQueue.cc:92-261 | the invariant and safety of the next step hold after every run, also in the middle of a batch with re-entrant adds and cancels and reused addresses |
| TimerTheorems.RunningTimerSurvives | net/TimerQueue.cc:170-174 | whatever a callback does, its own Timer object stays alive and unchanged until it returns |
| TimerTheorems.FreedNeverRuns | net/TimerQueue.cc:125-148 | a deleted timer stays deleted and its callback is never invoked again, although its address may be reused |
| TimerTheorems.DestructorLeavesPosted | net/TimerQueue.cc:65-78 | the destructor frees every timer once, except exactly those whose addTimerInLoop has not run |
| TimerTheorems.CancelTouchesOnlyItsTimer | net/TimerQueue.cc:125-148 | in the step itself, a TimerId, stale or not, leaves the object, the ownership and the deferred cancel of every timer with another sequence number as they were |
| TimerCancel.DeletedOnlyIfCancelledOrSpent | net/TimerQueue.cc:218-253 | over any run, a timer was deleted only if a cancel with its own sequence number was made, or it is a one-shot that has run; so a stale key left in cancelligTimer_ never deletes another timer |
| TimerTheorems.CancelStops | net/TimerQueue.cc:125-148 | an active timer is freed and never runs again; one in the batch runs at most once more, only if not entered yet, and is freed when the batch ends; a posted one is not affected by the step |
| TimerCancel.PostedTimerRuns | net/TimerQueue.cc:80-112 | whatever else is registered or in progress, a posted timer has a run, with handleRead called only when the timerfd is readable, in which it is invoked exactly once more |
| TimerCancel.CancelIsExact | net/TimerQueue.cc:125-148 | for every reachable state and live timer: no later run invokes a cancelled timer again, iff it was active or its callback had been entered in the current batch |
| TimerCancel.CancelBeforeAddIsLost | net/TimerQueue.cc:80-90 | a run in which a timer runs after it was cancelled, because the cancel came before its addTimerInLoop |
| TimerTheorems.BatchIsExact | net/TimerQueue.cc:191-215 | a batch is exactly the timers due, in (expiration, address) order, and what remains in the set is later |
| TimerTheorems.WholeBatchRan | net/TimerQueue.cc:162-176 | when the callbacks of a batch are over, the latest runs are those of its timers, once each, in order |
| TimerTheorems.RunsAreSpaced | net/TimerQueue.cc:241-252 | over any run, a one-shot timer runs at most once, and two runs of a repeating one are in batches at least the whole microseconds of its interval apart |
| TimerSchedule.DueWhenOrdered | net/Timer.cc:13-25 | in every reachable state, a timer waiting in the queue is due at the time given to its addTimer call if it has not run, and otherwise at most its interval after the batch of its latest run, and less than a microsecond before that; its interval is the one given |
| TimerSchedule.RunsAnIntervalApart | net/TimerQueue.cc:241-247 | over any run, two runs of a timer are in batches an interval apart, less a microsecond, with the interval given to its addTimer call |
| TimerSchedule.BeginReadsTimerFd | net/TimerQueue.cc:154-160 | after handleRead has read it, the timerfd is not readable |
| TimerSchedule.FinishArmsFirst | net/TimerQueue.cc:255-260 | the timerfd is set for exactly the first expiration left, or 100 microseconds, plus the delay; without timers it is left alone |
| TimerSchedule.AddArmsIfFirst | net/TimerQueue.cc:99-111 | addTimer sets the timerfd, for exactly its own expiration, iff that is before all others |
| TimerTheorems.ArmedFor | net/TimerQueue.cc:35-49 | the relative time given to the kernel means the expiration, or 100 microseconds after the clock reading if that is later, plus the delay from that reading to timerfd_settime |
| TimerTheorems.NoLostExpiration | net/TimerQueue.cc:255-261 | whenever no batch is in progress and a timer is registered, the timerfd is set for no later than the earliest expiration or 100 microseconds after the clock reading, plus the delay from that reading to timerfd_settime, and readable from then on |
| TimerQueues.TimerQueue.constructor | net/TimerQueue.cc:55-63 | a new queue is the initial state and satisfies the invariant |
| TimerQueues.TimerQueue.ResetTimerFd | net/TimerQueue.cc:263-276 | changes nothing but the timerfd, as ResetTimerFd of the model |
| TimerQueues.TimerQueue.AddTimerInLoop | net/TimerQueue.cc:92-112 | the whole new state: both insertions, and re-arming only for a new earliest expiration |
| TimerQueues.TimerQueue.AddTimer | net/TimerQueue.cc:80-90 | returns an id with a sequence number never used before, and keeps the invariant, on the loop thread and elsewhere |
| TimerQueues.TimerQueue.CancelInLoop | net/TimerQueue.cc:125-148 | is the Cancel step and keeps the invariant |
| TimerQueues.TimerQueue.GetExpired | net/TimerQueue.cc:191-215 | the erasing loop takes exactly the batch's keys out of the active set, and the prefix out of timers_ |
| TimerQueues.TimerQueue.ResetOne | net/TimerQueue.cc:222-253 | one iteration: free a cancelled or one-shot timer, restart and reinsert a repeating one; keeps the invariant |
| TimerQueues.TimerQueue.Reset | net/TimerQueue.cc:218-261 | resets every timer of the batch, once each, then re-arms; invokes no callback |
| TimerQueues.TimerQueue.RunTimer | net/TimerQueue.cc:170-174 | exactly one run of exactly that timer is added, then the calls of its callback are made, and the batch is untouched |
| TimerQueues.TimerQueue.HandleRead | net/TimerQueue.cc:150-181 | for any behaviour of the callbacks it is a run of the model from Begin to Finish, in which exactly the timers due on entry run, once each, in order |
| TimerQueues.TimerQueue.Destroy | net/TimerQueue.cc:65-78 | the loop frees all registered timers; only the posted ones are left on the heap |
| EventLoopModel.StepKeeps | net/EventLoop.cc:48-101 | every step of any thread keeps the invariant on wakeups and on the order of tasks |
| EventLoopModel.NoLostWakeup | net/EventLoop.cc:162-201 | for any number of threads: when the loop is about to poll with a task queued, or asked to quit, the eventfd is readable or the thread responsible has yet to write |
| EventLoopModel.TasksRunOnceInOrder | net/EventLoop.cc:172-201 | executed, batch and queue together are always the sequence of pushes; when loop() has returned, everything pushed before the final swap has run |
| EventLoopModel.WokenLoopServes | net/EventLoop.cc:54-72 | with the eventfd readable, one turn runs everything queued, in order |
| EventLoopModel.AnyPosterServes | net/EventLoop.cc:190-201 | a loop asleep on queued tasks has a poster on its way, and the write of any one poster gets all of them run |
| EventLoopModel.QuitLoopReturns | net/EventLoop.cc:81-89 | a woken loop that was asked to quit returns after one turn, with everything pushed so far executed |
| EventLoopModel.QuitIsKept | net/EventLoop.cc:81-89 | over runs without another entry to loop(), quit_ is set iff it was set at the start or some quit has changed it since |
| EventLoopModel.QuitBeforeLoopIsForgotten | net/EventLoop.cc:51-54 | a quit ends the loop iff its change of the flag comes after the entry to loop(): at every check the loop goes to its final swap iff such a change lies between |
| EventLoopModel.EarlyQuitIsLost | net/EventLoop.cc:51-54 | a run in which a quit precedes loop() and the loop goes to sleep |
| EventLoops.EventLoop.Weakup | net/EventLoop.cc:92-101 | adds one to the counter unless it is full |
| EventLoops.EventLoop.QueueInThread | net/EventLoop.cc:190-201 | queues at the end and writes to the eventfd only inside doPendingFuncs |
| EventLoops.EventLoop.HandleWeakup | net/EventLoop.cc:162-170 | takes the whole count and keeps the invariant |
| EventLoops.EventLoop.DoPendingFuncs | net/EventLoop.cc:172-187 | runs exactly what was queued on entry, in order, whatever is queued and posted in the meantime |
| EventLoops.EventLoop.Loop | net/EventLoop.cc:48-78 | one check and one run over the batch for each turn; it returns at the first check that finds quit_ set and at no other; one turn executes everything queued before; on return everything pushed before the final swap has been executed |
| HttpModel.TurnsProgress | net/Http/HttpContext.cc:10-109 | each turn of the loop consumes bytes or moves to a later state, lexicographically, so parse terminates |
| HttpChunking.TurnExtend | net/Http/HttpContext.cc:10-109 | more bytes at the end change what a turn does only if it was waiting for them |
| HttpChunking.ParseExtend | net/Http/HttpContext.cc:6-112 | a parse that is over ignores later bytes; one that waits goes on as if it had had them from the start |
| HttpChunking.ChunkingIndependence | net/Http/HttpContext.cc:6-112 | any split of any input gives the verdict, state, request, response and unread bytes of one parse of the whole |
| HttpChunking.ParseStops | net/Http/HttpContext.cc:6-112 | after false, parsing again without new bytes changes nothing |
| HttpChunking.TrueMeans | net/Http/HttpContext.cc:27-35 | parse returns true without a complete request iff the next line is a request line that parseRequestLine rejects, and then the 400 response is filled in |
| HttpChunking.EmptyLineIsBad | net/Http/HttpContext.cc:27-35 | an empty line instead of a request line is consumed, and parse returns true in kExpectRequestLine |
| HttpChunking.UnfinishedWaits | net/Http/HttpContext.cc:41-103 | parse waits inside a request iff the bytes hold an acceptable request line but no blank line yet, or fewer bytes after it than Content-Length says |
| HttpChunking.HeadersEndAtBlankLine | net/Http/HttpContext.cc:54-63 | the header section is over iff some CRLF is followed by another one |
| HttpChunking.FreshRequestIsExact | net/Http/HttpServer.cc:32-39 | a new request per message gives what one kept request gives iff no message but the last ends between the request line and the end of the request, said of the bytes |
| HttpRoundTrip.SplitRequestIsLost | net/Http/HttpServer.cc:32-39 | every well-formed request whose first message ends after the request line is read with one kept request, and comes out without a method with a fresh one |
| HttpRoundTrip.MethodRoundTrip | net/Http/HttpContext.h:40-50 | methodToString and stringToMethod are inverse, on the invalid method too |
| HttpRoundTrip.UrlRoundTrip | net/Http/HttpContext.cc:137-147 | path and query are read back from the target iff the path has no question mark |
| HttpRoundTrip.RequestLineRoundTrip | net/Http/HttpContext.cc:114-159 | a printed request line is read back iff method and version are known, the path has no question mark and the target is not empty |
| HttpRoundTrip.FieldRoundTrip | net/Http/HttpContext.cc:65-76 | a printed header field is read back iff its name has no colon and its value is neither empty nor starts with a blank |
| HttpRoundTrip.HeadersRoundTrip | net/Http/HttpContext.cc:41-78 | a printed header section leaves exactly the map of its fields, later ones replacing earlier ones, and the right next state |
| HttpRoundTrip.BodyRoundTrip | net/Http/HttpContext.cc:80-103 | the body is the next Content-Length bytes, and not one more |
| HttpRoundTrip.AnnouncedBodyIsExact | net/Http/HttpContext.cc:80-103 | a body whose length is announced in any spelling of the field name is read iff the spelling is "Content-Length" or the body is empty; otherwise it stays in the buffer as the next request |
| HttpRoundTrip.OtherSpellingIsMissed | net/Http/HttpContext.cc:83-101 | for every other spelling, a POST whose three bytes are left unread |
| HttpRoundTrip.EmptyValueIsNotReadBack | net/Http/HttpContext.cc:69-75 | an empty value comes back as a blank |
| HttpRoundTrip.QuestionMarkEndsPath | net/Http/HttpContext.cc:137-143 | a question mark in the path moves its rest to the query |
| HttpRoundTrip.HeadRoundTrip | net/Http/HttpContext.cc:10-78 | a printed head is read up to the body, whatever the body |
| HttpRoundTrip.LengthRoundTrip | net/Http/HttpContext.cc:83-87 | the decimal form of every length that size_t holds is read back, and of no other |
| HttpRoundTrip.RequestRoundTrip | net/Http/HttpContext.cc:6-112 | parsing a printed well-formed request gives it back and leaves what follows it |
| HttpRoundTrip.PipelinedRoundTrip | net/Http/HttpContext.h:32-35 | k printed requests in one buffer come back as exactly those, in order, in k rounds of parse and reset, and the suffix is left |
| HttpAnswers.AcceptanceIsExact | net/Http/HttpContext.cc:114-159 | any line whatever is accepted iff it is one of the seven methods, a blank, a target, a blank and HTTP/1.1 or HTTP/1.0 |
| HttpAnswers.PartsAreRead | net/Http/HttpContext.cc:119-153 | such a line leaves that method, the parts of that target and that version in the request, whatever was there before |
| HttpAnswers.OthersAreRejected | net/Http/HttpContext.cc:125-156 | an unknown version and an unknown method are rejected |
| HttpAnswers.RejectedLineIsAnswered | net/Http/HttpContext.cc:27-35 | a rejected line is consumed, and the response is 400 with its body, text/plain, and the wish to close |
| HttpAnswers.HeaderLineIsRead | net/Http/HttpContext.cc:65-76 | any header line is divided at its first colon, all blanks and tabs before the value are dropped, a value of nothing else is kept, a line without a colon is dropped |
| HttpAnswers.StoulIsExact | net/Http/HttpContext.cc:86 | std::stoul on spaces, sign, digits and further text: the number up to 2^64 - 1, modulo 2^64 after a minus, the text ignored |
| HttpAnswers.StoulRefuses | net/Http/HttpContext.cc:86 | without digits there is no number |
| HttpAnswers.BadLengthThrows | net/Http/HttpContext.cc:83-86 | a length that is no number ends the parse with the exception and consumes nothing |
| HttpAnswers.BodyByMethod | net/Http/HttpContext.cc:54-103 | the bytes after the blank line: of POST, PUT and PATCH as many as Content-Length says are the body, and none without it; of GET, HEAD, DELETE and OPTIONS none are read |
| HttpContexts.HttpRequest.SetHeader | net/Http/HttpRequest.h:60-63 | adds or replaces one header and nothing else |
| HttpContexts.HttpRequest.Reset | net/Http/HttpRequest.h:74-82 | the request is as new |
| HttpContexts.HttpContext.ParseRequestLine | net/Http/HttpContext.cc:114-159 | result and request, including what is left in it after a failure |
| HttpContexts.HttpContext.TakeLine | net/Http/HttpContext.cc:16-25 | the line up to the first CRLF, which is consumed too; without one nothing changes |
| HttpContexts.HttpContext.TakeTurn | net/Http/HttpContext.cc:12-108 | one turn of the switch on context, buffer, request and response |
| HttpContexts.HttpContext.Parse | net/Http/HttpContext.cc:6-112 | the loop computes Parse of the model, to which the chunking and round-trip theorems apply |
| HttpContexts.HttpContext.ParseOne | net/Http/HttpContext.cc:6-112 | one round of parse and reset on a real Buffer returns the printed request and leaves what follows |
| HttpContexts.HttpContext.ParsePipelined | net/Http/HttpContext.cc:6-112 | the driver loop over one real Buffer returns the printed requests in order and leaves the suffix in the buffer |
| OutputModel.WriteMoves | net/TcpConnection.cc:376-446 | a write event moves bytes from what is left to the wire, in order, and what is left gets less unless nothing was accepted |
| OutputModel.SendAppends | net/TcpConnection.cc:271-309 | data sent while no file bytes are outstanding ends the stream, under any short write or error of write |
| OutputModel.SendOrderIsExact | net/TcpConnection.cc:271-309 | every send of n bytes goes to the end of the stream iff no file byte is outstanding or n is 0 |
| OutputModel.SendFileOrderIsExact | net/TcpConnection.cc:311-345 | starting a file keeps the stream in order iff no other file is unfinished |
| OutputModel.SendAnswers | net/TcpConnection.cc:271-309 | the whole outcome of a send, for each answer of the socket; a closed connection is left as it is |
| OutputModel.WriteAnswers | net/TcpConnection.cc:386-404 | the whole outcome of a write event with a buffer: EAGAIN (11) changes nothing, every other error and a write of no bytes closes, n bytes move, and the file goes on only behind an empty buffer |
| OutputModel.SendfileAnswers | net/TcpConnection.cc:407-446 | likewise for a chunk of the file |
| OutputModel.IdleWriteEvent | net/TcpConnection.cc:380 | without interest in writing, or with nothing to write, an event does nothing |
| OutputModel.ShutdownAnswers | net/TcpConnection.cc:525-541 | the write side is shut in any case, and the connection closed iff no write is pending |
| OutputModel.CloseAnswers | net/TcpConnection.cc:471-495 | an open connection is closed and its file dropped, a closed one left as it is |
| OutputModel.EnoughEventsDeliver | net/TcpConnection.cc:376-446 | as many progressing write events as bytes left put the whole stream on the wire and drop the interest in writing |
| OutputModel.EmptyFileIsNeverFinished | net/TcpConnection.cc:407-446 | an empty file stays unfinished, with EPOLLOUT asked for, after any sequence of write events |
| OutputModel.DeliveryIsExact | net/TcpConnection.cc:376-446 | as many progressing write events as bytes are left finish the output iff no empty file is being sent |
| OutputStream.StepConserves | net/TcpConnection.cc:271-446 | one step of an undisturbed connection adds exactly what it accepted to the stream |
| OutputStream.StreamIsConserved | net/TcpConnection.cc:271-446 | over runs: socket-accepted bytes, buffer and unsent file tail together are all data accepted, in order; pending output implies EPOLLOUT interest |
| OutputStream.SendOvertakesFile | net/TcpConnection.cc:271-309 | on a new connection, data sent after a file was started comes before all of its bytes |
| OutputStream.SecondFileReplacesFirst | net/TcpConnection.cc:337-341 | on a new connection, a second file makes the first one disappear from the stream |
| OutputStream.EmptyFileOnNewConnection | net/TcpConnection.cc:337-344 | a new connection that is given an empty file never finishes it |
| OutputStream.ShutdownDeliversExactly | net/TcpConnection.cc:525-541 | over all runs before and after: what was accepted before a shutdown is on the wire in full, in any later state, iff nothing was left to write when it came |
| OutputStream.ShutdownLosesPending | net/TcpConnection.cc:535-540 | one byte that the socket has not taken when shutdown is called never reaches the wire |
| OutputStream.ShutdownEndsSending | net/TcpConnection.cc:150-158 | after shutdown() the connection is not connected any more |
| OutputStream.NeverConnectedAgain | net/TcpConnection.cc:179-181 | over runs, a connection that is not connected stays so, and its send() is refused |
| OutputStream.ClosedTakesNothing | net/TcpConnection.cc:274 | over runs, nothing sent after a close reaches the wire or the buffer |
| Retransmission.StepKeeps | net/TcpConnection.cc:193-251 | each step of a connection keeps one timer per pending message and the bound on sends |
| Retransmission.RetransmissionIsBounded | net/TcpConnection.cc:566-585 | in every run of the loop thread, with fresh numbers (all its steps are safe, see LoopThreadRunsAreSafe): each pending message has exactly one timer that can fire for it, whose id it stores, and none is sent more than six times |
| Retransmission.AckedIsNeverSentAgain | net/TcpConnection.cc:223-251 | after its ack a message is never sent again, even if its timer is already in the batch |
| Retransmission.ReliableStarts | net/TcpConnection.cc:196-207 | a reliable send stores its data with no retries and a new timer, and sends it iff connected |
| Retransmission.EarlierTimeoutResends | net/TcpConnection.cc:582-584 | one of the first five timeouts sends exactly the data of that message again, counts the retry and starts a new timer |
| Retransmission.UnackedIsSentSixTimes | net/TcpConnection.cc:566-585 | for every message, a run without an ack in which it is sent six times with the connection open, and the next timeout closes it |
| Retransmission.LastTimeoutCloses | net/TcpConnection.cc:574-580 | the timeout after the last retry sends nothing, drops the entry, closes the connection and cancels all other entries |
| Retransmission.FireIsSafeExactly | net/TcpConnection.cc:572-584 | a timeout uses an entry that its send destroyed iff the message is empty, the socket refuses it, and the connection is shutting down with nothing left to write |
| Retransmission.LoopThreadRunsAreSafe | net/TcpConnection.cc:566-585 | in every run of the loop thread alone, every possible next step is safe: no timeout uses a destroyed entry |
| CrossThread.BoundedAcrossThreads | net/TcpConnection.cc:150-168 | one timer per pending message and at most 1 + kMaxRetries sends, also with shutdown and forceClose called by other threads |
| CrossThread.UnsafeOnlyWhileQueued | net/TcpConnection.cc:150-168 | a step uses a destroyed entry only while the closure of another thread's shutdown or forceClose is still queued |
| CrossThread.NonEmptyMessagesAreSafe | net/TcpConnection.cc:572-584 | with other threads too, every possible next step is safe in runs without an empty reliable message |
| CrossThread.TimeoutOvertakesShutdown | net/TcpConnection.cc:150-158 | a run in which another thread has called shutdown, its closure has not run, and the timeout of an empty message uses a destroyed entry |
| TimerService.StepServes | net/TimerQueue.cc:92-261 | each step of the timer queue arms, disarms, detaches or calls one-shot timers of a connection exactly as its service does |
| TimerService.RunServes | net/TimerQueue.cc:92-261 | every run of the timer queue, for any choice of one-shot timers, is a run of the service |
| TimerService.ServiceIsCovered | net/TcpConnection.cc:561-563 | whatever the service can do to a connection's timers, the connection model has a step for |
| TimerService.ConnectionServes | net/TcpConnection.cc:550-564 | every step of a connection acts on its timers as the service allows |
| Retransmission.FreshnessIsExact | net/TcpConnection.cc:193-216 | in every reachable state, one timer per message survives a reliable send iff its number is not pending and no timer in the batch is left from it |
| Retransmission.PendingNumberReused | net/TcpConnection.cc:205-206 | a second reliable send with a pending number leaves a timer without an entry |
| Retransmission.AckedNumberReused | net/TcpConnection.cc:205-206 | so does one with a number whose ack came while its timer was in the batch |
| Backoff.CapMonotone | net/TcpConnection.cc:36-48 | the cap min(base * 2^retries, max) never falls with more retries |
| Backoff.BackoffJitter | net/TcpConnection.cc:29-54 | the loop computes min(base * 2^retries, max) in 64 bits without overflow, and the jitter is the random number brought into the range from 0 to that |
| Backoff.RetransmissionDelays | net/TcpConnection.cc:17-19 | the caps with the constants of the code are 1, 2, 4, 8 and then 10 ms |
| TcpConnections.TcpConnection.CancelAll | net/TcpConnection.cc:503-511 | cancels the timer of every entry and no other |
| TcpConnections.TcpConnection.HandleClose | net/TcpConnection.cc:471-517 | closes once: file state reset, all retransmission entries and their timers gone; a second call changes nothing |
| TcpConnections.TcpConnection.ForceCloseInLoop | net/TcpConnection.cc:543-548 | closes an open connection, and does nothing to a closed one |
| TcpConnections.TcpConnection.ShutdownInLoop | net/TcpConnection.cc:525-541 | the write side is shut at once; the connection closes iff no write is pending |
| TcpConnections.TcpConnection.SendInLoop | net/TcpConnection.cc:271-309 | direct write, buffered remainder and EPOLLOUT over a real Buffer are the send of the model |
| TcpConnections.TcpConnection.SendFileInLoop | net/TcpConnection.cc:311-345 | the file becomes the one being sent, or the connection closes |
| TcpConnections.TcpConnection.DrainBuffer | net/TcpConnection.cc:386-404 | the first part of a write event: a prefix of the buffer moves to the wire |
| TcpConnections.TcpConnection.SendChunk | net/TcpConnection.cc:407-446 | the second part: one chunk of the file, and the end of the file |
| TcpConnections.TcpConnection.HandleWrite | net/TcpConnection.cc:376-446 | both parts together are the Writable step |
| TcpConnections.TcpConnection.ResetRetransmitTimer | net/TcpConnection.cc:550-564 | the entry's old timer is cancelled and a new one stored |
| TcpConnections.TcpConnection.SendWithRetransmit | net/TcpConnection.cc:193-216 | sends if connected, then stores the entry with a timer |
| TcpConnections.TcpConnection.AckReceived | net/TcpConnection.cc:223-251 | cancels the timer and drops the entry, if there is one |
| TcpConnections.TcpConnection.OnRetransmitTimeout | net/TcpConnection.cc:566-585 | all outcomes of a timeout: no entry, one more send, close; and whether the entry outlived the send |
| TcpConnections.TcpConnection.FireTimer | net/TcpConnection.cc:561-563 | the closure given to the timer queue is the Fire step, and it reports whether that step was safe |
| BlockQueueModel.StepKeeps | base/BlockQueue.cc:13-60 | every step under the lock, and every spurious wakeup, keeps the invariant |
| BlockQueueModel.NoLostWakeup | base/BlockQueue.cc:13-51 | a sleeping consumer means an empty unstopped queue, a sleeping producer a full unstopped one; with a positive bound not both sleep |
| BlockQueueModel.FirstInFirstOut | base/BlockQueue.cc:20-31 | delivered followed by queued is accepted, in order; an empty task is handed out only when stopped and drained |
| BlockQueueModel.StoppedAcceptsNothing | base/BlockQueue.cc:53-60 | after stop nothing more is accepted in any run |
| BlockQueueModel.StopIsFinal | base/BlockQueue.cc:53-60 | in every run with a call of stop, the queue is stopped and nobody sleeps from then on |
| BlockQueueModel.NothingIsAcceptedAfterStop | base/BlockQueue.cc:42 | in every run, nothing is accepted from the call of stop on |
| BlockQueueModel.StoppedHandsOutEmpty | base/BlockQueue.cc:16-20 | from a stopped and drained queue every call returns one empty task |
| BlockQueueModel.StopReleasesConsumer | base/BlockQueue.cc:16-20 | a consumer that waits when stop is called goes on and returns with an empty task |
| BlockQueueModel.StopReleasesProducer | base/BlockQueue.cc:37-42 | a producer that waits when stop is called goes on and returns, its task dropped |
| BlockQueueModel.SetMaxSizeIsExact | base/BlockQueue.h:27-33 | the bound is the one given, and sleeping producers go on iff the size is below it |
| BlockQueueModel.WakesOnEdges | base/BlockQueue.cc:25-50 | producers are woken iff the queue was full before a task was taken, consumers iff it was empty before one was added |
| BlockQueueModel.SizeIsBounded | base/BlockQueue.cc:37-40 | the size never exceeds the bound in runs that never lower it |
| BlockQueues.BlockQueue.GetTask | base/BlockQueue.cc:13-31 | waits, hands out the front, or hands out an empty task, each exactly when it should; keeps the invariant |
| BlockQueues.BlockQueue.AddTask | base/BlockQueue.cc:33-51 | waits, drops or appends, each exactly when it should; keeps the invariant |
| BlockQueues.BlockQueue.SetMaxSize | base/BlockQueue.h:27-33 | sets the bound and wakes the producers if there is room now |
| BlockQueues.BlockQueue.Stop | base/BlockQueue.cc:53-60 | sets stopped_ and wakes everybody; the queue itself is left |
| Buffers.FindCRLF | net/Buffer.cc:86-90 | the first CRLF, or none if there is none |
| Buffers.CopyForward | net/Buffer.cc:183 | a front-to-back copy to the left within one array moves the block intact though source and target overlap |
| Buffers.Buffer.EnsureWriteable | net/Buffer.cc:171-189 | room for len bytes, by growth or compaction, with the readable bytes unchanged |
| Buffers.Buffer.Append | net/Buffer.cc:104-118 | the readable bytes get the new ones at their end |
| Buffers.Buffer.Prepend | net/Buffer.cc:121-127 | the readable bytes get the new ones in front, without moving the others |
| Buffers.Buffer.Retrieve | net/Buffer.cc:92-99 | drops the first len readable bytes |
| Buffers.Buffer.Read | net/Buffer.cc:20-37 | returns and drops the first min(len, readable) bytes |
| Buffers.Buffer.PrependInt | net/Buffer.h:135-154 | puts the big-endian form of the integer in front, on hosts of either byte order |
| Buffers.Buffer.ReadUint | net/Buffer.cc:39-84 | takes a big-endian integer off the front, on hosts of either byte order |
| Buffers.Buffer.PrependThenRead | net/Buffer.h:135-154 | an integer prepended and read back is the same, and the content is as before |
| Buffers.Buffer.ReadFd | net/Buffer.cc:130-155 | what readv delivered is appended, across the end of the array too; an error changes nothing |
| Buffers.Buffer.WriteFd | net/Buffer.cc:159-167 | the accepted prefix and the rest make up the old content |
| Endian.WireFormat | net/Endian.h:70-72 | converting to network order and storing gives the most significant byte first on either kind of host; so at lines 33-35 and 49-51 for the other widths |
| Endian.WireValue | net/Endian.h:60-62 | loading wire bytes and converting gives their big-endian value on either kind of host; so at lines 25-27 and 42-44 |
| Endian.HalvesWireFormatIsExact | net/Endian.h:66-69 | under _WIN32 the 64-bit bytes are in network order iff the host is big-endian or both halves are equal |
| Endian.HalvesRoundTrip | net/Endian.h:56-59 | under _WIN32 too, a 64-bit value converted both ways is the same |
| Endian.ValueOfDigits | net/Endian.h:22-73 | writing a number in n bytes and reading it is the identity below 256^n |
| Endian.DigitsOfValue | net/Endian.h:22-73 | reading n bytes and writing the number is the identity |
| BufferSizes.NewBufferSpace | net/Buffer.cc:171-189 | over any history the array has at most 2 * (peak readable bytes) + 8 bytes |
| BufferSizes.CompactionMovesLeft | net/Buffer.cc:180-186 | compaction happens only with the data behind the header room, so the copy moves left |
| BufferSizes.RoomIsMadeExactly | net/Buffer.cc:171-189 | room is made by nothing, by moving the content back to the eight bytes, or by growing the array at its end, each exactly when it should |
| BufferSizes.EmptyBufferStartsOver | net/Buffer.cc:92-99 | a new buffer and one that was emptied have their indices at eight |
| RegistrationModel.InvokeOne | net/Channel.cc:52-77 | a call on a channel fails no assertion and no epoll_ctl, does what the one-channel view says, and changes the map and the kernel only at its own descriptor |
| RegistrationModel.StepKeeps | net/Poller/Epoller.cc:68-147 | every call, creation and destruction is safe and keeps the three views in agreement |
| RegistrationModel.RegistrationAgrees | net/Poller/Epoller.cc:68-147 | after any run: kAdded iff in ChannelMap_ iff in the kernel, with the channel and its mask; kAdded implies added_, which implies not kNew |
| RegistrationModel.KernelPointsToLiveChannels | net/Poller/Epoller.cc:151-160 | what epoll_wait hands back is a live channel of that descriptor |
| RegistrationModel.OwnCallsDecide | net/Channel.h:38-44 | over any run a channel's state depends only on the calls made on it, not on other channels |
| RegistrationModel.RegisteredByParity | net/Poller/Epoller.cc:80-120 | closed form: after the last remove or non-empty update, each empty update flips the registration |
| RegistrationModel.InterestIsLastAsked | net/Channel.h:38-44 | a bit of the mask is set iff the last call about it set it |
| RegistrationModel.EmptyInterestIsExact | net/Poller/Epoller.cc:108-112 | in every reachable state: after an update the kernel lists a channel exactly when it asks for something, iff it does ask or was listed before |
| RegistrationModel.DisableAllTogglesRegistration | net/Channel.h:44 | disableAll unregisters a registered channel and registers an unregistered one with an empty mask |
| RegistrationModel.NewChannelDisabled | net/Channel.h:44 | disableAll as the first call on a new channel lists it in the kernel with an empty mask |
| RegistrationModel.RemoveForgetsNothing | net/Channel.cc:52-67 | remove always unregisters; the old mask comes back with the next enable |
| Registration.Epoller.UpdateChannel | net/Poller/Epoller.cc:68-121 | no assertion fails, epoll_ctl succeeds, and the three views change as in the model |
| Registration.Epoller.RemoveChannel | net/Poller/Epoller.cc:128-147 | likewise for removal |
| Registration.Channel.SetEvents | net/Channel.cc:69-77 | any of the five mask calls is its step, keeps the agreement, and sets index_ and added_ as stated |
| Registration.Channel.EnableReading | net/Channel.h:38 | the channel reads and is registered |
| Registration.Channel.DisableReading | net/Channel.h:39 | reading is off and writing as before |
| Registration.Channel.EnableWriting | net/Channel.h:41 | the channel writes and is registered |
| Registration.Channel.DisableWriting | net/Channel.h:42 | writing is off and reading as before |
| Registration.Channel.DisableAll | net/Channel.h:44 | no interest is left, and the channel is registered iff it was not |
| Registration.Channel.Remove | net/Channel.cc:52-67 | the channel is in neither the map nor the kernel, whatever came before, and calling it again is harmless |
| Registration.Channel.Destroy | net/Channel.cc:19-22 | no view mentions the channel any more |

## Left out

- TimerQueues.TimerQueue.AddTimer: sequence numbers are unique by construction; the race on the non-atomic counter at net/Timer.h:28 is not modelled.
- TimerQueues.TimerQueue.HandleRead: Timer objects live in an explicit heap map and not as Dafny objects, because address reuse is the point; the order of deletion and reuse is kept, C++ destructors of callbacks are not modelled.
- TimerQueues.TimerQueue.ResetOne: time and sequence numbers are unbounded integers and intervals are reals, so int64 overflow and the rounding of `interval * 1000000` are not modelled; its truncation is, for the positive intervals that are converted.
- TimerTheorems.NoLostExpiration: one clock stands for CLOCK_REALTIME and CLOCK_MONOTONIC, and a clock that is set back is not modelled; the read of the timerfd and the clock reading of handleRead are one instant.
- EventLoops.EventLoop.Loop: runs for as many turns as it has scripts, since a loop that is never asked to quit does not end; the model's runs have no such bound, and the theorems are about those.
- EventLoops.EventLoop.QueueInThread: runInLoop calls a function directly on the loop thread, so this branch of queueInLoop is not reached from there; it is modelled all the same.
- HttpContexts.HttpContext.Parse: the exception of std::stoul is the third verdict; strings are sequences of characters without an encoding.
- HttpRoundTrip.PipelinedRoundTrip: RFC 9112 allows more than the printed form (other optional white space, chunked bodies, an absent Content-Length with other methods); the parser does not read those back and they are not printed.
- OutputStream.StreamIsConserved: states of a connection that closes in the run are not covered, since what is left is then dropped.
- TcpConnections.TcpConnection.HandleWrite: the third block, net/TcpConnection.cc:449-468, cannot be reached after the return at line 403 and is omitted; so is the idle timer.
- TcpConnections.TcpConnection.OnRetransmitTimeout: what the C++ code does after it has used a destroyed entry is undefined and not modelled; the call ends before that and says so, and runs of the model have no such step.
- TcpConnections.TcpConnection.HandleClose: the idle timer, the close callback and the removal of the channel are not part of its state; removal is modelled in Registration.
- TcpConnections.TcpConnection.SendFileInLoop: the content of a file does not change while it is sent; the previous descriptor, which the code does not close, is dropped; a failed fstat counts as a failed open.
- Backoff.BackoffJitter: for a base of 0 the loop counter, a signed int, must not overflow, hence the bound on retries; the random distribution is reduced to its range.
- Buffers.Buffer.ReadFd: return values are not narrowed to int, and the reserved capacity of the vector is not modelled.
- BlockQueues.BlockQueue.GetTask: a thread that waits is a value in the set of waiters, and its call is continued by another call when it has the lock again.
- Registration.Channel.SetEvents: epoll_ctl fails only for the reasons modelled (not for lack of memory or a closed descriptor), and channels alive together have different descriptors.
- User callbacks that re-enter the connection, connectDestroyed, and a close between the test and the change of the state in another thread's shutdown or forceClose: CrossThread takes the two as one step.
- handleEvent and the list of active channels: dispatch on the ready events.
- Buffer::retrieveUntil and the string variants of write and read: they are retrieve, append and read with other arguments.
- HttpResponse serialization and the rest of HttpServer: straight-line output without a parser to invert it.
- Socket, InetAddress, Acceptor, Connector and TcpClient: thin layers over system calls, which appear here only by their results.
- TcpServer, thread pools, EventLoopThread, latches and mutexes: thread plumbing.
- Logger and AsyncLogger: formatting and file output; append takes no lock, so conservation of log lines is not decided by the code.
