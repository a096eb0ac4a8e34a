# Verification of the wzy_threadPool web server

A Dafny model of the parts of the server in which the hard reasoning is: the worker pool on top of
the database connection pool, the asynchronous log on its blocking queue, the timer list, and the
resumable in-place HTTP parser with the header printer. `dafny verify dfyconfig.toml` checks the
whole project.

## What is modelled

**Pools** (`Counting`, `Locker`, `PoolMachine`, `PoolRequests`, `PoolSafety`, `PoolTheorems`, `PoolSizing`, `PoolSignals`,
`PoolCalls`).
Any number of producers in `append_job`, N workers in `run` and M connections. Every thread has a
program counter, and each lock, wait, post, test, push, pop and counter update is a step of its own;
a run is any sequence of steps that are possible. `process()` is one terminating step. Histories
record what was submitted, turned away, accepted, dispatched and processed. The unlocked
`connList.size()` in `getConnection` is an atomic read of a value that may be stale by the next
step. The theorems are about every reachable state, for all N, M, numbers of producers and queue
limits. Up to `PoolSizing` a semaphore wait ends only with a token. `PoolSignals` adds the waits that a
signal interrupts: the handlers of `server.cpp` are installed without SA_RESTART, and the result of
`sem::wait` is ignored, so a worker goes on without a token. `PoolCalls` has the two classes with their methods, each tied to the steps it stands for.

**Log** (`LogMachine`, `LogSafety`, `LogTheorems`, `LogDrops`, `LogOrder`, `LogCalls`, `BlockQueue`). Any number
of threads in `write_log` and of flush threads, interleaved at the same grain; `pthread_cond_wait`
releases the mutex and sleeps in one step, may return spuriously, and takes the mutex again before
it returns. The ring of `block_queue` with its start indices -1 is `BlockQueue.Ring`, and
`BlockQueue.BlockQueue` is the class on its array.

**Timers** (`TimerOrder`, `TimerList`, `TimerRuns`, `TimerEvents`). `TimerList` is the doubly linked
list on the heap, with the node sequence as ghost state; its methods are proved against the
functions of `TimerOrder`. `TimerRuns` is the event loop: accepts, activity, closes and ticks with a
clock that does not run backwards.

**HTTP** (`CString` to `HttpForm`). `HttpConn.HttpConn` is the parser on its 2048-character array,
with offsets for the pointers into it; every method is proved equal to the function of `HttpLine` or
`HttpMachine` that specifies it. `HttpReference` says on strings what the parser should compute, as
section 2.2 of RFC 9112 describes it (split at CR LF, fold over the lines); `HttpGrammar` says what
request lines, targets, header lines and numbers mean, in the characters that come over the wire and
without the functions that read them; and `HttpRefinement` and
`HttpTheorems` connect the two. `HttpChunks` is about delivery in pieces, `HttpCuts` about which
pieces do harm, in terms of the bytes, `HttpResponse` about the header printers, `HttpForm` about the
login form.

## Where the code surprises

Each of these is kept as the code has it, and stated with its exact condition.

- With fewer connections than workers a request can run with a null connection, and a worker that
  saw a connection in the unlocked size test can still block in `reserve.wait()`
  (`PoolSizing.ServedIffEnough`, `NullHappens`, `BlockingHappens`). The server's 8 and 8 are enough.
- A worker that goes on without a token finds the queue empty or takes a job early, and dispatch
  stays FIFO (`PoolSignals.DispatchSurvives`); in `getConnection` it takes the front of an empty list
  in some run if and only if there are fewer connections than workers, and not none
  (`PoolSignals.SignalsHarmlessIff`).
- The work queue holds up to `m_max_requests + 1` jobs, because the test is `>`.
- `write_log` tests `full()` and pushes in two critical sections, and ignores the result of `push`:
  messages are lost if and only if the log is asynchronous and more than one thread logs
  (`LogDrops.LosslessIffOneWriter`).
- `adjust_timer` looks at later timers only; it restores the order if and only if the timer does not
  expire before its predecessor (`TimerOrder.AdjustRestoresOrder`, `ListStaysSorted`).
- After an incomplete body `process_read` runs `parse_line` over the body and moves `m_check_idx`,
  so that `parse_content` then waits for more than there is. Chunks give the request that one delivery
  gives if and only if every cut inside the body leaves a part of it that starts with LF, or with CR
  not followed by LF (`HttpCuts.ChunkingIff`, `SafeCutIff`, `HttpTheorems.ServeIff`). A login form in
  any number of chunks is answered if and only if no cut is inside the form
  (`HttpForm.CutFormIsLost`).
- A bare CR or LF is LINE_BAD, and `process_read` answers NO_REQUEST: parsing just stops there. The
  branch of `parse_line` for an LF whose CR was seen earlier is never taken
  (`HttpMachine.ParseLineGood`).
- `http://host` without a slash makes `strchr` return a null pointer that `strncasecmp` then reads
  (`HttpGrammar.LineCrashesIff`); a Content-Length that is negative or close to the largest int is
  not refused (`HttpTheorems.ProcessRefines`). Undefined behaviour is the result `Fault` of the model
  (`Crash` of the reference), not a precondition.
- `cgi` and `m_string` are not reset by `init()` (`HttpTheorems.CgiMeansPostIff`).
- A read buffer that fills up makes `recv` return 0, which `read()` takes for a closed connection
  (`HttpConn.HttpConn.Read`).
- `add_headers` returns true whether or not the headers fitted (`HttpResponse.HeadersFitIff`).

GET_REQUEST in the model stands for the call of `do_request()`. Characters stand for bytes. `atol`
stops at the ends of a 64-bit long and its result is cut to 32 bits. The unsigned counters of the
connection pool are integers, and proved to stay between 0 and `m_maxConn` in every run without interrupted
waits, so that they do not wrap there.

## Model

| member | source | states |
|---|---|---|
| PoolSafety.InitInv | wzy_threadPool/CGImysql/sql_connection_pool.cpp:22-78 | after init and the constructor every connection is in the list once and every count is right, whatever the sizes |
| PoolSafety.StepInv | wzy_threadPool/threadpool/threadpool.h:80-136 | as long as waits end with a token, no step of any thread takes the front of an empty list, and every step keeps mutual exclusion, token accounting, FIFO history and the partition of the connections |
| PoolSafety.PopsAreSafe | wzy_threadPool/threadpool/threadpool.h:115-126 | as long as waits end with a token, a worker past wait() never finds the queue empty, and one past reserve.wait() never finds connList empty |
| PoolTheorems.DispatchIsFifo | wzy_threadPool/threadpool/threadpool.h:80-133 | in every reachable state dispatched ++ queued is what was accepted, in order; queue length is semaphore value plus tokens in transit; the queue never exceeds the limit by more than one; with no interrupted wait the branch for an empty queue is dead |
| PoolTheorems.RequestsAreConserved | wzy_threadPool/threadpool/threadpool.h:80-135 | every request append_job was called with is accepted, turned away or still offered, with one producer in that order; every dispatched one that is not null is processed, or on its way to process(), as often as it was dispatched; null requests never get there; turning away happens exactly when the queue is over its limit |
| PoolRequests.StepGrows | wzy_threadPool/threadpool/threadpool.h:80-135 | no step changes what was accepted, dispatched, turned away or processed before: these histories only grow at their ends |
| PoolTheorems.ConnectionsAreConserved | wzy_threadPool/CGImysql/sql_connection_pool.cpp:81-122 | each of the M connections is in the list or with exactly one worker, without duplicates; m_freeConn + m_curConn == m_maxConn, and with the lock free m_freeConn is the list length |
| PoolTheorems.StuckOnlyWhenDone | wzy_threadPool/threadpool/threadpool.h:109-136 | no deadlock for any N >= 1 and any M: no thread can step if and only if every worker waits for a job and every append_job has returned; then all accepted jobs are dispatched and, unless null, processed as often as accepted, and all connections are back |
| PoolTheorems.EveryRunIsShort | wzy_threadPool/threadpool/threadpool.h:80-136 | no livelock: a run with k calls of append_job has at most 25 k steps |
| PoolSizing.EnoughConnections | wzy_threadPool/CGImysql/sql_connection_pool.cpp:81-102 | with N <= M no worker in getConnection sees an empty list or blocks on reserve |
| PoolSizing.NeverNull | wzy_threadPool/CGImysql/sql_connection_pool.cpp:149-160 | with N <= M every request that is processed has a connection |
| PoolSizing.NullHappens | wzy_threadPool/CGImysql/sql_connection_pool.cpp:85-88 | with N > M some run makes getConnection return nullptr |
| PoolSizing.BlockingHappens | wzy_threadPool/CGImysql/sql_connection_pool.cpp:85-90 | with N > M > 0 some run blocks a worker in reserve.wait() after the size test |
| PoolSizing.ServedIffEnough | wzy_threadPool/server.cpp:133-141 | getConnection never returns nullptr and never blocks in any run if and only if there are at least as many connections as workers |
| PoolSafety.StepKept | wzy_threadPool/threadpool/threadpool.h:80-136 | mutual exclusion, FIFO history, at least one token per job and per connection, and the partition of the connections are kept by every step, even after interrupted waits |
| PoolTheorems.StuckIsDone | wzy_threadPool/threadpool/threadpool.h:109-136 | from that weaker invariant alone: stuck states are exactly the parked ones, with all jobs dispatched and processed and all connections back |
| PoolSignals.DispatchSurvives | wzy_threadPool/threadpool/threadpool.h:115-126 | with interrupted waits, in every reachable state: FIFO and exactly once, every request accounted for up to process(), no job without a token on its way, connections conserved, and the only step that can fault takes the front of an empty connection list |
| PoolSignals.StuckStillMeansDone | wzy_threadPool/threadpool/threadpool.h:109-136 | with interrupted waits, too, everything stops if and only if all is processed and returned |
| PoolSignals.EveryRunStaysShort | wzy_threadPool/threadpool/threadpool.h:115-122 | an interrupted wait costs at most 19 steps, so there is no livelock |
| PoolSignals.FaultHappens | wzy_threadPool/CGImysql/sql_connection_pool.cpp:90-95 | with 0 < M < N some run with an interrupted reserve.wait() pops the empty connection list |
| PoolSignals.SignalsHarmlessIff | wzy_threadPool/server.cpp:189-190 | interrupted waits make no run fault if and only if there are at least as many connections as workers, or none |
| PoolCalls.AppendAlone | wzy_threadPool/threadpool/threadpool.h:80-96 | the steps of an uninterrupted append_job add up to accepting at the back with one token more, or to rejecting with nothing changed |
| PoolCalls.TakeAlone | wzy_threadPool/threadpool/threadpool.h:115-126 | the steps of an undisturbed worker up to the unlock add up to taking the oldest job and one token, or through the branch for an empty queue back to the wait |
| PoolCalls.GetAlone | wzy_threadPool/CGImysql/sql_connection_pool.cpp:81-102 | the steps of getConnection add up to nullptr with nothing changed on an empty list, else to the first connection and all counters moved by one |
| PoolCalls.PutAlone | wzy_threadPool/CGImysql/sql_connection_pool.cpp:105-122 | the steps of releaseConnection add up to the connection at the back and all counters moved back; nullptr changes nothing |
| PoolCalls.NewThreadPool | wzy_threadPool/threadpool/threadpool.h:38-69 | the constructor throws exactly for a thread number or a limit below 1 or when a thread cannot be started, and otherwise leaves an empty queue and no token |
| PoolCalls.ThreadPool.AppendJob | wzy_threadPool/threadpool/threadpool.h:80-96 | accepts exactly while the queue is not over the limit, puts the request it is given at the end, and keeps one token per job |
| PoolCalls.ThreadPool.TakeJob | wzy_threadPool/threadpool/threadpool.h:115-126 | a worker that got a token gets the oldest job |
| PoolCalls.ConnectionPool.constructor | wzy_threadPool/CGImysql/sql_connection_pool.cpp:22-78 | after init the M connections are in the list, all free |
| PoolCalls.ConnectionPool.GetConnection | wzy_threadPool/CGImysql/sql_connection_pool.cpp:81-102 | nullptr exactly when all connections are out; else the first of the list, with list, counters and semaphore in step |
| PoolCalls.ConnectionPool.ReleaseConnection | wzy_threadPool/CGImysql/sql_connection_pool.cpp:105-122 | the connection goes to the back of the list, counters and semaphore follow; nullptr is refused and changes nothing; a connection that was never taken breaks the counters, m_curConn wrapping |
| PoolCalls.ConnectionPool.WithConnection | wzy_threadPool/CGImysql/sql_connection_pool.cpp:149-160 | the scope of a connectionRAII leaves the pool as it was, but for the used connection having moved to the back |
| BlockQueue.PushAppends | wzy_threadPool/log/block_queue.h:174-195 | push appends to the contents, through wraparound and from -1, or changes nothing on a full queue |
| BlockQueue.PopTakesFirst | wzy_threadPool/log/block_queue.h:198-217 | pop takes the first of the contents and leaves the rest in order |
| BlockQueue.RingIsFifo | wzy_threadPool/log/block_queue.h:93-217 | any sequence of push, pop and clear is answered as by a bounded FIFO queue |
| BlockQueue.NewBlockQueue | wzy_threadPool/log/block_queue.h:67-79 | the process exits exactly for a capacity below 1; otherwise an empty queue of that capacity |
| BlockQueue.BlockQueue.Push | wzy_threadPool/log/block_queue.h:175-195 | on the array: appends and succeeds exactly when the queue is not full, else nothing changes |
| BlockQueue.BlockQueue.Pop | wzy_threadPool/log/block_queue.h:212-216 | on the array: hands out the oldest element |
| BlockQueue.BlockQueue.Clear | wzy_threadPool/log/block_queue.h:93-100 | empties the queue, whatever its indices were |
| BlockQueue.BlockQueue.Full | wzy_threadPool/log/block_queue.h:103-113 | tells whether the contents fill the capacity |
| BlockQueue.BlockQueue.Size | wzy_threadPool/log/block_queue.h:155-162 | the number of elements |
| LogSafety.StepInv | wzy_threadPool/log/log.cpp:159-189 | no step of a writer or flush thread reads an empty queue or stores into a full one, and each keeps mutual exclusion, the wakeup invariant, conservation and order |
| LogTheorems.NoLostWakeup | wzy_threadPool/log/block_queue.h:175-217 | with any number of threads and with spurious returns: a thread asleep in pop implies an empty queue or a writer that is about to broadcast; whoever leaves the wait loop finds an item; the capacity holds; items leave in push order |
| LogTheorems.LogConserves | wzy_threadPool/log/log.cpp:178-189 | every message is in the file, the queue, threads' hands or the drops exactly as often as it was logged, so never in file and queue more often; with one writer, or no queue, nothing is dropped |
| LogTheorems.FileFollowsPushOrder | wzy_threadPool/log/log.h:68-80 | with the one flush thread, queued lines of the file ++ the item in its hand ++ the queue is what was pushed, in order |
| LogTheorems.StuckOnlyWhenFlushed | wzy_threadPool/log/block_queue.h:198-217 | everything stops if and only if every write_log has returned and every flush thread sleeps; then the queue is empty and each message is in the file as often as it was logged, less the drops |
| LogTheorems.EveryRunIsShort | wzy_threadPool/lock/locker.h:113-139 | no livelock: the number of steps is bounded by the calls of write_log and the spurious wakeups |
| LogDrops.DropHappens | wzy_threadPool/log/log.cpp:178-181 | with two writers and any capacity some run drops a message |
| LogDrops.LosslessIffOneWriter | wzy_threadPool/log/log.cpp:178-189 | no run loses a message if and only if the log is synchronous or at most one thread logs |
| LogOrder.OneWriterInOrder | wzy_threadPool/log/log.cpp:178-189 | what one thread logs goes, in the order of its calls, to the end of the queue or of the file |
| LogOrder.SyncFileIsLog | wzy_threadPool/log/log.cpp:182-189 | the file of a synchronous log that one thread writes is what it logged, in order, but for the message it is still carrying |
| LogOrder.StepGrows | wzy_threadPool/log/log.cpp:159-189 | no step changes a line that is in the file, or what was logged, pushed, popped or dropped before |
| LogOrder.WriteAlone | wzy_threadPool/log/log.cpp:159-189 | the steps of an undisturbed write_log add up to the message at the end of the queue if the log is asynchronous and the queue has room, else at the end of the file |
| LogOrder.FlushAlone | wzy_threadPool/log/log.h:72-79 | the steps of an undisturbed round of the flush thread move the oldest message to the end of the file |
| LogCalls.Log.constructor | wzy_threadPool/log/log.cpp:25-36 | asynchronous exactly for a maximal queue size of at least 1, which is then the capacity |
| LogCalls.Log.WriteLog | wzy_threadPool/log/log.cpp:178-189 | the message goes to the end of the queue if the log is asynchronous and the queue has room, else to the end of the file |
| LogCalls.Log.FlushOne | wzy_threadPool/log/log.h:72-79 | a round of the flush thread moves the oldest message to the file and keeps file ++ queue |
| LogCalls.Log.Drain | wzy_threadPool/log/log.h:68-80 | left alone, the flush thread moves the whole queue to the file in order |
| TimerOrder.InsertKeepsOrder | wzy_threadPool/timer/lst_timer.cpp:142-169 | a new timer goes behind exactly those that expire no later, and the list stays ascending |
| TimerOrder.AdjustRestoresOrder | wzy_threadPool/timer/lst_timer.cpp:37-65 | adjust_timer restores the order if and only if the timer was first or does not expire before its predecessor |
| TimerOrder.AdjustMovesOne | wzy_threadPool/timer/lst_timer.cpp:37-65 | adjust_timer moves only that timer, only backwards, past exactly the timers that expire no later, equals included |
| TimerOrder.DueIsExact | wzy_threadPool/timer/lst_timer.cpp:119-138 | on an ascending list the timers tick takes are exactly those with expire <= cur |
| TimerOrder.ListStaysSorted | wzy_threadPool/timer/lst_timer.cpp:14-169 | over any sequence of add, adjust, del and tick the list is ascending all the time if and only if no timer is adjusted to before its predecessor |
| TimerList.SortTimerList.AddTimer | wzy_threadPool/timer/lst_timer.cpp:14-35 | the linked list stays acyclic and consistent, with the node inserted at the specified position and no other moved; tail is right even after a tick left it stale |
| TimerList.SortTimerList.AddAfter | wzy_threadPool/timer/lst_timer.cpp:142-169 | the walk that starts in the middle of the list inserts before the first later timer |
| TimerList.SortTimerList.AdjustTimer | wzy_threadPool/timer/lst_timer.cpp:37-65 | the same for taking a node out and inserting it again behind its successor |
| TimerList.SortTimerList.DelTimer | wzy_threadPool/timer/lst_timer.cpp:67-105 | exactly that node leaves, in all four cases of its position, and the links stay consistent |
| TimerList.SortTimerList.Tick | wzy_threadPool/timer/lst_timer.cpp:107-139 | removes the due prefix, calls back each of its connections once in list order, leaves the rest linked and in order, and terminates |
| TimerEvents.AcceptConnection | wzy_threadPool/server.cpp:263-269 | a new connection's timer is in the list at now + 3 TIMESLOT, at its place in the order |
| TimerEvents.RefreshTimer | wzy_threadPool/server.cpp:337-343 | read and write activity sets expire to now + 3 TIMESLOT and moves that timer, and nothing else, to its new place |
| TimerEvents.CloseConnection | wzy_threadPool/server.cpp:345-352 | a connection that fails is closed and exactly its timer leaves the list |
| TimerEvents.TimerHandler | wzy_threadPool/timer/lst_timer.cpp:107-139 | the alarm closes the connections of the due timers, once each in list order, and leaves the others |
| TimerEvents.EventsAreHandled | wzy_threadPool/server.cpp:324-381 | with one timer for each connection, what these calls leave in the list is what the events of a run do to it |
| TimerRuns.HandleMirrors | wzy_threadPool/server.cpp:324-381 | each event keeps the list equal to the reference list of least recently active connections |
| TimerRuns.ListIsLru | wzy_threadPool/server.cpp:266-269 | over any run list order is least-recently-active order |
| TimerRuns.IdleBound | wzy_threadPool/server.cpp:382-385 | for any gap, with ticks at most gap apart no listed connection has been idle for 3 TIMESLOT + gap, so 4 TIMESLOT with a tick every TIMESLOT |
| TimerRuns.TickClosesIdle | wzy_threadPool/timer/lst_timer.cpp:107-139 | after any run a tick closes exactly the connections idle for at least 3 TIMESLOT |
| HttpMachine.ParseLineGood | wzy_threadPool/http/http_conn.cpp:162-205 | parse_line ends a line only at the first CR LF, overwrites just these two bytes, passes no other CR or LF, and never takes the branch for an LF after an earlier CR |
| HttpMachine.Loop | wzy_threadPool/http/http_conn.cpp:381-439 | process_read terminates, keeps 0 <= m_start_line <= m_check_idx <= m_read_idx <= buffer size, and never moves backwards |
| HttpMachine.ContentNul | wzy_threadPool/http/http_conn.cpp:370-375 | the NUL behind a body is written no further than m_read_idx |
| HttpMachine.ProcessUntouched | wzy_threadPool/http/http_conn.cpp:381-439 | process_read changes no byte at or behind m_read_idx, but for that NUL, and that only with a result |
| HttpChunks.ParseLineFeed | wzy_threadPool/http/http_conn.cpp:162-205 | more input does not change a line that is complete or bad, and an open line is resumed as if there had been no break |
| HttpChunks.OnRequestLineFeed | wzy_threadPool/http/http_conn.cpp:239-314 | the in-place rewriting of a request line, "/" to "/judge.html" included, neither reads nor writes at or after m_check_idx |
| HttpChunks.HeaderPhaseFeed | wzy_threadPool/http/http_conn.cpp:381-439 | up to the end of the headers no cut makes a difference |
| HttpChunks.Resume | wzy_threadPool/http/http_conn.cpp:381-439 | a call that asks for more is resumed by the next as if all bytes had come at once |
| HttpChunks.Stop | wzy_threadPool/http/http_conn.cpp:381-439 | a call that has a result has the one that all bytes at once would give |
| HttpChunks.ChunkingIndependence | wzy_threadPool/http/http_conn.cpp:208-237 | until the first result, bytes in any chunks of which none ends harmfully inside a body give the result, state, indices and fields of one delivery |
| HttpChunks.BodyCutIff | wzy_threadPool/http/http_conn.cpp:368-438 | a body cut in two gives what one delivery gives if and only if its first part starts with a byte that stops parse_line |
| HttpCuts.ChunkingIff | wzy_threadPool/http/http_conn.cpp:381-439 | for every list of chunks: where one delivery gives a request, the chunks give that request, state, indices and fields if and only if every cut is clean; and any request at all only then, if the message ends with its body |
| HttpCuts.CleanCutIff | wzy_threadPool/http/http_conn.cpp:370-377 | for a fresh connection and NUL-free bytes the condition on the parser is the condition on the bytes: no incomplete body, or a part of it that parse_line cannot get past, or an end that overflows |
| HttpCuts.SafeCutIff | wzy_threadPool/http/http_conn.cpp:370-387 | in terms of the whole message: a cut is safe unless it is strictly inside the body and leaves a part there that parse_line gets past |
| HttpCuts.OutsideIsSafe | wzy_threadPool/http/http_conn.cpp:381-439 | chunks that do not end strictly inside the body are safe; for a message without body any chunks are |
| CString.EqNoCaseIs | wzy_threadPool/http/http_conn.cpp:253-280 | strcasecmp takes two texts for equal if and only if they differ at most in the case of ASCII letters |
| CString.SaturateIsNearest | wzy_threadPool/http/http_conn.cpp:348-348 | a number beyond a 64-bit long becomes the end of the long that is nearest |
| CString.ToInt32Wraps | wzy_threadPool/http/http_conn.cpp:348-348 | the int differs from the long by a multiple of 2 to the 32 |
| HttpReference.FirstLineDecides | wzy_threadPool/http/http_conn.cpp:381-439 | without a first line nothing is answered; a refused one refuses the request; behind an accepted one the header lines are folded in, starting without host, length and linger |
| HttpReference.BodyIffLength | wzy_threadPool/http/http_conn.cpp:320-330 | a body is expected exactly behind headers with a length other than 0 |
| HttpGrammar.ConnectionMeans | wzy_threadPool/http/http_conn.cpp:332-342 | Connection: in any case, any spaces and tabs, and a value sets linger if and only if the value is keep-alive in any case |
| HttpGrammar.ContentLengthMeans | wzy_threadPool/http/http_conn.cpp:344-349 | Content-Length: in any case and any spaces and tabs set the length to what atol makes of the value |
| HttpGrammar.HostMeans | wzy_threadPool/http/http_conn.cpp:351-356 | Host: in any case and any spaces and tabs set the host to the value |
| HttpGrammar.OtherHeaders | wzy_threadPool/http/http_conn.cpp:357-362 | a line that starts with none of the three names changes nothing |
| HttpGrammar.HeaderParts | wzy_threadPool/http/http_conn.cpp:332-356 | every line that starts with one of the names is name, blanks and a value without leading blanks |
| HttpGrammar.AtolMeans | wzy_threadPool/http/http_conn.cpp:348-348 | white space, a sign or none, leading zeros, digits, and anything behind them give the number, saturated to a long and cut to an int |
| HttpGrammar.AtolOfNoNumber | wzy_threadPool/http/http_conn.cpp:348-348 | a value without digits gives 0 |
| HttpReference.HeadersComplete | wzy_threadPool/http/http_conn.cpp:317-349 | header lines and an empty line, whatever follows, are read to their end as the fold over the lines |
| HttpReference.HeadersSound | wzy_threadPool/http/http_conn.cpp:317-363 | the end of the headers is reached only through header lines and an empty line, all ended by CR LF |
| HttpReference.AcceptedIff | wzy_threadPool/http/http_conn.cpp:381-439 | do_request or the body is reached if and only if the input is an accepted request line, header lines and an empty line |
| HttpGrammar.ShapeDecides | wzy_threadPool/http/http_conn.cpp:239-283 | a line of GET or POST, spaces and tabs, target, spaces and tabs, HTTP/1.1, in upper or lower case, is judged by its target alone |
| HttpGrammar.OtherShapesRejected | wzy_threadPool/http/http_conn.cpp:239-283 | a line of any other shape is rejected |
| HttpGrammar.AbsoluteFormIsPath | wzy_threadPool/http/http_conn.cpp:285-309 | a target of http:// or https:// in any case, a host and a path means the path, and "/" means /judge.html; without a path the first reads a null pointer and the second is refused |
| HttpGrammar.OtherTargets | wzy_threadPool/http/http_conn.cpp:285-309 | a target without scheme is accepted if and only if it starts with a slash |
| HttpGrammar.VerdictIgnoresCase | wzy_threadPool/http/http_conn.cpp:252-300 | method, scheme and version may be written in any case: the verdict is the same |
| HttpGrammar.LineCrashesIff | wzy_threadPool/http/http_conn.cpp:285-294 | a null pointer is read exactly on well-formed lines whose target is http:// followed by no slash |
| HttpGrammar.CrashIff | wzy_threadPool/http/http_conn.cpp:285-294 | of all targets exactly those with http:// and no slash behind it lead to the null pointer |
| HttpRefinement.RequestLineRefines | wzy_threadPool/http/http_conn.cpp:239-314 | parse_request_line in place has the verdict, method and target of the reference; the target string ends inside the line, after the rewrite too, and m_version shows an accepted version unless the start page is written over it |
| HttpRefinement.LineRefines | wzy_threadPool/http/http_conn.cpp:162-205 | parse_line hands out exactly the pieces of the original bytes between CR LFs |
| HttpRefinement.HeadersRefine | wzy_threadPool/http/http_conn.cpp:317-363 | from between two header lines, code, state, m_host, m_content_length and m_linger at the end of the headers are those of the fold |
| HttpRefinement.ParserRefines | wzy_threadPool/http/http_conn.cpp:381-439 | for every NUL-free input the header phase of a fresh connection ends as "split at CR LF and fold" does, with the same fields |
| HttpTheorems.ProcessRefines | wzy_threadPool/http/http_conn.cpp:381-439 | the same for process_read, in every case: the body is m_string exactly when it has arrived in full; a longer one is waited for unless length plus the end of the last complete line overflows; a negative length is answered unless its NUL falls before the buffer |
| HttpTheorems.ServeRefines | wzy_threadPool/http/http_conn.cpp:208-237 | all of these answers for any chunks with safe cuts, a condition on the bytes |
| HttpTheorems.ServeIff | wzy_threadPool/http/http_conn.cpp:208-237 | the converse on the bytes: chunks give the request of one delivery if and only if all their cuts are safe |
| HttpTheorems.ServeCgi | wzy_threadPool/http/http_conn.cpp:257-261 | in a request that safe chunks make, cgi is set exactly by POST or by an earlier request |
| HttpTheorems.HeadersRoundTrip | wzy_threadPool/http/http_conn.cpp:738-759 | headers printed by add_headers for any int and either flag, read in header state by the in-place parser, give back the length and the flag and end the header phase: GET_REQUEST for 0, body state otherwise |
| HttpTheorems.CgiMeansPostIff | wzy_threadPool/http/http_conn.cpp:142-160 | cgi tells POST from GET for every input if and only if it was not left set by an earlier request |
| HttpTheorems.InitIsFresh | wzy_threadPool/http/http_conn.cpp:142-160 | init leaves the connection that the theorems start from, whatever the previous request left |
| HttpConn.HttpConn.Init | wzy_threadPool/http/http_conn.cpp:142-160 | all parser fields and the read buffer are reset, cgi and m_string are not |
| HttpConn.HttpConn.Read | wzy_threadPool/http/http_conn.cpp:208-237 | succeeds exactly when everything that arrived fits with room to spare and recv then would block; in any case what fits has been appended, and nothing else changed |
| HttpConn.HttpConn.ParseLine | wzy_threadPool/http/http_conn.cpp:162-205 | the loop over the array is parse_line of the model |
| HttpConn.HttpConn.ParseRequestLine | wzy_threadPool/http/http_conn.cpp:239-314 | in place on the array, all fields and every byte are those of the model |
| HttpConn.HttpConn.ParseHeaders | wzy_threadPool/http/http_conn.cpp:317-363 | sets the one field the line is about, or ends the headers, as the model says |
| HttpConn.HttpConn.ParseContent | wzy_threadPool/http/http_conn.cpp:368-378 | writes the NUL behind a complete body and hands it over, as the model says |
| HttpConn.HttpConn.ProcessRead | wzy_threadPool/http/http_conn.cpp:381-439 | the loop terminates with the state and result of the model |
| HttpResponse.AtolDecimal | wzy_threadPool/http/http_conn.cpp:348-348 | atol reads back any int that %d printed |
| HttpResponse.PrintedHeadersRead | wzy_threadPool/http/http_conn.cpp:317-349 | the reference reads printed headers back, whatever follows them |
| HttpResponse.HeadersFitIff | wzy_threadPool/http/http_conn.cpp:738-759 | add_headers has appended its whole text if and only if that leaves at least two bytes of the buffer free |
| HttpResponse.HeadersFit | wzy_threadPool/http/http_conn.cpp:703-744 | with at most 969 bytes before them the headers fit, for every length and flag |
| HttpResponse.HeadersLiterally | wzy_threadPool/http/http_conn.cpp:738-759 | the printed headers, character by character |
| HttpResponse.ResponseBuffer.AddStatusLine | wzy_threadPool/http/http_conn.cpp:733-736 | HTTP/1.1, the status in decimal, the title and CR LF are appended whole or not at all |
| HttpResponse.ResponseBuffer.Init | wzy_threadPool/http/http_conn.cpp:155-157 | the write buffer is empty and all NUL |
| HttpResponse.ResponseBuffer.AddResponse | wzy_threadPool/http/http_conn.cpp:703-731 | the text is appended whole with its NUL, or the index stays where it is, and the result tells which; a text that does not fit leaves its first characters and a NUL behind the index |
| HttpResponse.ResponseBuffer.AddHeaders | wzy_threadPool/http/http_conn.cpp:738-759 | three responses one after the other, each appended or not for itself; with room for all, exactly the three lines of text; the result is always true |
| HttpForm.FieldsByPosition | wzy_threadPool/http/http_conn.cpp:465-479 | the loops go by position: any 5 characters, the name up to the first &, any 9 characters, the password to the end, if and only if both are shorter than 100 |
| HttpForm.FormRoundTrip | wzy_threadPool/http/http_conn.cpp:465-479 | the loops recover name and password from user=NAME&password=PASS if and only if both are shorter than their arrays; otherwise they leave the array |
| HttpForm.ExtractCredentials | wzy_threadPool/http/http_conn.cpp:466-479 | the two loops on the arrays give exactly the specified name and password, and nothing exactly where they would leave an array |
| HttpForm.CopyUntil | wzy_threadPool/http/http_conn.cpp:468-479 | one loop: the characters up to the first stop character and a NUL, or the end of the array |
| HttpForm.LoginRoundTrip | wzy_threadPool/http/http_conn.cpp:368-479 | from the bytes of a POST request with a login form, in any chunks that do not end strictly inside the form, to cgi set and exactly its target, name and password |
| HttpForm.LoginCuts | wzy_threadPool/http/http_conn.cpp:370-387 | a cut of a login request is safe if and only if it is not strictly inside the form |
| HttpForm.SplitBodyIff | wzy_threadPool/http/http_conn.cpp:381-438 | a request that ends with its body, in any chunks, is answered if and only if every cut is safe |
| HttpForm.CutFormIsLost | wzy_threadPool/http/http_conn.cpp:381-438 | a login form in any number of chunks is answered if and only if none of them ends inside the form; at once it always is |

## Left out

- Sockets, epoll, signals, files, `mmap`, MySQL and HTML pages: input and output.
- `http_conn::write`: its byte count and its vectors do not follow a contract that could be stated.
- `process_write`: which status is sent for which result; only the header printers are modelled.
- `do_request` but for the loops that take out name and password: file names and database queries.
- Log levels, time stamps, truncation by `vsnprintf`, and rotation of files: a message is a value.
- `block_queue::front`, `back`, `empty`, `max_size` and the timed `pop`.
- Error returns of the pthread and semaphore calls, such as the early return of `pop` when `pthread_cond_wait` fails; except for a `sem_wait` that a signal interrupts, which is in PoolSignals.
- Which connection a timer or a queued request belongs to across threads (`m_user_count`, closing by a worker): there is no invariant to state.
- Destructors, `destroyPool`, singletons, `exit` paths, and the connection that `initmysql_result` uses before the first job.
- `threadpool::m_stop`: nothing sets it while workers run.
- BlockQueue.BlockQueue.Pop: the wait loop is in LogMachine; the method is the part behind it, so it asks for an element.
- TimerList.SortTimerList.DelTimer: the node is unlinked but not freed, and calling a method again with a deleted timer is excluded.
- PoolSafety.PopsAreSafe: about runs in which no signal interrupts a semaphore wait; PoolSignals.DispatchSurvives is about all.
- PoolTheorems.DispatchIsFifo: likewise, for the exact token count and the dead branch.
- HttpConn.HttpConn.Init: without `m_real_file`, which belongs to `do_request`; the write buffer is in HttpResponse.ResponseBuffer.Init.
- PoolCalls.ThreadPool.TakeJob: asks for a token, where wait() would block; blocking is in PoolMachine.
- Widths of indices, timer expiries and `m_count`: integers without bound. The indices are proved to stay within their buffers.
