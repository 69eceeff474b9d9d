# Verified models of the reactor, log, HTTP and lint code

Dafny models of the stateful parts of a multi-reactor TCP/HTTP server written in C++ (`src/`) and of the
bracket and preprocessor tracking of the Python linter it carries (`build_support/cpplint.py`), with
machine-checked proofs of what those parts keep over every run. `dafny verify dfyconfig.toml` checks all of it.

Two forms occur side by side. What several threads do together is a *step system*: a state, the steps each
thread can take, an invariant, and lemmas over all runs, that is, over all interleavings. What one thread
does to its fields is a *class* whose methods follow the code statement by statement; each method is proved to
perform steps of the step system (usually by keeping the list of steps in a ghost field `trace`), so that the
results about runs hold of the fields. The parser, the printers, the buffer and the scanners are classes or
loop methods proved against a specification function, and lemmas say what that function means.

The code is modelled as it is written. Where a property that the code is meant to have is false of it, there is
a lemma with an input that shows so, and a lemma saying exactly when the property does hold.

| file | what it models |
|---|---|
| Lifecycle, Server | accept, close and destruction of connections across the main reactor and the sub-reactors |
| WakeUp, EventLoop | the deferred-call list, the eventfd and the wake-up rule |
| ThreadPool | workers, `Add` and the destructor |
| AsyncLog, LogStream, Decimal | double-buffered logging, log files, the fixed buffer and integer formatting |
| HttpGrammar, HttpParser, HttpLength | the request parser, its language and its cursors, and what a Content-Length decides |
| HttpResponse, HttpServer | the response printer and a reader for it, the request handlers, closing of idle connections |
| TimerQueue | the timer index, the kernel timer and callbacks that add timers |
| Buffer, Output | the growing buffer, the output path of a connection, event dispatch |
| Brackets, AngleBrackets, AngleInverse | cpplint's two bracket scanners, and what they make of `<` and `>` |
| Preprocessor | cpplint's `#if` stack, from the text of a line on |
| Utils | shared vocabulary and character classes |

## Model

| member | source | states |
|---|---|---|
| Lifecycle.NoFaultEver | src/tcp/Server.cpp:45-91 | in no reachable interleaving does a step fail: the assert on the mapping holds, epoll additions meet no registered descriptor, changes and deletions a registered one, every polled channel is alive, a new descriptor is not mapped |
| Lifecycle.DescriptorsSafe | src/tcp/Connection.cpp:36-56 | a connection that is mapped, registered, polled or asked to close is alive, each queued close names the connection mapped under its descriptor, and no two live connections share a descriptor |
| Lifecycle.CloseHappensOnce | src/tcp/Server.cpp:77-91 | unmapping and deregistering happen at most once per connection, in this order, only after it was closed; a destroyed connection went through both |
| Lifecycle.QuietMeansNoLeak | src/tcp/Connection.cpp:36-56 | when all queues are empty, a connection is alive, registered and mapped exactly if it was never closed |
| Lifecycle.StepKeepsInv | src/tcp/EventLoop.cpp:27-52 | each step of each thread keeps the ownership invariant and does not fail |
| Lifecycle.RunKeepsInv | src/tcp/EventLoop.cpp:27-52 | so does every run |
| Lifecycle.CallCondition | src/tcp/Connection.cpp:70-75 | at each callback of an event, the assert that a reading connection is connected (line 163) holds exactly if no close of the connection is queued, running or done |
| Lifecycle.EventAsserts | src/tcp/Channel.cpp:23-34 | over a whole event, whatever other threads do meanwhile, all its asserts hold exactly if no callback is called, or no close is on its way at its head and no callback that closes the connection is followed by another, which takes two ready bits |
| Lifecycle.GuardedStep | src/tcp/Channel.cpp:13-21 | while a loop handles an event of a connection, no other thread changes whether it is connected |
| Lifecycle.LateEventReachable | src/tcp/Connection.cpp:162-164 | a run in which an event arrives after the close and the assert fails |
| Lifecycle.SecondCallReachable | src/tcp/Channel.cpp:23-34 | a run in which one event is ready for reading and writing with no close on its way, its first callback closes the connection and its second fails the assert |
| ServerThreads.Server.HandleNewConnection | src/tcp/Server.cpp:45-66 | six steps of the system; the connection is mapped under a descriptor not mapped before, registered with and bound to sub-reactor `fd % n`, connected, tied and reading; the identifier after 999 is 1 |
| ServerThreads.Server.NewConnection | src/tcp/Server.cpp:48-49 | the construction step: a connection that is not connected yet, in the interest of sub-reactor `fd % n` |
| ServerThreads.Server.MapConnection | src/tcp/Server.cpp:57-63 | the mapping under the descriptor, and the next identifier: one more, and 1 after 999 |
| ServerThreads.Server.ConnectionEstablished | src/tcp/Connection.cpp:40-50 | four steps, in this order: connected, tied, reading, announced |
| ServerThreads.Server.CallReadCallback | src/tcp/Connection.cpp:70-75 | the next callback of an event; the assert it meets is true exactly if no close is on its way |
| ServerThreads.Server.HandleClose | src/tcp/Connection.cpp:86-94 | one close request to the main reactor the first time, nothing after that |
| ServerThreads.Server.HandleCloseInLoop | src/tcp/Server.cpp:77-91 | finds the connection itself under its descriptor, erases that mapping and queues the destructor to the connection's own loop |
| ServerThreads.Server.MainDoToDoList | src/tcp/EventLoop.cpp:38-52 | every queued close is unmapped, in order, and handed to its sub-reactor |
| ServerThreads.Server.SwapOutCloses | src/tcp/EventLoop.cpp:39-45 | the list of closes is taken out under the lock |
| ServerThreads.Server.RunCloses | src/tcp/EventLoop.cpp:47-49 | the closes taken out run to the last, in order |
| ServerThreads.Server.DropCloses | src/tcp/EventLoop.cpp:51-52 | the closures that ran are dropped |
| ServerThreads.Server.ConnectionDestructor | src/tcp/Connection.cpp:52-56 | deletes a registered channel of a live connection from epoll |
| ServerThreads.Server.SubDoToDoList | src/tcp/EventLoop.cpp:38-52 | every queued connection is deregistered, in order, and destroyed unless the main reactor still holds it |
| ServerThreads.Server.DropDestructors | src/tcp/EventLoop.cpp:38-52 | leaving the function drops the closures and with them the last references |
| ServerThreads.Server.SwapOutDestructors | src/tcp/EventLoop.cpp:39-45 | the list of destructors is taken out under the lock |
| ServerThreads.Server.RunDestructors | src/tcp/EventLoop.cpp:47-49 | the destructors taken out run to the last, in order |
| ServerThreads.OnlyMainHolds | src/tcp/Server.cpp:77-91 | a deregistered connection of an idle sub-reactor is referenced by the main reactor's running closures only |
| WakeUp.NoLostWakeUp | src/tcp/EventLoop.cpp:54-76 | a loop blocked in Poll with functors queued finds its eventfd readable, or a thread is between its push and its write |
| WakeUp.RunsInLockOrder | src/tcp/EventLoop.cpp:38-57 | functors run at most once, in the order in which the lock was taken, and the rest is exactly what is still listed |
| WakeUp.OneRoundRunsEverything | src/tcp/EventLoop.cpp:27-52 | from every blocked loop with work there is a run without further pushes, of the writes already due and one round, after which all of the work has run |
| WakeUp.NoEventFdFault | src/tcp/EventLoop.cpp:70-96 | the asserts on reading and writing the eventfd hold while fewer than 2^64 - 1 functors were queued |
| WakeUp.StepKeepsInv | src/tcp/EventLoop.cpp:27-96 | each step keeps the protocol's invariant |
| WakeUp.RunKeepsInv | src/tcp/EventLoop.cpp:27-96 | so does every run |
| EventLoops.EventLoop.QueueOneFunc | src/tcp/EventLoop.cpp:54-76 | appends to the list and writes the eventfd exactly if another thread calls or functors are running |
| EventLoops.EventLoop.RunOneFunc | src/tcp/EventLoop.cpp:78-84 | calls at once in the loop thread, queues elsewhere |
| EventLoops.EventLoop.HandleRead | src/tcp/EventLoop.cpp:90-96 | the read finds a value and clears it |
| EventLoops.EventLoop.DoToDoList | src/tcp/EventLoop.cpp:38-52 | runs exactly the functors listed before, in order; what they queue is left for the next round, one eventfd count for each |
| EventLoops.EventLoop.Call | src/tcp/EventLoop.cpp:47-49 | a functor that queues functors, one after the other |
| EventLoops.EventLoop.SwapOut | src/tcp/EventLoop.cpp:39-45 | the list is taken out under the lock with the calling flag set |
| EventLoops.EventLoop.CallNext | src/tcp/EventLoop.cpp:47-49 | the next functor runs and queues its own |
| Pools.TakenOnceInOrder | src/tcp/ThreadPool.cpp:3-21 | tasks are taken first in first out, each by one worker, and are running or finished, not both |
| Pools.NoForgottenTask | src/tcp/include/ThreadPool.h:41-49 | with a task queued and no worker awake, a notification is due |
| Pools.JoinMakesProgress | src/tcp/ThreadPool.cpp:23-34 | until all workers have left, one of them can move |
| Pools.DestructorWaitsForAll | src/tcp/ThreadPool.cpp:23-34 | when the destructor returns all accepted tasks have finished, exactly if there is a worker or no task was accepted |
| Pools.PoolOfNobody | src/tcp/ThreadPool.cpp:3-34 | a pool of size 0 whose destructor returns with its task never run |
| Pools.StepKeepsInv | src/tcp/ThreadPool.cpp:3-34 | each step keeps the pool's invariant |
| Pools.RunKeepsInv | src/tcp/ThreadPool.cpp:3-34 | so does every run, with the number of workers |
| Pools.ThreadPool.Add | src/tcp/include/ThreadPool.h:33-51 | appends the task exactly if the pool is not stopped |
| Pools.ThreadPool.NextTask | src/tcp/ThreadPool.cpp:9-16 | takes the oldest task not taken yet, leaves when stopped and empty, sleeps otherwise |
| Pools.ThreadPool.Stop | src/tcp/ThreadPool.cpp:24-27 | no task is accepted from here on, the queued ones stay |
| AsyncLogs.FilesArePrefix | src/log/AsyncLogging.cpp:48-148 | at any moment the files hold an exact prefix of the accepted messages, and the buffers in order the rest, across rotations |
| AsyncLogs.PassFlushesEverything | src/log/AsyncLogging.cpp:87-147 | after a pass all accepted bytes are in files, and four distinct buffers exist |
| AsyncLogs.PassRecycles | src/log/AsyncLogging.cpp:96-143 | a pass allocates nothing: its two allocating branches are never taken |
| AsyncLogs.PassReusesBuffers | src/log/AsyncLogging.cpp:119-144 | no buffer gains an owner in a pass |
| AsyncLogs.PassConserves | src/log/AsyncLogging.cpp:96-117 | what was in memory is in the files, in order |
| AsyncLogs.DroppedExactly | src/log/AsyncLogging.cpp:48-66 | in the bytes of files and buffers, a message is added whole at the end, or nothing changes; the latter exactly if it fills the current buffer to the last byte or fits in no buffer |
| AsyncLogs.ExactFillDropped | src/log/include/LogStream.h:158-164 | after a message of 4000 bytes, one of 96 disappears |
| AsyncLogs.StepKeepsInv | src/log/AsyncLogging.cpp:48-148 | appends and passes keep conservation, spares and single ownership |
| AsyncLogs.RunKeepsInv | src/log/AsyncLogging.cpp:48-148 | so does every run |
| AsyncLogs.AsyncLogging.Append | src/log/AsyncLogging.cpp:48-70 | a message that leaves a byte of the 4096 free is appended, one that fills them is dropped, and one that overflows moves the buffer to the full ones and goes into the spare, which is used up, or without a spare into a newly allocated buffer |
| AsyncLogs.AsyncLogging.Pass | src/log/AsyncLogging.cpp:88-146 | the pass step; all accepted bytes are in files and nothing was allocated |
| AsyncLogs.AsyncLogging.SwapOut | src/log/AsyncLogging.cpp:96-106 | the full buffers and the current one are taken, the first spare becomes the current buffer, the second moves in exactly if the producers' spare is gone |
| AsyncLogs.AsyncLogging.WriteAndRotate | src/log/AsyncLogging.cpp:108-117 | all bytes go to the open file, and a new one is opened exactly if it now holds 2^30 bytes or more |
| AsyncLogs.AsyncLogging.WriteAll | src/log/AsyncLogging.cpp:109-111 | the bytes of the buffers in order |
| AsyncLogs.AsyncLogging.RefillSpares | src/log/AsyncLogging.cpp:124-144 | the spares are refilled from the back of the written buffers, emptied |
| AsyncLogs.LogFile.Write | src/log/LogFile.cpp:35-55 | whatever part each write takes, all bytes are written once and counted; a flush of everything exactly if the last write is more than 3 seconds after the last flush |
| LogStreams.FixedBuffer.Append | src/log/include/LogStream.h:158-164 | stores the message exactly if it leaves a byte free |
| LogStreams.FixedBuffer.Bzero | src/log/AsyncLogging.cpp:132-143 | a zeroed buffer is an empty one |
| LogStreams.FormatCorrectIff | src/log/include/LogStream.h:84-104 | the formatted text is the number's decimal form exactly for numbers not below zero |
| LogStreams.NegativeIsMirrored | src/log/include/LogStream.h:84-104 | a negative number is formatted as the digits of its absolute value, each mirrored at the character 0, without a sign |
| LogStreams.FormattedFits | src/log/include/LogStream.h:84-104 | any 64-bit number takes at most 20 of the 48 bytes reserved |
| LogStreams.LogStream.FormatInteger | src/log/include/LogStream.h:84-104 | appends the text when 48 bytes are free, which is the decimal form for numbers not below zero, nothing otherwise, and stays inside the buffer |
| LogStreams.WriteRaw | src/log/include/LogStream.h:91-95 | the digit loop stores the remainders from the low end behind the text |
| LogStreams.Reverse | src/log/include/LogStream.h:100 | reverses a range in place and touches nothing before it |
| LogStreams.FormatInto | src/log/include/LogStream.h:87-100 | the two together append the number's text |
| Decimal.ValueOfDigits | src/http/HttpResponse.cpp:41-49 | reading a printed number gives it back |
| Decimal.DigitsAre | src/http/HttpResponse.cpp:41-49 | the numeral of ten times a number plus a digit is the number's numeral and that digit |
| HttpGrammar.AcceptsExactlyTheGrammar | src/http/HttpContext.cpp:11-268 | the parser accepts exactly the texts of well-formed trees that meet the completion rule, and extracts the fields the tree assigns |
| HttpGrammar.TreeParses | src/http/HttpContext.cpp:11-268 | every well-formed text runs to completion, or stops before its missing body, for a context in any prior state of its request |
| HttpGrammar.AcceptedIsTree | src/http/HttpContext.cpp:11-268 | every accepted text has a tree |
| HttpGrammar.ClassesAre | src/http/HttpContext.cpp:23-50 | the parser's character classes, character by character |
| HttpLengths.LengthRead | src/http/HttpContext.cpp:223-254 | with a Content-Length of blanks, perhaps a plus, any leading zeros, the numeral of n and anything that does not prolong it, a request in any context is completed with all that follows the blank line as its body if n > 0 and something follows, waits if nothing does, and is completed without a body if n is 0 |
| HttpLengths.NegativeLength | src/http/HttpContext.cpp:223-254 | with a minus before the numeral it is completed without a body |
| HttpLengths.NoNumeral | src/http/HttpContext.cpp:223-254 | so it is where no numeral stands behind the blanks and at most one sign |
| HttpParser.HttpContext.ParaseRequest | src/http/HttpContext.cpp:11-268 | the loop over three cursors computes the machine's outcome from any state the context was left in, with start <= colon < end wherever colon is used; a resumed value loses its key and first character, and only one that ends at once, where the code builds a string from a reversed range, is excluded |
| HttpParser.HttpContext.ConsumeWord | src/http/HttpContext.cpp:23-50 | START and METHOD: one step of the machine, cursors in order |
| HttpParser.HttpContext.ConsumeUrl | src/http/HttpContext.cpp:51-80 | BEFORE_URL and IN_URL likewise |
| HttpParser.HttpContext.ConsumeParam | src/http/HttpContext.cpp:81-131 | the four parameter states likewise |
| HttpParser.HttpContext.ConsumeVersion | src/http/HttpContext.cpp:132-178 | protocol and version likewise |
| HttpParser.HttpContext.ConsumeHeader | src/http/HttpContext.cpp:179-222 | line ends and headers likewise |
| HttpParser.HttpContext.ConsumeBody | src/http/HttpContext.cpp:223-256 | the blank line, the completion rule and the body likewise |
| HttpParser.HttpContext.ResetContextStatus | src/http/HttpContext.cpp:274 | resets the state and keeps the request |
| HttpParser.ParseFresh | src/http/HttpContext.cpp:11-268 | on a fresh context: true for exactly the grammar, with the tree's fields |
| HttpParser.RoundTrip | src/http/HttpContext.cpp:11-268 | printing any GET, POST, HEAD or PUT request with distinct keys and parsing it on a fresh context gives every field back |
| HttpParser.DeleteUnreachable | src/http/HttpRequest.cpp:8-28 | no accepted request has the method DELETE |
| HttpParser.LeadingBlanksLoseMethod | src/http/HttpContext.cpp:23-50 | a blank or line break before the method makes the method unknown |
| HttpParser.ReusedContext | src/http/HttpContext.cpp:223-248 | a request without a length is completed by a reused context exactly if no positive length is left over from before, or bytes follow the blank line |
| HttpParser.ReusedMaps | src/http/HttpContext.cpp:274 | a reused context extracts the parameters, or headers, of a fresh one exactly if the new request names all that the one before had |
| HttpParser.UpdatedSame | src/http/HttpRequest.cpp:90-106 | filling a map that was not cleared gives the same as filling an empty one exactly if every old key is replaced |
| HttpParser.StaleLengthRejects | src/http/HttpContext.cpp:274 | after a parsed and reset request with five bytes of body, `GET /` is never completed |
| HttpResponses.HttpResponse.GetMessage | src/http/HttpResponse.cpp:38-65 | status line, own fields (to the letter), each header once in the order of their names, blank line, body |
| HttpResponses.HttpResponse.Opening | src/http/HttpResponse.cpp:41-51 | status line and own fields: close, or the length and keep-alive |
| HttpResponses.BeforeExactly | src/http/HttpResponse.cpp:53-56 | of two header names the earlier is a proper beginning of the other, or has the smaller character where they first differ |
| HttpResponses.HeaderReadsBack | src/http/HttpResponse.cpp:38-65 | any message's code, reason and fields are what the reader reads in its header section |
| HttpResponses.HttpResponse.AddHeader | src/http/HttpResponse.cpp:26-28 | sets or replaces one header |
| HttpResponses.HttpResponse.SetContentType | src/http/HttpResponse.cpp:22-24 | sets or replaces the content type |
| HttpResponses.ReadAnswerBack | src/http/HttpResponse.cpp:38-65 | a reader following section 6.3 of RFC 9112 gets a message back, with what follows untouched, exactly if the message is bodiless where it must be, and elsewhere has no transfer coding and announces its true length |
| HttpResponses.AnnouncedExactly | src/http/HttpResponse.cpp:49 | the reader accepts a length exactly if there is one and all repetitions, in separate fields or in a list, agree |
| HttpResponses.StreamReadsBack | src/http/HttpResponse.cpp:38-65 | any concatenation of such messages, answering any sequence of requests, splits into exactly the messages sent |
| HttpResponses.ReadsBackExactly | src/http/HttpResponse.cpp:45-62 | for any flag, status, method, headers and body: a response reads back exactly if it has no body where none is allowed (HEAD, 1xx, 204, 304), and elsewhere the caller sets no transfer coding, no length but the true one, and that one if the connection closes |
| HttpResponses.ReadAnswerExtends | src/http/HttpResponse.cpp:38-65 | a message that reads as whole reads the same whatever follows, so no message is a prefix of another |
| HttpResponses.SentWhole | src/http/HttpServer.cpp:102 | sent as a C string, a message arrives whole exactly if it holds no NUL, and otherwise is never read as whole |
| HttpServers.IdleBounds | src/http/HttpServer.cpp:109-121 | with checks at most d late: one pending check while open; never closed within the timeout T after a message; closed by 2(T + d) after the last message, or T + d after a silent start |
| HttpServers.RunKeepsIdleInv | src/http/HttpServer.cpp:59-121 | every run of messages, checks and closes keeps the idle protocol's invariant |
| HttpServers.EventKeepsIdleInv | src/http/HttpServer.cpp:59-121 | each message, check and close keeps it |
| HttpServers.CloseIsHeardRaw | src/http/HttpServer.cpp:91-95 | for every printed request: the server closes exactly if the raw value behind the colon is `close`, or the version is 1.0 and it is not `keep-alive`; so not for the customary ` close` |
| HttpServers.ReplyReadsBack | src/http/HttpServer.cpp:91-107 | for any request and any reply without NUL and line breaks in its strings, the same exact condition for the reply that the handler sends, with its code, reason, headers and body |
| HttpServers.HeaderOfHandled | src/http/HttpServer.cpp:91-107 | from handler to reader: the header section holds `Connection: close` as the only own field exactly if the connection has been closed, and the true length with `keep-alive` exactly if it stays open, before the reply's headers |
| HttpServers.RenderedIsHandled | src/http/HttpServer.cpp:91-107 | a rendered reply obeys the callback's word on closing, and the request's wish only without one |
| HttpServers.NotFoundText | src/http/HttpServer.cpp:16-20 | the text that the default callback's reply is sent as, to the letter |
| HttpServers.HttpServer.HandleMessage | src/http/HttpServer.cpp:65-89 | a complete request is answered with its reply, the connection staying open exactly as the callback says or else as the request asks, and the parser reset; anything else is refused with `HTTP/1.1 400 Bad Request` and the connection closed; a closed connection is not touched |
| HttpServers.HttpServer.HandleRequest | src/http/HttpServer.cpp:91-107 | sends one message; if the callback set the close flag the connection closes exactly by it, otherwise exactly if the request asks; the message's own fields say `close`, or the length and `keep-alive`, accordingly |
| HttpServers.HttpServer.ReadCallback | src/tcp/Connection.cpp:70-75 | a callback with nothing to read makes an open connection answer 400 and close |
| HttpServers.HttpServer.HandleEvent | src/tcp/Channel.cpp:23-34 | an event that reports writability alone, as after a short write, is answered with 400 and closed; one with both bits ends closed when its first callback has read everything |
| HttpServers.HttpServer.HandleConnection | src/http/HttpServer.cpp:48-63 | sets the first idle check 100 seconds ahead exactly if auto-close is on |
| HttpServers.HttpServer.ActiveCloseConn | src/http/HttpServer.cpp:109-121 | closes a connection silent for more than 100 seconds, and sets the next check of any other 100 seconds ahead |
| HttpServers.Connection.HandleClose | src/tcp/Connection.cpp:86-94 | closes an open connection, changes nothing of a closed one |
| TimerQueues.NoTimerForgotten | src/timer/TimerQueue.cpp:72-118 | outside HandleRead the kernel timer is readable once the first timer is due and 100 microseconds have passed since the last arming |
| TimerQueues.ArmedForFirst | src/timer/TimerQueue.cpp:61-118 | over every run, outside HandleRead, the kernel timer of a non-empty index is set for exactly the first timer's time, or 100 microseconds after its arming if that is later |
| TimerQueues.RunsApart | src/timer/TimerQueue.cpp:42-59 | no timer runs early; one that runs twice repeats, and its runs are an interval apart or more |
| TimerQueues.EveryTimerAccounted | src/timer/TimerQueue.cpp:82-118 | outside HandleRead every timer ever added waits once, under the time it expires at, or was freed once after exactly one run |
| TimerQueues.NothingDangles | src/timer/TimerQueue.cpp:53-98 | every timer that HandleRead runs, restarts, frees or arms for is alive, although addresses are used again |
| TimerQueues.CollectsExactlyDue | src/timer/TimerQueue.cpp:46-50 | the batch is exactly the entries due by now, in order |
| TimerQueues.ExpiredExactly | src/timer/TimerQueue.cpp:48-52 | the bound on (now, greatest address) splits the index into what is due by now and what is not |
| TimerQueues.CallbackReachable | src/timer/TimerQueue.cpp:54-57 | a run that reaches a callback |
| TimerQueues.SettingIsPositive | src/timer/TimerQueue.cpp:61-77 | seconds and nanoseconds add up to the time left, or to 100 microseconds if less is left, never to the all-zero value that disarms |
| TimerQueues.StepKeepsInv | src/timer/TimerQueue.cpp:42-118 | adding, reading, collecting, running, restarting, freeing and arming keep key agreement, single occurrence, arming and spacing |
| TimerQueues.RunKeepsInv | src/timer/TimerQueue.cpp:42-118 | so does every run |
| TimerQueues.TimerQueue.AddTimer | src/timer/TimerQueue.cpp:112-118 | under an unused address the timer waits at its time, nothing else changes in the index, and the kernel timer is set exactly if it is the first |
| TimerQueues.TimerQueue.Insert | src/timer/TimerQueue.cpp:100-110 | inserts in order and reports whether the entry is the earliest |
| TimerQueues.TimerQueue.ResetTimerFd | src/timer/TimerQueue.cpp:61-80 | arms for exactly the expiration if that is 100 microseconds ahead or more, and for 100 microseconds ahead otherwise |
| TimerQueues.TimerQueue.ResetTimers | src/timer/TimerQueue.cpp:82-98 | every timer of the batch is restarted or freed in this way, and the kernel timer is set for the first in the index |
| TimerQueues.TimerQueue.ResetTimer | src/timer/TimerQueue.cpp:84-95 | a repeating timer waits at the time of its restart plus its interval, any other is freed, and no other changes |
| TimerQueues.TimerQueue.TakeExpired | src/timer/TimerQueue.cpp:43-52 | reads the kernel timer and takes exactly the due entries out |
| TimerQueues.TimerQueue.RunTimer | src/timer/TimerQueue.cpp:54-57 | the next timer's callback runs once, and may add timers; none is lost |
| TimerQueues.TimerQueue.RunExpired | src/timer/TimerQueue.cpp:54-57 | every callback of the batch runs, once and in order |
| TimerQueues.TimerQueue.HandleRead | src/timer/TimerQueue.cpp:42-59 | exactly the timers due at some time during the call run, once each, in order; a repeating one then waits at a time of the call plus its interval, any other is gone, all that were not due stay, and the kernel timer is set for the first; callbacks may add timers |
| TimerQueues.TimerQueue.Now | src/timer/TimeStamp.cpp:66-70 | a time not before the last one |
| Buffers.PutAppends | src/tcp/Buffer.cpp:19-23 | an append adds the message at the end of the content exactly if it does not take the compaction branch, whose guard is written out |
| Buffers.CompactionEffect | src/tcp/Buffer.cpp:104-109 | that branch appends bytes retrieved before to the content, leaves the write cursor and makes no room |
| Buffers.SavedCountWouldDo | src/tcp/Buffer.cpp:104-109 | with the count saved first, it would keep the content and make the room |
| Buffers.OverrunReachable | src/tcp/Buffer.cpp:98-113 | three ordinary calls reach it |
| Buffers.ResizeBound | src/tcp/Buffer.cpp:110-112 | growing keeps the content and stays below 8 + unread + 2 * new bytes |
| Buffers.TakeDrops | src/tcp/Buffer.cpp:51-67 | retrieving removes exactly the first bytes, and resets the cursor when nothing is left |
| Buffers.IsAQueue | src/tcp/Buffer.cpp:19-113 | over every run of appends, retrievals of a length and retrievals up to a position, retrieved bytes then readable bytes are the appended bytes |
| Buffers.Buffer.EnsureWriteAbleBytes | src/tcp/Buffer.cpp:98-113 | the array after it is the specified one, branch by branch; there is room exactly if the compaction branch is not taken |
| Buffers.Buffer.Compact | src/tcp/Buffer.cpp:106-108 | the bytes move down and the write cursor does not |
| Buffers.Buffer.Resize | src/tcp/Buffer.cpp:110-112 | a longer array with the same bytes in front |
| Buffers.Buffer.Append | src/tcp/Buffer.cpp:19-31 | appends, or reports that the copy would leave the vector, exactly if the compaction branch is taken |
| Buffers.Buffer.Retrieve | src/tcp/Buffer.cpp:51-61 | drops a prefix of the content; a negative length moves the cursor back; both cursors return to 8 when nothing is left |
| Buffers.Buffer.RetrieveAll | src/tcp/Buffer.cpp:63-67 | nothing is left to read |
| Buffers.Buffer.RetrieveAsString | src/tcp/Buffer.cpp:74-80 | returns and removes the first bytes |
| Buffers.Buffer.RetrieveAllAsString | src/tcp/Buffer.cpp:82-88 | returns and removes everything |
| Buffers.Buffer.RetrieveUntilAsString | src/tcp/Buffer.cpp:69-96 | returns and removes what lies before a position |
| Buffers.Buffer.PeekAsString | src/tcp/Buffer.cpp:40-49 | the first bytes, or all when there are fewer |
| Buffers.Buffer.PeekAllAsString | src/tcp/Buffer.cpp:47-49 | the whole content |
| Outputs.KeptExactlyUnlessFaulty | src/tcp/Connection.cpp:121-152 | one step keeps `socket bytes + send buffer = sent bytes` exactly if it meets no hard error and no faulty append |
| Outputs.StreamConserved | src/tcp/Connection.cpp:206-221 | over every run of partial writes and full socket buffers the account of bytes holds, in order |
| Outputs.SendsConserved | src/tcp/Connection.cpp:121-152 | a connection that only sends, with any short writes and full socket buffers: no append is faulty, no byte is lost, and the socket has seen a prefix |
| Outputs.SendsAreSound | src/tcp/Buffer.cpp:98-113 | a buffer nothing is retrieved from never takes the compaction branch |
| Outputs.WatchedIffKept | src/tcp/Connection.cpp:142-151 | over every run of sends from a new connection, whatever the writes report, EPOLLOUT is among the events exactly if bytes are in the send buffer |
| Outputs.WireIsPrefix | src/tcp/Connection.cpp:121-152 | the socket has seen a prefix of what was sent |
| Outputs.EventsOnlySend | src/tcp/Channel.cpp:23-34 | no sequence of events flushes the send buffer |
| Outputs.ShortWriteStalls | src/tcp/Channel.cpp:29-33 | after a short write the socket receives nothing more, whatever events are dispatched and however much is sent |
| Outputs.Channel.HandleEventWithGuard | src/tcp/Channel.cpp:23-34 | readability and writability call the read callback once each, in this order, and nothing calls the write callback |
| Outputs.Connection.Send | src/tcp/Connection.cpp:121-152 | straight to the socket only when nothing is buffered; a rest goes behind the buffer's content and sets the EPOLLOUT interest; without a rest, or after a hard error, interest and buffer stay as they were |
| Outputs.Connection.WriteNonBlocking | src/tcp/Connection.cpp:206-221 | the bytes taken go to the socket and leave the buffer; after a hard error the read cursor moves back by one |
| Brackets.SearchesAreInverse | build_support/cpplint.py:1822-1978 | on any lines, one search maps an opening bracket to just past a closing one exactly if the other maps that one back |
| Brackets.ClosingFindsCloser | build_support/cpplint.py:1822-1863 | what the forward search finds is a closing bracket of the same kind, and the backward search undoes it |
| Brackets.OpeningFindsOpener | build_support/cpplint.py:1943-1978 | the same the other way round |
| Brackets.ClosingIsPlain | build_support/cpplint.py:1744-1863 | from `(`, `[` or `{` the guessing forward search gives what a plain matcher of three bracket kinds gives on the whole text, success or failure |
| Brackets.OpeningIsPlain | build_support/cpplint.py:1866-1978 | the guessing backward search gives what the plain matcher gives on the text seen from its end |
| Brackets.ForwardPlain | build_support/cpplint.py:1744-1819 | the same for one line, with the stack handed to the next line |
| Brackets.BackwardPlain | build_support/cpplint.py:1866-1940 | likewise backwards, where two characters may be skipped at once |
| Brackets.SkippedIsNoBracket | build_support/cpplint.py:1888-1903 | a skipped character is never a bracket |
| Brackets.CloseIsBalanced | build_support/cpplint.py:1744-1819 | plain matching stops exactly at the bracket before which everything opened is closed |
| Brackets.RunBack | build_support/cpplint.py:1866-1940 | what a text opens when read forwards it closes when read backwards |
| Brackets.FindEndOfExpressionInLine | build_support/cpplint.py:1744-1819 | the loop computes the line's outcome and stack |
| Brackets.FindStartOfExpressionInLine | build_support/cpplint.py:1866-1940 | likewise backwards |
| Brackets.CloseExpression | build_support/cpplint.py:1822-1863 | which positions count as opening; the loop over lines computes the search, or (number of lines, -1), and the line it ends on |
| Brackets.ReverseCloseExpression | build_support/cpplint.py:1943-1978 | likewise backwards, or (0, -1) |
| AngleBrackets.ClosingOfAngle | build_support/cpplint.py:1744-1863 | from a `<` that is no operator, over any lines, the forward search counts the angle brackets outside all other brackets: it ends where the count is back at zero, and fails at a semicolon or an unmatched bracket there |
| AngleBrackets.OpeningOfAngle | build_support/cpplint.py:1866-1978 | the backward search from a `>` likewise |
| AngleBrackets.ForwardAngles | build_support/cpplint.py:1744-1819 | on one line, the scanner's stack with its tentative brackets stands for that count and the brackets open inside |
| AngleBrackets.BackwardAngles | build_support/cpplint.py:1866-1940 | the same backwards |
| AngleBrackets.OperatorBefore | build_support/cpplint.py:1770 | the test for an operator's name finds the word, at a word boundary, with only blanks behind it |
| AngleInverses.AnglesAreInverse | build_support/cpplint.py:1822-1978 | on lines where neither search takes a `<` or `>` for an operator, one maps a `<` to just past a `>` exactly if the other maps that `>` to the `<` |
| AngleInverses.CloseIsBalanced4 | build_support/cpplint.py:1744-1819 | counting stops exactly at the `>` before which everything opened is closed |
| AngleInverses.OperatorSeenDifferently | build_support/cpplint.py:1798-1799 | a text on which the two are not inverse: the forward search looks for the operator's name one place too early |
| Preprocessor.OnlyFirstArmsCount | build_support/cpplint.py:2757-2811 | well-nested text leaves the stack that its first arms alone leave, and the saved states as they were |
| Preprocessor.ArmsKeepFirst | build_support/cpplint.py:2782-2806 | within one structure, the first arm decides whatever the later arms do |
| Preprocessor.LaterArmsStartAtIf | build_support/cpplint.py:2782-2793 | each later arm starts from the stack at its `#if` |
| Preprocessor.DirectiveIsSpelled | build_support/cpplint.py:2778-2797 | a line is taken for a directive exactly if it is blanks, `#`, blanks, the word, and an end of line or a character that is no word character |
| Preprocessor.LaterArmsErased | build_support/cpplint.py:2757-2811 | the lines of well-nested text leave the stack that the lines outside later arms leave, and the saved states as they were |
| Preprocessor.CodeIsText | build_support/cpplint.py:2757-2811 | a list of lines has the effect of the structure it spells |
| Preprocessor.NestingState.UpdatePreprocessor | build_support/cpplint.py:2757-2811 | by what the text of the line spells behind blanks, `#` and blanks, as a whole word: `if`, `ifdef`, `ifndef` save the stack, `else`, `elif` keep the first arm's and restore the saved one, `endif` brings the kept one back; any other line changes nothing |
| Preprocessor.NestingState.Update | build_support/cpplint.py:2813-2840 | one line: the directive it spells, then the given changes to the stack |
| Preprocessor.NestingState.UpdateAll | build_support/cpplint.py:2813-2840 | a list of lines, one after the other |
| Preprocessor.NestingState.StartIf | build_support/cpplint.py:2778-2781 | `#if` saves a deep copy |
| Preprocessor.NestingState.StartElse | build_support/cpplint.py:2782-2793 | `#else` and `#elif` keep the first arm's stack and restore a copy of the saved one |
| Preprocessor.NestingState.KeepFirstArm | build_support/cpplint.py:2783-2790 | the first `#else` or `#elif` keeps a copy of the stack, later ones do not |
| Preprocessor.NestingState.Restore | build_support/cpplint.py:2792-2793 | the stack becomes a copy of the one at the `#if` |
| Preprocessor.NestingState.EndIf | build_support/cpplint.py:2797-2808 | `#endif` brings the kept stack back and drops the entry; a stray one is ignored |
| Preprocessor.NestingState.AlterTop | build_support/cpplint.py:2840-2862 | the innermost block takes the new contents, on the line it starts on; no other block and no saved stack changes |
| Preprocessor.NestingState.PushBlock | build_support/cpplint.py:2903-2956 | a new block goes on top |
| Preprocessor.NestingState.PopBlock | build_support/cpplint.py:2966-2975 | the innermost block goes |
| Preprocessor.DeepCopy | build_support/cpplint.py:2781-2793 | new objects, same contents |

## Left out

Assumptions under which the models are faithful:

- Every step of a model is atomic, and memory is sequentially consistent; unlocked accesses to `running_`, `state_`, `calling_functors_` and to a sub-reactor's timer set from the main thread (src/http/HttpServer.cpp:61) are single steps.
- A failed assert of src/tcp/Connection.cpp:163 is a state the lemmas characterise, not an end of the run: the callback goes on, as in a build without asserts, up to the idempotence check of line 88.
- Integers are unbounded: `int` cursors and lengths of src/tcp/Buffer.cpp, byte counters and `atoi` of oversized lengths do not overflow.
- One clock that does not run backwards serves timers, kernel timer and idle checks; the code mixes gettimeofday and CLOCK_MONOTONIC. Times are integer microseconds, so the fractional seconds of TimeStamp::AddTime are not modelled.
- Each call of fwrite_unlocked takes at least one byte, and the descriptor a new connection gets is not open.
- At least one sub-reactor exists; with none, src/tcp/Server.cpp:48 divides by zero.
- Text is ASCII where regular expressions classify characters.

Weaker than the code, or on values:

- AngleInverses.AnglesAreInverse: has one direction only where lines hold shifts, arrows or operator names; OperatorSeenDifferently shows that the two searches are not inverse on all of these.
- Preprocessor.NestingState.Update: the changes that a line makes to the stack after its directive are given, not derived from its text.
- Buffers.Buffer.Append: stops at the point where the copy would leave the vector; what undefined behaviour does afterwards is not modelled.
- Preprocessor.NestingState.AlterTop: the new contents of the block are given; the rest of `Update`, which decides on them line by line, is not modelled.
- TimerQueues.TimerQueue.HandleRead: timers are cells of a map addressed by number, because objects cannot be deleted; callbacks are the lists of timers they add.
- EventLoops.EventLoop.Call: a functor is what it queues; other effects of functors are not modelled.
- AsyncLogs.AsyncLogging.Pass: owned buffers are optional values with a name; the file named by the null path of a default-constructed log is not modelled, and the times of the writes are any times.
- HttpResponses.ReadAnswerBack: the reader refuses every transfer coding, as it would have to decode the body, and knows no response to CONNECT; a close-delimited body is not a message of a stream to it.
- HttpServers.HttpServer.HandleMessage: one call is one event with one time; the response callback is any function of the request.
- ServerThreads.Server.HandleNewConnection: objects and closures are represented by the number of their connection.

Not modelled:

- Socket, Acceptor, InetAddress and all system calls other than by their results.
- Connection::Write and the blocking read and write: Write discards unsent bytes at src/tcp/Connection.cpp:179, so nothing is conserved.
- Log draining at Stop: the consumer leaves without a last pass, so only the prefix property holds.
- Floating-point formatting, logging macros, time formatting, thread-id caching, the latch and the static pages.
- The other checks of cpplint.py and the clang runners.
