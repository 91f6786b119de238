# Verified models of the networking components

The repository holds four course projects about networking: a chain of stepping-stone fetchers
(`proj2`), a DNS resolver that walks from the root servers (`proj3`), a socket library with a
worker pool (`scaling`, with an earlier socket class in `proj1`), and a scheduler whose event loop
owns an asynchronous log (`scheduler`). This project models the parts whose correctness depends on
every interleaving, every chunking or every byte, and proves what they are meant to guarantee.

Where the source updates objects in place, the model has a class or a loop that does the same, and
every method is proved equal to a step of a pure specification; the theorems are about runs of that
specification.

| file | component |
|---|---|
| `ThreadPool.dfy` | the worker pool: lock, condition variable, lazily spawned workers, shutdown |
| `Logging.dfy` | the log, written directly on the event thread, buffered and queued elsewhere |
| `EventLoop.dfy` | the event queue's wait protocol, and the loop with its logging bracket |
| `DnsNames.dfy`, `DnsRecords.dfy`, `DnsQuery.dfy`, `DnsSearch.dfy` | name decompression, records and signatures, queries, the search through referrals |
| `Chain.dfy`, `Relay.dfy` | a request's way along the stones, and the file's way back |
| `Downloads.dfy`, `Stones.dfy` | the temporary files, and many requests at once over processes with shared descriptor tables |
| `StonesSafety.dfy`, `StonesHistory.dfy`, `StonesService.dfy`, `StonesProgress.dfy` | the invariant of that model, its requests and draws, what it means for the requests, and why every run ends |
| `Streams.dfy`, `StreamIO.dfy`, `Messages.dfy` | what the stream operators write and read, the loops that do it, and the message registry |
| `Handles.dfy` | reference-counted descriptors of both socket classes |
| `Basics.dfy`, `Walks.dfy`, `Bytes.dfy` | sequences without repeats, walks under a rule, big-endian fields and "these bytes lie here" |

## What is proved

* **Pool.** No wakeup is lost under any interleaving and any spurious wakeups; tasks leave the
  queue in order and each is executed exactly once; a pool left alone executes everything put so
  far within a bound; after `stop` every worker leaves its loop within three steps.
* **Log.** Queue and buffer, worked off in order, give exactly what the same operations would have
  written directly, if and only if no `endl` found a newline pending in the buffer; and what is written
  can be read back: every line is indented by the number of braces open before it.
* **Event loop.** First in, first out, and never an empty `front()`, if and only if every spurious
  wakeup is followed by a push in time; the indentation is restored exactly when the 8-bit counter
  does not overflow and the uninitialised flag does no harm.
* **DNS.** `recParse` computes the expansion of section 4.1.4 of RFC 1035 for pointers below 64,
  although `atoi16` and the mask are each wrong on their own; `nextParse` inverts the record layout
  of section 4.1.3; a query is, byte for byte, the one question and the one additional record its header
  announces; the search never asks a server that is
  on its own referral path, it ends, and for which first replies it misses no answer, whatever the
  draws and whatever later queries come to, is decided exactly.
* **Chain.** Every stone of the list is visited as often as it is listed, whatever the draws, unless a
  stone has more to print than its buffer holds, which one check on the first request decides for all
  hops. The file that arrives is the file that was fetched, whatever the chunking. Any number of
  concurrent requests over stones with directories of their own do not mix, in either direction,
  although they share descriptor numbers, file names and random draws; each is fetched for exactly
  once, and the run ends within a bound.
* **Streams and handles.** Every nested value is read back exactly when its strings hold no NUL, and
  reading a map is a sequence of assignments to a map with ordered keys;
  tags select the class that was written, exactly up to 65536 registrations; every careful run over
  handles does what the operations would do without counts, closing each descriptor with the operation
  after which nobody is on it, and "careful" is the weakest such condition.

## Where the code does not meet its purpose

For each of these there is a theorem that says exactly when the code does what it is for, and for
most also the smallest case in which it does not.

* `stop` does not drain the queue (`StopExecutesAllIff`, `StopCanStrandATask`).
* `endl` from another thread writes pending newlines without the line prefix (`EndlExact`,
  `AsyncRefinesDirect`).
* The wait in the event loop is an `if`, so a spurious wakeup can break it (`SafeIffFed`,
  `SpuriousWakeupBreaksIt`), and `logging` is read before it is set (`LoopRestoresIndent`,
  `UninitialisedLoggingShifts`).
* `atoi16` is right only below 32768 (`Atoi16Exact`), record counts only below 128 (`CountExact`),
  pointers only below 64 (`FollowsIffNear`, `FarPointerMisread`), and a name whose parse comes back
  to an offset never ends (`EndsIff`); a signature by the root loses its last byte, and key tags are read
  right only below 32768 (`SignatureSpan`, `RrsigReadBack`).
* A comment in `attempt` says that another server is picked when there is no answer. The call for
  the next level exits the process instead of returning, so an answer can be missed
  (`SteadyNeverMissedIff`, `AnswerCanBeMissed`). `dnsPacket` is not cleared between the queries of
  one call either, so the reply to a second query is read at a wrong offset, and only levels without
  useless servers are safe (`NeverMissedIff`, `RetryCanMissAnswer`).
* A stone collects its log text in a buffer of 8192 bytes and its list in an array of 1024 elements
  without checking either (`GetsThroughIff`, `RoomyIff`).
* Two fetches that use one file name at the same time spoil each other, which two stones sharing a
  directory can (`SharedDirectoryMixesFiles`); and the command for wget is cut at 255 characters, so
  that for a long name no file of the expected name is written (`FetchesAreIndependentIff`, `OrderedIff`).
* An empty file cannot be mapped; the last stone closes the connection without a header, and its
  neighbour goes by what its header variable happens to hold. The right, empty file arrives if and
  only if that holds a size of zero; otherwise awget never leaves its loop (`FileArrives`).
* Texts are cut at their first NUL, and old entries stay in a map that is read into
  (`RoundTripExact`, `TransferExact`).
* Assigning the only Socket on a descriptor to itself goes through a null pointer (`AssignExact`,
  `SoleSelfAssign`); a failed `connect` on a shared `sync_socket` leaves the count one short
  (`FailedConnectExact`).

## Model

| member | source | states |
|---|---|---|
| `ThreadPool.Pool.constructor` | scaling/src/threadpool.cpp:17-19 | A new pool is the initial state: running, nothing queued, no threads. |
| `ThreadPool.Pool.Put` | scaling/src/threadpool.hpp:61-73 | Enqueues, spawns a worker when none waits and the limit allows, wakes one sleeper if there is one: the Put event. |
| `ThreadPool.Pool.Stop` | scaling/src/threadpool.cpp:25-30 | Clears the flag and wakes every sleeper: the Stop event. |
| `ThreadPool.Pool.CheckRunning` | scaling/src/threadpool.cpp:77 | The unlocked read of `_running` as one atomic step. |
| `ThreadPool.Pool.Take` | scaling/src/threadpool.cpp:43-66 | From getting the lock to giving it up: leaves with the oldest task, with NULL, or asleep, with 8-bit counters; the Lock event. |
| `ThreadPool.Pool.TaskReturns` | scaling/src/threadpool.cpp:78-81 | A worker whose task returned is back at the loop check, and the job is recorded as done. |
| `ThreadPool.StepKeepsCounts` | scaling/src/threadpool.cpp:47-61 | Every step keeps `_waiting` equal to the workers asleep or notified, at most the number of threads, at most `_nthreads` <= 255, `_waiting + _working` zero modulo 256, and: with a sleeper, at least as many notified workers as queued tasks. |
| `ThreadPool.StepKeepsOnce` | scaling/src/threadpool.cpp:63-65 | Every step keeps: taken tasks followed by the queue are the tasks put, in order; each taken task is either with its one taker or finished; none finishes twice. |
| `ThreadPool.PutWakesOrSpawns` | scaling/src/threadpool.hpp:67-72 | `put` notifies exactly one sleeper if there is one; otherwise it starts a thread if nobody is on the way back from `wait` and there is room; otherwise it leaves the threads alone. Told by where the workers stand, not by the counters. |
| `ThreadPool.HistoryIsRun` | scaling/src/threadpool.hpp:61-73 | In every run the tasks put, taken and queued are those of the `put` calls, in their order, and each job done comes from the return of one call. |
| `ThreadPool.RunKeepsInv` | scaling/src/threadpool.cpp:43-83 | Both invariants hold after every run of put, stop, spurious wakeups and worker steps. |
| `ThreadPool.NoLostWakeup` | scaling/src/threadpool.cpp:47-61 | In every reachable running state with work queued (and `_nthreads` > 0) some worker can take its next step without a further notification. |
| `ThreadPool.SpuriousWakeupIsHarmless` | scaling/src/threadpool.cpp:47-61 | A sleeper that wakes up for nothing goes back to sleep, with both counters and everything else as before. |
| `ThreadPool.QuietRunIsBounded` | scaling/src/threadpool.cpp:73-83 | Without put, stop and spurious wakeups a run has at most as many steps as the measure of its start. |
| `ThreadPool.EveryTaskIsExecuted` | scaling/src/threadpool.cpp:73-83 | After any history, once left alone while running, the pool stops within that bound, with an empty queue and every task given to a `put` of the history executed exactly once, by calls that returned. |
| `ThreadPool.Shutdown` | scaling/src/threadpool.cpp:25-35 | After stop and without later puts nobody sleeps again, the number of steps is bounded, at most one more task goes to each worker and only to those already past the loop check, and the end is every worker out of its loop. |
| `ThreadPool.StopExecutesAllIff` | scaling/src/threadpool.cpp:25-66 | After any history with a stop, when all workers have left, every task given to a `put` of the history has been executed if and only if, at the stop, no more tasks were queued than workers were on their way to the lock. |
| `ThreadPool.StopCanStrandATask` | scaling/src/threadpool.cpp:77 | A concrete run in which a task put before stop is never executed. |
| `Logging.Log.constructor` | scheduler/src/Logging.cpp:18-19 | A new log has nothing written, no indentation and an empty buffer. |
| `Logging.Log.WriteLineStart` | scheduler/src/Logging.cpp:185-198 | Appends the prefix with `indent * indentSize` blanks. |
| `Logging.Log.Endl` | scheduler/src/Logging.cpp:40-58 | Newline and prefix directly; elsewhere posts the buffer and clears it. |
| `Logging.Log.Flush` | scheduler/src/Logging.cpp:67-81 | Posts the buffer as text to be written, or nothing visible directly. |
| `Logging.Log.Catb` | scheduler/src/Logging.cpp:86-102 | Opens a category (indentation modulo 256), after flushing when posted. |
| `Logging.Log.Cate` | scheduler/src/Logging.cpp:107-124 | Closes a category unless the indentation is zero, after flushing when posted. |
| `Logging.Log.WriteText` | scheduler/src/Logging.cpp:158-180 | The splitting loop writes the text with a prefix after every newline; elsewhere it buffers and flushes over the limit. |
| `Logging.Log.WriteNumber` | scheduler/include/Logging.hpp:26-36 | Buffered with the same limit, or written as it is. |
| `Logging.Log.RunOldest` | scheduler/src/Event.cpp:68-77 | The event thread takes the oldest log event and performs it. |
| `Logging.EventQueue.Signal` | scheduler/include/Event.hpp:118-126 | Posted events are appended at the end. |
| `Logging.RenderedAppend` | scheduler/src/Logging.cpp:166-176 | Writing text is a homomorphism: text can be cut anywhere. |
| `Logging.RenderedLength` | scheduler/src/Logging.cpp:168-174 | Writing adds one prefix per newline and nothing else. |
| `Logging.LogIsIndented` | scheduler/src/Logging.cpp:40-198 | Whatever is logged (without braces in texts, no deeper than the counter holds): every line carries the prefix and as many blanks as braces are open before it, closing lines one level less, and without these the log is the plain text. |
| `Logging.EndlExact` | scheduler/src/Logging.cpp:43-49 | A posted endl means what a direct one does if and only if no newline is pending in the buffer; otherwise the stream comes out shorter. |
| `Logging.ForeignStep` | scheduler/src/Logging.cpp:40-124 | Each operation from another thread changes the eventual stream as it would have directly. |
| `Logging.AsyncRefinesDirect` | scheduler/src/Logging.cpp:40-180 | For every interleaving of one foreign thread with the event thread, the drained log equals the direct log if and only if the run was clean (no endl with a pending newline). |
| `Logging.StreamIsPrefix` | scheduler/src/Logging.cpp:40-180 | At every moment of a clean run the stream is a prefix of the direct log. |
| `Logging.NoNewlinesIsClean` | scheduler/src/Logging.cpp:35-38 | Using endl instead of newline characters, as documented, keeps every run clean. |
| `Logging.BufferIsBounded` | scheduler/src/Logging.cpp:158-164 | In every run the buffer of another thread never holds more than its limit. |
| `Logging.PostedOnlyWhenFull` | scheduler/src/Logging.cpp:158-164 | Text is posted if and only if it does not fit the limit. |
| `EventProtocol.HistoryIsRun` | scheduler/include/Event.hpp:118-126 | In every run the events pushed are those of the schedule, in its order, and each event executed comes from one end of an execution. |
| `EventProtocol.LoopIsSafe` | scheduler/src/Event.cpp:60-84 | With any pushing threads and no spurious wakeup: executed, in hand and queued together are what the schedule pushed, in its order; the loop never takes from an empty queue nor waits on a full one. |
| `EventProtocol.SpuriousWakeupBreaksIt` | scheduler/src/Event.cpp:64-66 | A run with one spurious wakeup that reaches `front()` of an empty queue. |
| `EventProtocol.SafeIffFed` | scheduler/src/Event.cpp:60-84 | Over every run with spurious wakeups: the loop never takes from an empty queue if and only if, in the schedule, every spurious wakeup is followed by a push before the loop's next step with the lock; then it executes what the schedule pushed, in order. |
| `EventLoop.Turn` | scheduler/src/Event.cpp:73-91 | One turn logs the opening if the event is named and verbose, its body, the closing bracket if `logging` is set, also when the event throws, and then what the update functor logs. |
| `EventLoop.Enter` | scheduler/src/Event.cpp:44-97 | The whole loop up to the turn that throws logs exactly the turns' operations in order. |
| `EventLoop.LoopLogsFunctors` | scheduler/src/Event.cpp:59-97 | What the functors log, up to the one that throws, is logged in order and in full, and besides only five operations for each event with a bracket and at most one stray closing. |
| `EventLoop.OpeningShown` | scheduler/src/Event.cpp:73-76 | The opening puts the event's name on the stream and a brace, and everything behind it is one level deeper. |
| `EventLoop.BalancedRestoresIndent` | scheduler/src/Logging.cpp:86-124 | Balanced categories restore the indentation if and only if the 8-bit counter does not overflow or it was zero. |
| `EventLoop.LoopRestoresIndent` | scheduler/src/Event.cpp:44-91 | On leaving the loop, also by Terminate inside a logged event and whatever `logging` started as, the indentation is that of entry if and only if it was zero, or `logging` did not start true before an event that is not logged and the deepest event does not overflow the 8-bit counter. |
| `EventLoop.UninitialisedLoggingShifts` | scheduler/src/Event.cpp:47 | The smallest case: `logging` happens to be true, the first event is not logged, and the indentation comes out one lower. |
| `DnsNames.ReadAtoi16` | proj3/myresolver.cpp:65-69 | The sign-extended sum with its byte swap is the big-endian value, the low byte borrowed from when the first is 128 or more. |
| `DnsNames.ReadAtoi8` | proj3/myresolver.cpp:61-63 | One unsigned byte, and one step on. |
| `DnsNames.ReadAtoi32` | proj3/myresolver.cpp:71-78 | Four big-endian bytes, and four steps on. |
| `DnsNames.Atoi16Exact` | proj3/myresolver.cpp:65-69 | A field is read right if and only if it is below 32768. |
| `DnsNames.TargetExact` | proj3/myresolver.cpp:312-314 | The `+ 1` cancels the borrow, and the masked offset is the true one if and only if that is below 64. |
| `DnsNames.RecParse` | proj3/myresolver.cpp:304-327 | Returns the dotted labels of the specified parse and leaves `location` where that says, wherever the recursion ends in the message or on the NUL at its end. |
| `DnsNames.ParseMeetsRfc` | proj3/myresolver.cpp:304-327 | For names whose pointers lead strictly backwards below 64 the recursion ends, with the labels of section 4.1.4 of RFC 1035, just past the first pointer, or on the zero byte of an uncompressed name. |
| `DnsNames.ConsumptionExact` | proj3/myresolver.cpp:309-316 | `location` is the end of the name if and only if the name was compressed. |
| `DnsNames.FollowsIffNear` | proj3/myresolver.cpp:304-327 | For every name the standard reads, the parser visits exactly the standard's offsets if and only if all pointers on the way are below 64. |
| `DnsNames.EndsIff` | proj3/myresolver.cpp:304-327 | Whether the recursion ends is decided within one call per offset, and it ends if and only if it neither leaves the message nor comes back to an offset. |
| `DnsNames.FarPointerMisread` | proj3/myresolver.cpp:314 | A message in which a pointer to offset 64 is read as another name. |
| `DnsNames.SelfPointerNeverEnds` | proj3/myresolver.cpp:312-316 | A name pointing at itself exhausts any number of calls. |
| `DnsNames.ParseUncompressed` | proj3/myresolver.cpp:318-326 | Labels of 1 to 191 bytes and a terminator, anywhere in a message, are read back, ending on the terminator. |
| `DnsNames.DottedLength` | proj3/myresolver.cpp:324-326 | The dotted text of a name is its wire form less the terminator and the first length byte. |
| `DnsNames.DottedSplits` | proj3/myresolver.cpp:318-326 | The text of a name, cut at its full stops, gives the labels back. |
| `DnsRecords.ParseIP` | proj3/myresolver.cpp:335-357 | Both loops print decimal or hexadecimal bytes with the source's separators. |
| `DnsRecords.Ip4TextDecodes` | proj3/myresolver.cpp:350-354 | The IPv4 text decodes back to the bytes if and only if there are at least two. |
| `DnsRecords.Ip6TextDecodes` | proj3/myresolver.cpp:340-345 | The IPv6 text decodes back to the bytes. |
| `DnsRecords.Ip6Colons` | proj3/myresolver.cpp:340-345 | The IPv6 text has a colon behind every four digits and nowhere else. |
| `DnsRecords.SkipRecords` | proj3/myresolver.cpp:379-408 | The first two loops end where the last record of the section ends. |
| `DnsRecords.CollectServers` | proj3/myresolver.cpp:411-430 | The last loop returns, in order, exactly the records with four bytes of data, and throws exactly when data would start beyond the end of the message; data is clipped there. |
| `DnsRecords.NextParse` | proj3/myresolver.cpp:369-437 | Walks the three sections one after the other, in the first two also over the end of the message, and returns the servers of the third or throws. |
| `DnsRecords.RecordReadBack` | proj3/myresolver.cpp:412-418 | A record laid out per section 4.1.3 of RFC 1035 is left at its end if and only if its data is shorter than 32768 bytes; then name, TTL and data are read back, type and class exactly below 32768. |
| `DnsRecords.NextParseInverts` | proj3/myresolver.cpp:369-437 | For any three sections in that layout the walk exists, ends at the end of the last record, and yields exactly the four-byte additional records with their expanded names. |
| `DnsRecords.CountExact` | proj3/myresolver.cpp:567-569 | Exactly which section counts survive being read from one signed byte. |
| `DnsRecords.Parse` | proj3/myresolver.cpp:550-615 | Ends the process or yields servers as the specification of handling a reply says, over the three walked sections, the uncaught exception included. |
| `DnsRecords.HandledByHeader` | proj3/myresolver.cpp:550-615 | For a header laid out per section 4.1.1 of RFC 1035: which reply codes, authority bit and answer counts end the process and with which code, which make a referral, which yield nothing. |
| `DnsRecords.ParseRRSIG` | proj3/myresolver.cpp:495-541 | Reads the record behind the owner name as the specification of its fields says, with the signature from behind the signer with the unsigned wrapping length. |
| `DnsRecords.SignatureSpan` | proj3/myresolver.cpp:527-529 | For a record per section 3.1 of RFC 4034 with RDLENGTH below 32768, the signature is cut out exactly and RDLENGTH is covered, if and only if the signer is not the root. |
| `DnsRecords.RrsigReadBack` | proj3/myresolver.cpp:495-541 | For a record laid out per section 3.1 of RFC 4034: 8- and 32-bit fields are read right always, 16-bit ones, the key tag among them, exactly below 32768, and the signature exactly if the signer is not the root. |
| `DnsQuery.NextWord` | proj3/myresolver.cpp:239 | Yields the next maximal run without white space. |
| `DnsQuery.ReplaceDots` | proj3/myresolver.cpp:231-235 | Every dot becomes a blank, everything else stays. |
| `DnsQuery.PutLabel` | proj3/myresolver.cpp:240-246 | Writes length and bytes, counting all of them. |
| `DnsQuery.MakeQuestion` | proj3/myresolver.cpp:224-259 | The buffer starts with the wire form of the words and `numBytes` grows by its length; type, class and trailer are the constants. |
| `DnsQuery.BuildPacket` | proj3/myresolver.cpp:652-676 | Header, name, terminator, type, class and trailer in network order; `numbytes` leaves out the trailer. |
| `DnsQuery.WordsOfDotted` | proj3/myresolver.cpp:231-239 | Splitting the dotted text of a host name gives its labels. |
| `DnsQuery.BlankSplits` | proj3/myresolver.cpp:239 | Words end at a blank, tab, line feed, vertical tab, form feed and carriage return. |
| `DnsQuery.QueryRoundTrip` | proj3/myresolver.cpp:652-676 | In the first packet `recParse` at offset 12 and section 4.1.2 of RFC 1035 both give the name back, and `numbytes` is just past the question. |
| `DnsQuery.FirstQuery` | proj3/myresolver.cpp:224-259 | From the name given to the packet sent: the header of section 4.1.1 of RFC 1035 with one question and one additional record, the name, type AAAA and class IN, and the pseudo-record of RFC 6891 with 4096 bytes and the DNSSEC OK bit, to the end; the name is read back and `numbytes` is where an echoing reply's answers start. |
| `DnsSearch.Resolver.Turn` | proj3/myresolver.cpp:637-690 | One turn of the loop: skipped and erased when on the stack, or asked with a packet buffer that holds the earlier packets of the same call; ends the process, or leaves candidates on which the search is the same. |
| `DnsSearch.Resolver.Attempt` | proj3/myresolver.cpp:624-697 | Ends the process, never returns, with the code and the queries of the search specification, for any draws and any replies, which may depend on how many packets the buffer of the call already holds. |
| `DnsSearch.SearchHasNoCycles` | proj3/myresolver.cpp:645-650 | Every query goes to a server not on its own referral path, named by the reply one step up; queries only go deeper. |
| `DnsSearch.SearchEnds` | proj3/myresolver.cpp:636-696 | The exit code is that of the reply to the last query, or 1 for an exhausted list. |
| `DnsSearch.SearchIsBounded` | proj3/myresolver.cpp:636-690 | At most the candidates of the first level plus the longest referral for each further level are asked. |
| `DnsSearch.NeverMissedIff` | proj3/myresolver.cpp:627-696 | For all draws and whatever the second and later queries of a call come to, the search ends with the reply to its last query, if and only if every level reached from the roots by first queries has a server off the path, and every such server there answers or refers on. |
| `DnsSearch.SteadyNeverMissedIff` | proj3/myresolver.cpp:636-696 | If later queries came to the same as first ones, that would hold if and only if no level reached by referrals is dead, that is, has only servers already on the path or with nothing to offer. |
| `DnsSearch.RetryCanMissAnswer` | proj3/myresolver.cpp:660-682 | The smallest case for the packet buffer: two roots, no dead level, and the answer of the second is missed because it is asked second. |
| `DnsSearch.AnswerCanBeMissed` | proj3/myresolver.cpp:683-696 | The smallest case: a universe of three servers in which an answer exists and is not found. |
| `Chain.PackElements` | proj2/awget.c:127-138 | Packs line by line; the result says whether all lines were read, the file was too short after readable lines, or a line without blank or comma sent the program through a null pointer. |
| `Chain.ReadableIff` | proj2/awget.c:132-134 | A line is read if and only if it has a blank, and a comma before its last character. |
| `Chain.BlankBehindComma` | proj2/awget.c:132-137 | With the last blank behind the first comma: the host is what precedes the comma and the port what follows the blank, less the last character, each up to the room of its field. |
| `Chain.BlankBeforeComma` | proj2/awget.c:132-137 | With the last blank before the first comma: the host holds the blank, and the port lies between blank and comma. |
| `Chain.BlankAtEnd` | proj2/awget.c:132-137 | With a blank as last character: the port is empty. |
| `Chain.DocumentedLineIsRead` | proj2/README:18-30 | Every line of the documented form is read as its host and port, whole if they fit 256 and 8 characters and their first 256 and 8 otherwise. |
| `Chain.FirstHop` | proj2/awget.c:140-164 | awget's first hop passes the whole list on as a stone does, without a buffer to print into. |
| `Chain.SendOthers` | proj2/ss.c:233-239 | The send loop forwards every element but the chosen one, in order. |
| `Chain.ReceiveList` | proj2/ss.c:198-210 | Reads the list into the array and prints it, in order and in full, exactly when both fit; otherwise it stops at the first excess. |
| `Chain.Connection` | proj2/ss.c:191-312 | A stone fetches exactly when the list is empty; otherwise, if list and text fit, it forwards to the drawn element, with the rest, the size less one and the same name, and if not it overruns. |
| `Chain.ChainCoverage` | proj2/ss.c:203-239 | For every list and all draws: on every link the header count is right, the name is the requested one, and visited plus travelling list are the original; if the fetch branch is reached, after as many hops as stones, with every stone visited as often as listed. |
| `Chain.GetsThroughIff` | proj2/ss.c:195-223 | The request reaches the fetch branch on all draws if and only if, for any two elements drawn first and second, the first one's list and text fit: later stones have less to print. |
| `Chain.RoomyIff` | proj2/ss.c:193-223 | The condition in numbers: at most 1024 elements, and fewer than 8192 characters for 66 fixed ones, the names, and six around each element. |
| `Downloads.FetchesAreIndependentIff` | proj2/ss.c:128-181 | For fetches about to start whose files are not on disk: in every interleaving each maps what wget got for its own name if and only if no two have a file name in common (other than for files both empty) and no command is cut so that its file is not written. |
| `Downloads.SpacedFetchesAreSafe` | proj2/ss.c:128-181 | Fetches may use one number after the other: if each starts only while no clashing one is between download and removal, each maps its own file, and one whose command is cut maps nothing. |
| `Downloads.OrderedIff` | proj2/ss.c:128-138 | The command is whole up to 214 characters of URL and number, and the file name in it up to 222. |
| `Downloads.DecimalReadBack` | proj2/ss.c:136 | The number in a file name is read back from its digits, so that different sockets have different files. |
| `StonesSafety.NumbersAreOwn` | proj2/ss.c:283-312 | In every state a run can reach, no descriptor number is held by two threads of a process, although numbers are closed and handed out again. |
| `StonesSafety.NamesAreOwn` | proj2/ss.c:135-140 | Two fetches that are not over never have a file name in common, because each thread keeps its socket open; this is the spacing the file theorem asks for. |
| `StonesSafety.ConnectIsStoneStep` | proj2/ss.c:195-223 | What a thread sends on and where it connects, or that it overruns its buffer, is the stone's step on the request it holds, with the process's next draw. |
| `StonesSafety.StepKeepsInv` | proj2/ss.c:128-312 | Every call of every thread keeps: numbers refer to what they were given out for, what was received is the beginning of the own link, what was sent is the beginning of the next one, what comes back is the beginning of the own file, every fetch has its own file. |
| `StonesHistory.AsksAreAwgets` | proj2/awget.c:140-156 | There is one awget for each request asked for, in order, and it works on that request. |
| `StonesHistory.DrawsAreInOrder` | proj2/ss.c:213-215 | In every run the n-th connection a process opens leads to the element its n-th draw picks from the list held. |
| `StonesService.RequestsDoNotMix` | proj2/ss.c:128-312 | In every interleaving of any number of requests over stones in directories of their own: all links are in order with respect to a request asked for, nothing else is sent, received or brought back, every fetch comes after all stones of its request, for its name, and maps its file (nothing, if its command was cut), and no request is fetched twice. |
| `StonesService.EveryAskIsServed` | proj2/ss.c:128-312 | When nothing but a further request is possible, every request of the run that fits the buffers has been fetched for exactly once and its fetch is over; if there was anything to fetch and the command was not cut, awget has received header and file exactly, and every connection on the way is closed. |
| `StonesProgress.QuietRunIsBounded` | proj2/ss.c:242-312 | After any history, once no more requests are asked for, every run is at most as long as a measure of the state it starts from. |
| `StonesService.SharedDirectoryMixesFiles` | proj2/ss.c:135-141 | Two stones in one directory: a run from the start in which one of them maps the file of the request at the other. |
| `Relay.SendFile` | proj2/ss.c:151-171 | Sends header and whole file, for every sequence of short sends; nothing at all for an empty file. |
| `Relay.HeaderShows` | proj2/ss.c:156-158 | The file header on the wire: version 1, then the size with the highest byte first. |
| `Relay.RelayFile` | proj2/ss.c:242-263 | Forwards exactly the header and the file, for every chunking, leaving nothing unread; on a connection closed without a byte, whatever its header variable holds. |
| `Relay.ReceiveFile` | proj2/awget.c:172-198 | Writes exactly what follows the header, for every chunking. |
| `Relay.ChunkKeepsInv` | proj2/ss.c:251-263 | One transfer by any stage keeps: nothing lost, duplicated or reordered on any link, every output a prefix of the file. |
| `Relay.AlwaysAPrefix` | proj2/ss.c:251-263 | In every run every stage has forwarded a prefix of the file, and its loop condition fails exactly when that is all of it and the size announced is that of the file. |
| `Relay.FileArrives` | proj2/ss.c:151-171 | For every chain length, chunking and interleaving awget leaves its loop only with the whole file written. The run is bounded and ends so if and only if the file is not empty or its neighbour's header variable holds a size of zero; otherwise awget never leaves its loop. |
| `Streams.IntRoundTrip` | scaling/src/Socket.cpp:58-162 | Every number in the type's range is read back from its little-endian bytes, signed or unsigned. |
| `Streams.InsertLast` | scaling/src/Socket.hpp:249 | Inserting a key above all others puts it at the end, so a map is rebuilt in order. |
| `Streams.UpToNulWhole` | scaling/src/Socket.cpp:374 | Appending a C string keeps it up to its first NUL, and whole if and only if it holds none. |
| `Streams.RoundTripExact` | scaling/src/Socket.hpp:162-251 | Every nested value of every nested type is read back, leaving exactly the following bytes, if and only if no string inside holds a NUL. |
| `Streams.WireExample` | scaling/src/Socket.hpp:162-229 | A number and a vector of a string, byte for byte: low bytes first, four-byte sizes in front. |
| `Streams.CmpBytesIs` | scaling/src/Socket.hpp:249 | String keys are ordered by the first byte in which they differ, a beginning before the whole, and are equal only when they are the same. |
| `Streams.CmpZero` | scaling/src/Socket.hpp:249 | Keys of any one type compare as equal only when they are. |
| `Streams.CmpChains` | scaling/src/Socket.hpp:249 | The order of keys of any one type is transitive. |
| `Streams.InsertIsAssignment` | scaling/src/Socket.hpp:249 | Assigning to a key keeps a map a map, with exactly one entry for that key and all others as they were. |
| `StreamIO.Stream.Send` | scaling/src/Socket.cpp:637-652 | Sends everything, or a proper prefix when a call fails. |
| `StreamIO.Stream.Recv` | scaling/src/Socket.cpp:662-677 | Fills the buffer with exactly the next bytes, whatever the chunks. |
| `StreamIO.Stream.PutInt` | scaling/src/Socket.cpp:58-162 | The computed bytes are the little-endian encoding, for 2, 4 and 8 bytes. |
| `StreamIO.Stream.GetInt` | scaling/src/Socket.cpp:228-322 | The shifted sum is the number those bytes encode. |
| `StreamIO.Stream.PutString` | scaling/src/Socket.cpp:203-209 | Length, then the bytes. |
| `StreamIO.Stream.GetString` | scaling/src/Socket.cpp:363-377 | The bytes up to the first NUL, consuming all of them. |
| `StreamIO.Stream.PutAll` | scaling/src/Socket.hpp:188-195 | Size, then every element. |
| `StreamIO.Stream.Put` | scaling/src/Socket.hpp:162-229 | Writes the encoding of a value of any nested type. |
| `StreamIO.Stream.GetVec` | scaling/src/Socket.hpp:203-214 | Reads what the vector decoding gives and stops right behind it. |
| `StreamIO.Stream.GetMap` | scaling/src/Socket.hpp:237-251 | Reads what the map decoding gives, with later keys overwriting, and stops right behind it. |
| `StreamIO.Stream.Get` | scaling/src/Socket.hpp:175-251 | Reads a value of any nested type wherever one can be decoded. |
| `Messages.Registry.Register` | scaling/src/Socket.hpp:259-275 | The class gets the next 16-bit tag and the tag its factory. |
| `Messages.Registry.PutMessage` | scaling/src/Socket.cpp:384-392 | Writes tag and body; an unknown class is entered with tag 0. |
| `Messages.Registry.GetMessage` | scaling/src/Socket.hpp:283-296 | The tag selects the class, which reads itself if it is the class wanted, and is a null pointer after the cast otherwise; an unknown tag enters an empty factory and fails. |
| `Messages.TablesShape` | scaling/src/Socket.hpp:267-272 | After any registrations, repeats included, the tag of a class is the place of its last registration modulo 65536. |
| `Messages.TagSelectsClass` | scaling/src/Socket.hpp:267-272 | The written tag selects a factory of the same class if and only if at most 65536 registrations happened since (and with) its last one. |
| `Messages.TagsAreUnique` | scaling/src/Socket.hpp:268-272 | Up to 65536 registrations, tags are unique and below their number. |
| `Messages.MessageRoundTrip` | scaling/src/Socket.hpp:283-296 | A written message is read as the same class with the same value, leaving the following bytes, if and only if the class was registered, that condition holds and no string inside holds a NUL. |
| `Messages.Data.Serialize` | scaling/src/main.cpp:28-35 | Writes the size and every entry once, in some order. |
| `Messages.Data.Deserialize` | scaling/src/main.cpp:37-46 | Inserts the entries read, in order, into the map as it is. |
| `Messages.DataReadBack` | scaling/src/main.cpp:28-46 | Whatever order the map is walked in, the entries are read back with texts cut at their first NUL: as sent if and only if none holds one. |
| `Messages.Transfer` | scaling/src/main.cpp:28-46 | Serialize, the connection with all short sends and receives, and Deserialize: the receiver ends with its old map overwritten by the sent one, texts cut, and the following bytes unread; it is the sent map if and only if its old keys are among the sent ones and no text holds a NUL. |
| `Messages.DataArrives` | scaling/src/main.cpp:43-45 | Reading adds and overwrites; the result is the sent map if and only if the reader's old keys are among the sent ones. |
| `SocketHandles.Process.Blank` | scaling/src/Socket.cpp:411-412 | A new handle without descriptor and count. |
| `SocketHandles.Process.Adopt` | scaling/src/Socket.cpp:527-528 | A new handle on an open descriptor with a new count of one. |
| `SocketHandles.Process.Copy` | scaling/src/Socket.cpp:535-548 | Copy and move share and count up; a Socket without a count is a null dereference. |
| `SocketHandles.Process.Drop` | proj1/socket.cpp:205-226 | Takes one off the shared count; at zero closes the descriptor and clears the handle. |
| `SocketHandles.Process.Destroy` | scaling/src/Socket.cpp:554-565 | The destructor's effect on all handles, counts and descriptors. |
| `SocketHandles.Process.Assign` | scaling/src/Socket.cpp:573-595 | Assignment drops first and then shares what the source holds by then, for both classes, aliasing included. |
| `SocketHandles.Process.Connect` | proj1/socket.cpp:151-198 | Drops, then a new descriptor with a new count; on failure only `_fd` changes. |
| `HandleTable.CopyShares` | scaling/src/Socket.cpp:535-548 | A copy of a connected handle is on the same descriptor, the shared count is one higher, and nothing else changes. |
| `HandleTable.AssignExact` | scaling/src/Socket.cpp:573-595 | Assignment always works for a sync_socket, and for a Socket if and only if the source has a count and is not the sole handle assigned to itself; it keeps the invariant and makes the handle share the source's descriptor. |
| `HandleTable.SharedSelfAssign` | proj1/socket.cpp:127-142 | Self-assignment of a shared handle changes nothing. |
| `HandleTable.SoleSelfAssign` | proj1/socket.cpp:127-142 | Self-assignment of a sole handle closes its descriptor; a Socket then dereferences null. |
| `HandleTable.FailedConnectExact` | proj1/socket.cpp:151-180 | A failed connect keeps the counts right if and only if the handle was not sharing. |
| `HandleTable.StepIsSafeIffCareful` | proj1/socket.cpp:104-226 | One operation is defined and keeps every count equal to the live handles on its descriptor, open exactly while positive, if and only if the caller's three conditions hold. |
| `HandleTable.StepRefines` | scaling/src/Socket.cpp:535-595 | Each careful operation puts the handles on the descriptors it should, told without counts, and closes a descriptor exactly when it leaves nobody on it. |
| `HandleTable.RunRefines` | scaling/src/Socket.cpp:535-595 | So does every careful run: the descriptors open are exactly those held, and they are closed in the order in which their last handle gave them up. |
| `HandleTable.EveryDescriptorIsClosedOnce` | scaling/src/Socket.cpp:535-595 | Over every careful run, once no handle is on a descriptor, exactly the descriptors ever managed have been closed, each once, and no count is left. |

## Assumptions

* Pool: `_running` is read atomically, tasks return, no `put` comes after `stop` has begun.
* Log and event loop: one foreign thread logs, one thread runs the loop, the time stamp is constant;
  `logging` starts false where a theorem says so, and spurious wakeups are excluded where one says so.
* Chain: every call succeeds, headers and list elements arrive whole, a relay's `send` takes the
  whole chunk, and every call on an open connection moves at least one byte. awget's list has at least
  one element, host, port and requested name fit their fields, and files are below 2^31 bytes.
* DNS: `char` is signed, integers are little endian, operands are evaluated left to right;
  `numBytes`, which the program never sets, starts at zero.
* Streams: `bool` takes one byte and holds 0 or 1, `long` eight; sizes are below 2^31.
* Handles: a raw descriptor is managed once, and a descriptor number stands for one opening.

## Left out

- Operating-system calls (sockets, name lookup, wget, mapping and removing files): inputs and arbitrary choices of the model.
- Time stamps, field widths, number formatting, opening and closing the log: a fixed prefix and ready text stand for them.
- Log setters for name, message, buffer limit and indent size, and replacing the log's file: the format is fixed for a run.
- Scheduler options, signals, agents and the Server template: plumbing and stubs.
- Printing in successParse, base64 of the signature, the constant tables of type and class names: output only; Parse keeps the exit code.
- Packets after the first one in an attempt call, which hold all earlier packets too: their bytes are not modelled; what a server makes of them and what is read from the reply is an arbitrary outcome, which may depend on their number.
- Network failures inside sendOut, which end the process at once.
- DnsRecords.Parse: a reply shorter than 12 bytes, whose header is read without a check, is not modelled; nor is successParse throwing from `substr`, which would end the process with another code.
- DnsQuery.MakeQuestion: a name whose wire form is longer than the 4096-byte buffer, which the program does not check, is not modelled.
- wget writing its file piece by piece, and the mapping changing while it is sent: both are one step, which the spacing theorem makes harmless.
- Files that wget writes under another name when its command is cut inside the name: they are never opened, mapped or removed.
- What follows when a stone has written beyond its buffer or array: the thread that did is stopped, the others go on.
- An empty file in the model of many requests: what its neighbour makes of the closed connection is the subject of Relay, for one request at a time.
- Failed connections and calls of stones and awget, and their error exits.
- Floating-point stream operators: raw byte copies.
- Missing `return` statements in the vector and map operators: read as returning the stream.
- Reads that meet the end of a connection, where the receive loops would not end.
- The 32-bit width of the handle counts, and the copied socket address of a UDP handle.
- The manual close in sync_service::listen of proj1, outside the handle discipline.
