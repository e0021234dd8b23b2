# dwframe in Dafny

A model of the parts of dwframe, a C++ fiber and network framework, whose correctness is not visible in any
one function, with proofs about it.

- **Serialisation buffer** (`Words`, `Codec`, `Blocks`, `ByteArray`, `TypedBuffer`, `TypedStream`, `FileChunks`).
  `ByteArray` is the linked list of heap blocks with its cached node and cursor. Every operation is proved
  to act on a flat byte sequence with a cursor. The typed codecs round-trip over it, for every block size,
  host byte order and list of values; the one list tail for which they do not is characterised exactly.
- **Sockets** (`Streams`). Scatter/gather reads and writes and the fixed-size loops, over a peer that delivers
  and accepts bytes in pieces of any size.
- **Fiber runtime** (`Runtime`, `RuntimeClaims`, `RuntimeSafety`, `RuntimeTasks`, `RuntimeRuns`,
  `RuntimeLocal`, `RuntimeUnsafe`, `RuntimeWakes`, `RuntimeScript`, `RuntimeParts`, `Scheduler`). Workers,
  queue, event table, timers and fibers as a step protocol: each region under a mutex is one step, and so are
  dequeue, switching in, yielding, saving the context, the decrement of the active count, and settling.
  Anything that may lead to a fiber being resumed is a *claim* on it; the runtime moves claims and never
  copies one. From that follow mutual exclusion of fibers over every run, the source's own assertions, and
  recycling of callback fibers. The discipline that callers must follow suffices for this, is what each step
  needs to keep the invariant, and follows from a rule each fiber can keep by itself, which the hooked `sleep`
  and I/O calls do; readiness and timeout never resume a fiber twice for one registration. `Scheduler` proves
  the real dequeue loop against the scan of the protocol, and `RuntimeUnsafe` shows that the discipline is
  needed for safety itself: a second wake-up that can be delivered can always end in two hands. No wake-up is
  lost (`RuntimeWakes`), and a task stays what, and for the thread, it was scheduled (`RuntimeScript`).
  `RuntimeParts` shows that the event table and the timers act as steps and runs of it.
- **Event table** (`IoManager`). Contexts, event bits, pending count and the kernel's interest set agree in
  every state; a history of registrations shows that each is consumed at most once and pushed exactly once.
- **Timers** (`Timers`, `TimerTable`, `TimerRuns`). The ordered set of timer objects with 32-bit deadlines and the
  wake-up flag, proved to answer every run of operations as a plain table of all timers does.
- **HTTP** (`HttpGrammar`, `HttpMessage`, `HttpAutomaton`, `HttpSplit`, `HttpCuts`, `HttpRoundTrip`,
  `HttpLanguage`, `HttpSession`, `HttpExchange`). Printing a request, the request-head automaton (message
  format: sections 3.1.1, 3.2 and 3.3.2 of RFC 7230), the read loop and the body. The automaton accepts
  exactly the heads of a grammar written without it and hands out their parts; a printed request sent over a
  socket is received as the same request, exactly if the socket lets enough through. Which cuts of a head into
  several reads go unnoticed is part of it.
- **Log patterns** (`LogPattern`). The index-driven parser against a grammar, with an exact round trip.

Calls into the kernel are parameters or a `Socket` whose behaviour is an arbitrary plan. Clock values, addresses of
new timers and the outcome of `epoll_ctl` are parameters.

## What the proofs found

- Reading an empty string whose length field ends exactly at the capacity follows a null block
  (`TypedStream.RoundTrip`, `Buffers.ByteArray.Read`).
- The positional `read` is right inside the data only from the cursor's block, and behind the size it hands out
  bytes that were never written, because its range test wraps (`Buffers.PositionalRightExactly`,
  `Buffers.UnwrittenBytesRead`).
- `writeToFile` is right exactly when the cursor is aligned, or nothing or a block's worth of bytes is unread; otherwise
  it never ends before the null block (`FileChunks.WritesAllExactly`).
- A length-prefixed string longer than its prefix can say is truncated silently (`Codec.LengthWraps`).
- `readFixSize` returns its length as an `int`, so a body whose missing part is a multiple of 2^32, or has bit 31 set,
  is received and then refused (`HttpSession.RecvRequest`, `Streams.LengthsLost`).
- A header name may contain control characters and even line ends (`HttpRoundTrip.FieldCharsRead`,
  `HttpLanguage.HeadLanguage`).
- M-SEARCH is printed but cannot be parsed (`HttpRoundTrip.SearchRefused`).
- A request without a body that carries its own content-length does not round-trip (`HttpRoundTrip.SentLength`):
  the receiver takes what follows it for the body (`HttpExchange.ArrivedIsDelivered`).
- A websocket request loses its close flag unless its own connection header says the same
  (`HttpRoundTrip.SentClose`, `HttpRoundTrip.KeepAliveLost`).
- A head that is cut inside a token can be refused or, worse, misread (`HttpSplit.CutInMethod`, `HttpCuts.Misread`); the
  cuts that change nothing are exactly those of `HttpCuts.CutExact` and `HttpCuts.HeaderLineExact`.
- Deadlines are kept in 32 bits but compared with a 64-bit clock: the wait for a deadline that does not fit is
  too short, and always 0 once the clock does not fit either (`Timers.WaitIsRight`, `Timers.WaitAcrossWindows`);
  a refresh across a window can lose a wake-up (`TimerRuns.WrapLosesWakeUp`).
- Text in front of an unclosed brace in a log pattern is emitted behind the error item (`LogPattern.TextAfterError`).
- Dispatching a report of both a registered and an unregistered event fails an assertion
  (`IoManager.IOManager.Dispatch`, `IoManager.ReportOfBoth`).

## Model

| member | source | states |
|---|---|---|
| `Words.SwapReverses` | dwframe/endian.h:11-27 | swapping the bytes of a word of any width and storing it gives the reversed bytes, on either host |
| `Words.SwapIndependentOfHost` | dwframe/bytearray.cc:60-95 | swap-when-orders-differ followed by a native store writes the wanted byte order, whatever the host's order |
| `Words.SignedRoundTrip` | dwframe/bytearray.cc:205-222 | every value in a signed or unsigned range survives the two's-complement word and back |
| `Words.StoredByte` | dwframe/bytearray.cc:60-95 | big endian puts the highest byte of a word first and little endian the lowest, byte by byte as numbers |
| `Codec.VarintFits` | dwframe/bytearray.cc:123-145 | at most 5 bytes exactly below 2^35 and at most 10 exactly below 2^70, so no 32-bit or 64-bit value overruns `tmp` |
| `Codec.OrDisjoint` | dwframe/bytearray.cc:227-255 | bitwise or of a number and one shifted above its bits is their sum |
| `Codec.OrRound` | dwframe/bytearray.cc:229-237 | in every round of the read loop what is in `result` lies below the seven bits that come in, so the or keeps both, inside the word |
| `Codec.VarintRoundTrip` | dwframe/bytearray.cc:123-255 | for every value below 2^32, or 2^64, decoding its encoding, with shifts and bitwise or, followed by any bytes, gives the value and consumes exactly the encoding |
| `Codec.VarintStops` | dwframe/bytearray.cc:227-255 | bytes that never end a value are given up after exactly 5, or 10, of them |
| `Codec.VarintOf300` | dwframe/bytearray.cc:123-145 | 300 is written as AC 02 |
| `Codec.ZigZagInverse` | dwframe/bytearray.cc:97-118 | decode undoes encode for every signed value, the most negative one included, modulo the word |
| `Codec.ZagZigInverse` | dwframe/bytearray.cc:97-118 | encode undoes decode for every word, so ZigZag is a bijection |
| `Codec.ValueRoundTrip` | dwframe/bytearray.cc:54-295 | each kind of value, for all of its 2^8 to 2^64 values, encoded and followed by any bytes, decodes to itself and consumes its encoding |
| `Codec.ValuesHeld` | dwframe/bytearray.cc:54-145 | the words hold exactly the ranges of the parameter types, given as numbers |
| `Codec.EveryMemberOffered` | dwframe/bytearray.h:32-60 | all read and write members of the class are among the kinds |
| `Codec.TextRoundTripExactly` | dwframe/bytearray.cc:159-178 | a length-prefixed string comes back alone if and only if its length fits the prefix |
| `Codec.LengthWraps` | dwframe/bytearray.cc:159-173 | any length is written and read back modulo the width of its field |
| `Buffers.ByteArray.constructor` | dwframe/bytearray.cc:31-40 | an empty buffer of one block, big endian, with the cursor at its start |
| `Buffers.ByteArray.CursorIsQuotient` | dwframe/bytearray.cc:401-417 | in every valid state the cached node is block `position / baseSize`, null exactly at the end of the capacity, and the capacity is the base size times the number of nodes |
| `Buffers.ByteArray.AddCapacity` | dwframe/bytearray.cc:590-619 | room for n more bytes, in whole blocks, no more than needed; memory, cursor and size unchanged |
| `Buffers.ByteArray.Write` | dwframe/bytearray.cc:310-343 | for every block size, the flat memory is the old one, grown, with the bytes patched in at the cursor; cursor, size and capacity stated |
| `Buffers.ByteArray.Read` | dwframe/bytearray.cc:344-371 | the next n bytes of the flat memory; throws exactly when fewer are unread; follows a null block exactly for n = 0 at a full capacity |
| `Buffers.ByteArray.ReadAt` | dwframe/bytearray.cc:372-400 | the whole outcome of the positional read: the wrapping range test, the start inside the cursor's block, the null block, the bytes |
| `Buffers.PositionalRightExactly` | dwframe/bytearray.cc:372-400 | the positional read does what it is for, whatever the memory holds, if and only if only its end lies behind the size, or it lies in the data and in the cursor's block with the cursor before the capacity, or it begins behind the size and its length exceeds the wrapped difference |
| `Buffers.UnwrittenBytesRead` | dwframe/bytearray.cc:373-378 | a failing input: a new buffer hands out bytes that were never written |
| `Buffers.ByteArray.ToString` | dwframe/bytearray.cc:472-480 | exactly the unread bytes, without moving the cursor |
| `Buffers.ByteArray.SetPosition` | dwframe/bytearray.cc:401-417 | refused exactly behind the capacity; otherwise cursor and size are set and the node walk lands on the right block |
| `Buffers.ByteArray.Clear` | dwframe/bytearray.cc:298-309 | one block is left, cursor and size at its start |
| `Buffers.ByteArray.CoversGathers` | dwframe/bytearray.cc:496-560 | pieces that cover a stretch are non-empty and concatenate to exactly its bytes |
| `Buffers.ByteArray.GetReadBuffers` | dwframe/bytearray.cc:496-525 | non-empty pieces whose concatenation is the next min(len, unread) bytes |
| `Buffers.ByteArray.GetReadBuffersAt` | dwframe/bytearray.cc:526-560 | the same from any position, clamped by what is unread behind the cursor; a null block is followed exactly when the pieces exceed the capacity; they stay within the data exactly when the position is not behind the cursor or the bytes are there |
| `Buffers.ByteArray.GetWriteBuffers` | dwframe/bytearray.cc:561-589 | pieces that cover len bytes behind the cursor; data and cursor unchanged |
| `Buffers.ByteArray.Scatter` | dwframe/socket_stream.cc:28-40 | filling the first bytes of such pieces patches the flat memory where the pieces lie |
| `TypedBuffer.VarintBytes` | dwframe/bytearray.cc:123-145 | the shift loop over the temporary array produces the base-128 form and stays inside the array |
| `TypedBuffer.NumToBytes` | dwframe/bytearray.cc:54-145 | every number writer hands over the same bytes on every host |
| `TypedBuffer.WriteValue` | dwframe/bytearray.cc:54-178 | a typed write is the flat sequence overlaid with the value's encoding at the cursor |
| `TypedBuffer.ReadVarint` | dwframe/bytearray.cc:227-255 | the shift-and-or loop reads what the recursive decoder reads, also when the bytes run out in the middle |
| `TypedBuffer.ReadFixed` | dwframe/bytearray.cc:194-222 | the native load and conditional swap give the value in the wanted byte order |
| `TypedBuffer.ReadText` | dwframe/bytearray.cc:268-295 | a string read is the decoder's result; the exception is an empty string that ends at the capacity, which follows a null block |
| `TypedBuffer.ReadValue` | dwframe/bytearray.cc:185-295 | every typed read agrees with the decoder on the unread bytes, in result and cursor, with that one exception |
| `TypedStream.StreamRoundTrip` | dwframe/bytearray.cc:54-295 | decoding the encoding of any list of mixed typed values gives the list and its length |
| `TypedStream.WriteAll` | dwframe/bytearray.cc:54-178 | writing a list is one overlay with its encoding |
| `TypedStream.ReadAll` | dwframe/bytearray.cc:185-295 | reading the same kinds gives the list and leaves nothing, with the exact exception |
| `TypedStream.FullExactly` | dwframe/bytearray.cc:590-619 | a buffer grown by need is filled to its capacity exactly when the total is a positive multiple of the block size |
| `TypedStream.RoundTrip` | dwframe/bytearray.cc:54-295 | write any list, rewind, read the same kinds: for every block size, host and order the list comes back with nothing unread, unless the list ends in an empty string and its encoding fills whole blocks; then, and only then, a null block is followed |
| `FileChunks.WritesAllExactly` | dwframe/bytearray.cc:428-439 | the chunks are the unread bytes in order, each once, if the cursor is at a block boundary or no byte or a block's worth of bytes is unread; in all other cases the loop runs off the chain |
| `FileChunks.UnalignedRunsOff` | dwframe/bytearray.cc:432-439 | an unaligned cursor with some but fewer unread bytes than a block: every turn exchanges offset and count, so a null block is followed |
| `FileChunks.TilesBytes` | dwframe/bytearray.cc:432-439 | chunks that tile a stretch carry exactly its bytes |
| `FileChunks.WriteToFile` | dwframe/bytearray.cc:428-439 | the node walk ends if and only if the condition holds, and then the file is exactly the unread bytes |
| `Streams.Accept` | dwframe/socket_stream.cc:28-40 | kernel fill plus cursor advance has the effect of writing the bytes |
| `Streams.ReadSome` | dwframe/socket_stream.cc:28-40 | one call reads what it is allowed, up to the length and what is there, and writes it at the cursor |
| `Streams.ReadFixSize` | dwframe/stream.cc:19-29 | in whatever pieces the bytes come, the buffer is as if they had been written at once; their number is the least of the length, what the peer has and what the calls before the first refusal grant; the result is the length as an `int` or what the refusing call returned |
| `Streams.WriteSome` | dwframe/socket_stream.cc:48-59 | the peer gets a prefix of the unread bytes and the cursor skips exactly these |
| `Streams.WriteFixSize` | dwframe/stream.cc:46-56 | the peer gets the unread bytes in order, each once, as many as length, data and the calls before the first refusal allow, and the exact result |
| `Streams.RecvFixSize` | dwframe/stream.cc:5-17 | the bytes in order however they were split, as many as length, peer and the calls before the first refusal allow, and the exact result |
| `Streams.PatienceSuffices` | dwframe/stream.cc:5-17 | if every call lets something through, however little, all of it arrives |
| `Streams.LengthsLost` | dwframe/stream.cc:5-17 | failing inputs: complete reads of 2^31 and 2^32 bytes look like failed ones |
| `Runtime.Scan` | dwframe/scheduler.cc:235-254 | the first entry that is neither pinned elsewhere nor executing; everything before it is passed over for a reason |
| `Scheduler.TaskList.Schedule` | dwframe/scheduler.h:74-116 | a task goes to the end; a tickle is wanted exactly when the list was empty |
| `Scheduler.TaskList.ScheduleAll` | dwframe/scheduler.h:118-134 | all callbacks in order in one critical section |
| `Scheduler.TaskList.Take` | dwframe/scheduler.cc:233-256 | the dequeue loop takes the first eligible entry, keeps the others in order, counts the worker, and tickles exactly when it passed a pinned entry or left entries behind |
| `RuntimeSafety.Moves` | dwframe/scheduler.cc:229-292 | every step only moves wake-ups, never duplicates one, and creates at most the one its caller asked for |
| `RuntimeRuns.StepKeeps` | dwframe/scheduler.cc:229-292 | every disciplined step keeps linear wake-ups, fiber placement, guarded hands and spare fibers |
| `RuntimeRuns.DisciplineIsExact` | dwframe/IoManager.cc:124-136 | an enabled step keeps the invariant (linear wake-ups, placement, guarded hands) if and only if it obeys the discipline |
| `RuntimeRuns.MutualExclusion` | dwframe/scheduler.cc:229-292 | over every disciplined run with any number of workers: one wake-up per fiber at most, no fiber held by two workers, no assertion of the next step fails, spare callback fibers are INIT and on no worker |
| `RuntimeRuns.AssertionsHold` | dwframe/fiber.cc:87-112 | the state assertions in `reset`, `swapIn` and `addEvent` hold when reached |
| `RuntimeRuns.SpareIdle` | dwframe/scheduler.cc:274-292 | the recycled callback fiber is INIT and held by nobody, so no suspended stack is reused |
| `RuntimeRuns.TwoWakesTwoHands` | dwframe/scheduler.cc:236-254 | without the discipline it fails: two wake-ups put one fiber into the hands of two workers |
| `RuntimeUnsafe.RipeTwice` | dwframe/scheduler.cc:229-292 | whenever two wake-ups of one fiber can still be delivered and two workers live, the runtime by its own steps can put the fiber into the hands of both, wherever fiber and workers are |
| `RuntimeUnsafe.SecondWakeExact` | dwframe/IoManager.cc:124-136 | after any disciplined run, a further deliverable wake-up obeys the discipline if and only if no run of the runtime's own steps then puts the fiber into two hands |
| `RuntimeUnsafe.NeverStuck` | dwframe/scheduler.cc:229-311 | a worker that has not exited always has a step to take |
| `RuntimeLocal.LocalDisciplined` | dwframe/hook.cc:115-136 | a step of a fiber that follows the local rule obeys the global discipline |
| `RuntimeLocal.BookKept` | dwframe/scheduler.cc:258-292 | a running fiber that has armed nothing is claimed nowhere, across every step of anyone |
| `RuntimeLocal.LocalMutualExclusion` | dwframe/scheduler.cc:229-292 | if every running fiber registers at most one wake-up before it yields, then over every run no two workers hold the same fiber, also when the wake-up comes before the park completes |
| `RuntimeLocal.ResumedOnce` | dwframe/hook.cc:141-153 | over every run, a fiber that has armed nothing since it was resumed has no wake-up left over |
| `RuntimeLocal.EventIsLocal` | dwframe/hook.cc:111-141 | waiting for a descriptor with a timeout follows the rule, and the event is the fiber's only wake-up |
| `RuntimeLocal.FailedAddIsLocal` | dwframe/hook.cc:126-136 | where `addEvent` fails, timer and state are as before the call and nothing is armed |
| `RuntimeLocal.TakenOnce` | dwframe/hook.cc:115-123 | on every run without a new registration, readiness and the timeout's `cancelEvent` together take the registration at most once, on whatever workers or threads |
| `RuntimeLocal.SleepIsLocal` | dwframe/hook.cc:166-202 | sleeping follows the rule, and the timer is the fiber's only wake-up |
| `RuntimeTasks.TaskStep` | dwframe/scheduler.cc:233-292 | every step keeps: tasks at one place, none lost, the active count, and no worker with an entry that names another |
| `RuntimeRuns.TaskConservation` | dwframe/scheduler.cc:229-311 | over every run each scheduled task is retired or at exactly one place; the active count is the number of workers between dequeue and settle; no worker has an entry in hand that names another |
| `RuntimeScript.ScheduledForThread` | dwframe/scheduler.h:74-116 | over every run, by its script: a task scheduled for a thread is in the hand of no other worker, and what is executed under its number is that task |
| `RuntimeScript.TriggeredForAny` | dwframe/IoManager.cc:27-41 | over every run, by its script: the waiter of a triggered event stays what it was registered as and is for any thread |
| `RuntimeWakes.WakeKept` | dwframe/scheduler.cc:229-292 | in every step of a disciplined run each wake-up has a place to go, unless its fiber is resumed or the users take it away |
| `RuntimeWakes.NoWakeLost` | dwframe/scheduler.cc:229-292 | over every disciplined run a fiber with a wake-up keeps one until a worker resumes it or the users take it away: none is lost |
| `RuntimeWakes.EndedForGood` | dwframe/scheduler.cc:258-272 | over every run, disciplined or not, a fiber that has ended and left its worker is on no worker ever again |
| `RuntimeWakes.EndsByItself` | dwframe/fiber.cc:139-199 | over every run, disciplined or not, a fiber has ended only if it left its worker as ended itself |
| `RuntimeWakes.ResumedRuns` | dwframe/scheduler.cc:261-264 | a fiber that is resumed and has not ended is executing then, on the worker that resumed it |
| `RuntimeRuns.SingleWorkerQuiescence` | dwframe/scheduler.cc:293-311 | one worker without outside scheduling exits only with no queued or running task, no registered event and no timer |
| `RuntimeParts.ChangeIsStep` | dwframe/IoManager.cc:87-243 | every change of the event table is a step of the protocol with the same effect on waiters and queue |
| `RuntimeParts.HistoryIsRun` | dwframe/IoManager.cc:87-243 | every history of the table under other threads is a run of the protocol that leaves the same waiters and pushes the same tasks |
| `RuntimeParts.AddIsStep` | dwframe/timer.cc:110-126 | adding a timer to the table is a step of the protocol |
| `RuntimeParts.CancelIsStep` | dwframe/timer.cc:43-52 | a cancel that returned true is a step of the protocol |
| `RuntimeParts.OthersAreSilent` | dwframe/timer.cc:53-102 | refresh, reset and refused operations change nothing the protocol sees |
| `RuntimeParts.ExpiryIsRun` | dwframe/timer.cc:158-195 | `listExpiredCb` is a run of single expiries by the idle worker, which then holds the callbacks in order |
| `IoManager.ExactlyOnce` | dwframe/IoManager.cc:27-41 | over every history each registration is live, deleted or woken, exactly one of these, and the pushed tasks are the waiters of the woken ones, each once |
| `IoManager.FdContext.BitIsKey` | dwframe/IoManager.cc:11-41 | a bit is set exactly when the descriptor's event has a waiter, and the event context holds that waiter |
| `IoManager.IOManager.constructor` | dwframe/IoManager.cc:42-76 | the empty table of 32 contexts agrees with an empty interest set |
| `IoManager.IOManager.Resize` | dwframe/IoManager.cc:78-86 | growth keeps every context at its own index and adds empty ones |
| `IoManager.IOManager.EpollCtl` | dwframe/IoManager.cc:112-117 | its precondition is the kernel's: ADD only when absent, MOD and DEL only when present; every caller meets it |
| `IoManager.IOManager.AddEvent` | dwframe/IoManager.cc:87-138 | table, interest set and pending count stay in agreement; aborts exactly when the event is registered; otherwise the waiter is registered exactly when the kernel agrees; the table grows to 1.5 times the descriptor |
| `IoManager.IOManager.DelEvent` | dwframe/IoManager.cc:139-170 | consumes the registration without a push, exactly when it was registered and the kernel agrees |
| `IoManager.IOManager.CancelEvent` | dwframe/IoManager.cc:172-205 | consumes the registration and pushes its waiter once, under the same condition |
| `IoManager.IOManager.TriggerEvent` | dwframe/IoManager.cc:27-41 | pushes the waiter, clears bit and context, and counts down |
| `IoManager.IOManager.CancelAll` | dwframe/IoManager.cc:206-243 | pushes the waiters of the descriptor, READ before WRITE, each once, and leaves none registered |
| `IoManager.IOManager.Dispatch` | dwframe/IoManager.cc:313-352 | pushes exactly the waiters of the reported events, READ before WRITE, and takes them out of the table; the assertion in `triggerEvent` fails exactly when something registered and something unregistered are reported together |
| `IoManager.IOManager.KernelWatches` | dwframe/IoManager.cc:87-243 | in every state the kernel watches exactly the registered events, and the pending count is their number |
| `IoManager.ReportOfBoth` | dwframe/IoManager.cc:320-347 | a failing input: both registered, WRITE deleted behind a report of both |
| `HttpMessage.MethodFound` | dwframe/http/http.cc:16-30 | no text starts with two methods of the table, so the prefix search finds the method that is there |
| `HttpMessage.MethodTexts` | dwframe/http/http.h:11-24 | the texts of methods 0 to 11 give their numbers, whatever follows |
| `HttpMessage.MoreMethodTexts` | dwframe/http/http.h:25-38 | the same for methods 12 to 23 |
| `HttpMessage.LastMethodTexts` | dwframe/http/http.h:39-53 | the same for methods 24 to 33 |
| `HttpMessage.SetHeader` | dwframe/http/http.cc:92-94 | sets the value under the case-folded name and keeps all other headers |
| `HttpMessage.FoldIgnoresCase` | dwframe/http/http.cc:51-54 | two names are one exactly if they differ at most in the case of letters |
| `HttpMessage.Print` | dwframe/http/http.cc:158-190 | the appending loop prints the head and the body of the specification |
| `HttpMessage.PrintedText` | dwframe/http/http.cc:158-190 | a request in print, character by character |
| `HttpMessage.DecimalRoundTrip` | dwframe/http/http.h:173-185 | reading a printed 64-bit decimal gives the number back |
| `HttpAutomaton.Execute` | dwframe/http/http11_parser.rl.cc:91-135 | the machine's loop computes the run of the transition function |
| `HttpRoundTrip.RunMethod` | dwframe/http/http11_parser.rl.cc:117-157 | a readable method and a blank lead to the target state with the method stored |
| `HttpRoundTrip.TargetCharsRead` | dwframe/http/http11_parser.rl.cc:735-1191 | in targets the automaton takes the characters of RFC 3986 and bytes above 127, and `^{}` if relaxed, neither more nor less |
| `HttpRoundTrip.FieldCharsRead` | dwframe/http/http11_parser.rl.cc:370-628 | in header names it takes the characters of a token and control characters, in values visible characters, blanks, bytes above 127 and controls but line ends |
| `HttpRoundTrip.OthersRefused` | dwframe/http/http11_parser.rl.cc:735-1191 | any other character inside a target is refused |
| `HttpRoundTrip.RunUri` | dwframe/http/http11_parser.rl.cc:735-1000 | legal path, query or fragment text with escapes changes nothing but the position |
| `HttpRoundTrip.RunTarget` | dwframe/http/http11_parser.rl.cc:155-1191 | an origin-form target is split into exactly its path, query and fragment, empty parts included |
| `HttpRoundTrip.RunVersion` | dwframe/http/http11_parser.rl.cc:274-370 | `HTTP/1.0` and `HTTP/1.1` are read back |
| `HttpRoundTrip.RunLine` | dwframe/http/http11_parser.rl.cc:370-515 | a printed header line sets exactly that header |
| `HttpRoundTrip.AppliedIs` | dwframe/http/http.cc:177-182 | the order in which the header map is printed does not matter |
| `HttpRoundTrip.HeadRoundTrip` | dwframe/http/http11_parser.rl.cc:91-1191 | for every request that is legal by a grammar of its own, both values of `uri_relaxed` and anything behind it, parsing the printed head consumes exactly the head and recovers method, target parts, version and headers plus the added ones |
| `HttpLanguage.HeadRead` | dwframe/http/http11_parser.rl.cc:91-1191 | every head of the grammar, with any blanks before values and either line end, is accepted as a whole, and path, query, fragment, version and headers are its parts |
| `HttpLanguage.HeadFound` | dwframe/http/http11_parser.rl.cc:91-1191 | every accepted text starts with a head of the grammar |
| `HttpLanguage.HeadLanguage` | dwframe/http/http11_parser.rl.cc:91-1191 | the automaton accepts a text if and only if it starts with a head of the grammar; it consumes exactly that head, gives its parts, and reports an error exactly if the text starts with no known method |
| `HttpRoundTrip.SentLength` | dwframe/http/http.cc:183-190 | the parsed content-length is the body's length if and only if there is a body or the request had set none of its own |
| `HttpRoundTrip.SentClose` | dwframe/http/http.cc:174-201 | the close flag survives if and only if the connection header is printed from it or the request's own header, or the lack of one, says the same |
| `HttpRoundTrip.KeepAliveLost` | dwframe/http/http.cc:174-201 | a failing input: a websocket request that keeps the connection open without saying so |
| `HttpRoundTrip.SearchRefused` | dwframe/http/http11_parser.rl.cc:135-147 | M-SEARCH is printed but cannot be read |
| `HttpSession.RunCtl` | dwframe/http/http11_parser.rl.cc:110-628 | control state and position of a run depend on the state and the text alone, not on marks or callbacks |
| `HttpSession.CtlSplit` | dwframe/http/http_parser.cc:167-171 | a piece that ends inside the head is consumed entirely and the next goes on where it ended |
| `HttpSession.RequestParser.Execute` | dwframe/http/http_parser.cc:167-171 | consumes what the run consumes and shifts the rest to the front of the buffer |
| `HttpSession.BodyLengthIs` | dwframe/http/http_session.cc:42-43 | a 64-bit number in the header is the body length as a signed integer; a text that is not all digits counts as none |
| `HttpSplit.RunMoved` | dwframe/http/http11_parser.rl.cc:91-1191 | the run over a piece is the run over it behind another text, all marks that matter moved |
| `HttpSplit.RunBefore` | dwframe/http/http11_parser.rl.cc:91-1191 | text that follows does not change a run; one that ends within the head goes on from there |
| `HttpCuts.CutExact` | dwframe/http/http11_parser.rl.cc:91-1191 | one cut of an accepted head in a token of the request line goes unnoticed if and only if, in the method, the rest of the text starts with the same method, or it lies behind `HTTP/1.1`; never in path, query or fragment |
| `HttpCuts.RequestLineExact` | dwframe/http/http11_parser.rl.cc:91-1191 | the same for any piece of any split, where a piece that ends within the token it starts in also changes nothing |
| `HttpCuts.HeaderLineExact` | dwframe/http/http_parser.cc:132-143 | a cut in a header line goes unnoticed at the end of the line if and only if the line, and for a cut in its name the line with the rest of the name, repeats what is set |
| `HttpCuts.PieceUnseen` | dwframe/http/http11_parser.rl.cc:94-97 | a piece whose first cut goes unnoticed in this sense, wherever it is, leaves the parser as the unsplit text does |
| `HttpCuts.VersionCut` | dwframe/http/http_parser.cc:113-127 | from inside the version only all of `HTTP/1.1` may be cut off, because an empty version compares equal |
| `HttpSplit.CutInMethod` | dwframe/http/http_parser.cc:81-92 | a failing input: behind `GE` a piece that starts with `T ` is refused |
| `HttpCuts.Misread` | dwframe/http/http_parser.cc:81-92 | a failing input: UNSUBSCRIBE cut behind `UN` is accepted as SUBSCRIBE |
| `HttpSession.Piece` | dwframe/http/http_session.cc:28-40 | one call keeps the state of the loop; a finished call has consumed something, so the full-buffer test never fires on it |
| `HttpSession.ReadHead` | dwframe/http/http_session.cc:22-41 | for every split into reads, the head ends where the automaton ends it on all the bytes; if the pieces change nothing, in the sense of these conditions, the parser is that of the unsplit head, and a failure means that the automaton fails or the reads ran out |
| `HttpSession.ReadBody` | dwframe/http/http_session.cc:42-61 | the body is the bytes read beyond the head, cut or completed from the stream; it is complete exactly if the calls let it through and its length survives conversion to `int` |
| `HttpSession.RecvRequest` | dwframe/http/http_session.cc:11-66 | for every content length, leftover and partition into reads, a returned request has as body exactly the first content-length bytes after the head, none if the length is not positive; if the pieces change nothing its fields are those of the unsplit head, and it is returned if and only if the head is accepted, the calls behind those for the head let the rest through and its length survives conversion to `int` |
| `HttpExchange.ReceivePrinted` | dwframe/http/http_session.cc:11-66 | a printed request, read in any pieces that change nothing by the conditions of `HttpCuts`, is received as that request, and exactly if the calls of the socket suffice for head and body and the length of what is left for the body survives conversion to `int` |
| `HttpExchange.ArrivedIsDelivered` | dwframe/http/http_session.cc:42-63 | what arrives is the printed request if and only if that has a body or announces none |
| `HttpExchange.DeliveredIs` | dwframe/http/http.cc:158-201 | what is received has every field of the sender's request but the websocket flag, the close flag under the exact condition, and its headers with the printed ones added |
| `Timers.ExpiredAre` | dwframe/timer.cc:6-28 | the set cut at now contains exactly the timers with a smaller deadline, ties decided by address |
| `Timers.LowShift` | dwframe/timer.cc:90-97 | the 64-bit difference of the truncated deadline still gives the right new deadline |
| `Timers.LowBits` | dwframe/timer.cc:6-28 | deadlines below 2^32 are kept as they are and those beyond come round again |
| `Timers.Timer.Cancel` | dwframe/timer.cc:43-52 | true exactly for a live timer; the erased element exists; callback gone; a right wait stays right |
| `Timers.Timer.Refresh` | dwframe/timer.cc:53-70 | deadline from now, set membership unchanged; the wait stays right if and only if the deadline did not fall below the awaited one |
| `Timers.Timer.Reset` | dwframe/timer.cc:71-102 | new period from now or from the old start; asks for a wake-up exactly when the timer comes first and none is under way; a right wait stays right |
| `Timers.TimerManager.AddTimer` | dwframe/timer.cc:110-126 | the set gains the timer; the wake-up is requested exactly when it comes first and none is under way; a right wait stays right |
| `Timers.TimerManager.GetNextTimer` | dwframe/timer.cc:140-157 | clears the flag and records the earliest deadline; the wait in the code's own arithmetic, and the largest 64-bit value exactly if no timer is live, longer than any wait for a deadline |
| `Timers.TimerManager.ListExpired` | dwframe/timer.cc:158-195 | hands out, in deadline order, the callbacks of the expired timers; one-shot timers lose theirs, recurring ones start again at now, all others are unchanged; exact condition for the wait |
| `Timers.RestartIsLater` | dwframe/timer.h:28-31 | counting from any other clock value gives a 32-bit deadline that is no smaller if and only if adding the difference does not carry |
| `Timers.WaitIsRight` | dwframe/timer.cc:147-154 | the wait is the true time to the deadline if and only if the deadline has passed or itself fits into 32 bits |
| `Timers.WaitAcrossWindows` | dwframe/timer.cc:147-154 | a failing input: the clock still fits, the deadline does not |
| `Timers.ExpiredInTime` | dwframe/timer.cc:178-182 | within one window, exactly the timers whose true deadline has come are cut off |
| `TimerRuns.Perform` | dwframe/timer.cc:43-195 | any operation, for any clock, gives the answer and the next table of the reference without an ordered set; in one window it keeps the wait right |
| `TimerRuns.Play` | dwframe/timer.cc:43-195 | over every run the answers, handed-out callbacks included, are those of the reference tables, and the set holds exactly the live timers; in one window the idle worker never waits beyond the earliest deadline without a wake-up under way |
| `TimerTable.CancelSilences` | dwframe/timer.cc:43-52 | over every run: after a cancel that returned true the timer never fires |
| `TimerTable.CancelledNotHanded` | dwframe/timer.cc:43-52 | the same in terms of arguments and results alone: with callbacks given once, the callback of a cancelled timer is not among those handed out later |
| `TimerTable.OneShotOnce` | dwframe/timer.cc:185-193 | over every run a timer that does not recur fires at most once |
| `TimerTable.Given` | dwframe/timer.cc:110-126 | every callback in a table was given when its timer was made |
| `TimerRuns.WrapLosesWakeUp` | dwframe/timer.cc:53-70 | a concrete run across the end of a window in which it does |
| `LogPattern.Scan` | dwframe/log.cc:382-418 | the inner loop finds the specification that the grammar has at the percent sign, or an unclosed brace |
| `LogPattern.Tokens` | dwframe/log.cc:368-437 | the scan terminates on every pattern and `vec` is the parse of the grammar |
| `LogPattern.KnownExactly` | dwframe/log.cc:439-456 | the keys are the thirteen letters of the table |
| `LogPattern.KeysCanonical` | dwframe/log.cc:439-456 | each key can be written alone or with any format that has no closing brace |
| `LogPattern.Init` | dwframe/log.cc:366-472 | fixed texts, keys and formats in the order of the pattern; the error flag exactly for an unclosed brace or an unknown key; without an error the items written out again are the pattern, unless that has empty braces |
| `LogPattern.ParsePrints` | dwframe/log.cc:370-437 | without an unclosed brace the printed items, one after the other, are the pattern |
| `LogPattern.ClosedIsWhole` | dwframe/log.cc:388-417 | the parse has an error item for a brace if and only if some brace that opens a format is not closed |
| `LogPattern.TilesExactly` | dwframe/log.cc:370-437 | the printed items are the pattern if and only if every brace that opens a format is closed |
| `LogPattern.TextAfterError` | dwframe/log.cc:427-431 | wherever an unclosed brace is met with text pending, that text comes out behind the error item |
| `LogPattern.ParseCanonical` | dwframe/log.cc:370-437 | every error-free parse is canonical |
| `LogPattern.RoundTrip` | dwframe/log.cc:370-437 | an item list is read back from its printed form if and only if it is canonical |
| `LogPattern.InitPrinted` | dwframe/log.cc:366-472 | canonical items with the thirteen keys come back with their texts, keys and formats, and no error |

## Left out

- Buffers.ByteArray.Clear: does not model the deletion of the other nodes; they are unreachable afterwards.
- Buffers.ByteArray.AddCapacity: the number of blocks is an exact ceiling; the source computes it in `double`, which is the same below 2^53. Sizes are unbounded; only the range test of the positional read wraps.
- TypedBuffer.WriteValue: `float` and `double` are their bit patterns, that is, fixed 32- and 64-bit words.
- FileChunks.WriteToFile: opening the file and stream errors; a negative chunk length appends nothing.
- HttpAutomaton.Execute: covers states 1 to 18, 20 to 23, 26 to 33, 175 to 193 and 348. Scheme, authority, XML and JSON framing lead to a state called OUTSIDE, where the model stops.
- HttpLanguage.HeadLanguage: texts that lead to OUTSIDE, where the source goes on to read a scheme, an authority or a frame, count as not accepted.
- HttpSession.RecvRequest: for pieces that do change something, only the place of the head's end and the body are stated, not the fields. A query mark left over from an earlier piece gives empty text here; the source computes a huge length. `std::string` running out of memory for a huge body is not modelled.
- HttpCuts.HeaderLineExact: is about the end of the line that was cut; a later line of the same name can make the difference disappear.
- HttpMessage.DecimalRoundTrip: numbers with a sign, which the library conversion also accepts, count as malformed.
- HttpMessage.Print: request and parser state are values; the setters that the callbacks call are updates of the value, so aliasing of the shared request is not captured.
- Timers.TimerManager.AddTimer: callbacks are not null; the allocator gives an address no existing timer has. Condition timers wrap the callback and change nothing else.
- Timers.WaitIsRight: the conversion of the wait to `int` and its cut at one second in `idle` are not modelled, and neither is `detectClockRollover`, which is not called.
- TimerRuns.Play: the clock is read at the step; two threads whose reads are reordered by the lock are not captured.
- RuntimeRuns.SingleWorkerQuiescence: is about one worker, because with several the active count drops before a READY fiber is scheduled again, and the stopping test is not one snapshot.
- IoManager.IOManager.Dispatch: the tickle pipe is skipped. Each method is one step under the descriptor's lock; interleavings are covered by the step protocol.
- RuntimeLocal.EventIsLocal: the `timer_info` flag decides only what the call returns, not who is resumed.
- RuntimeParts.HistoryIsRun: is stated for callbacks registered by other threads; `ChangeIsStep` covers fibers and workers step by step.
- RuntimeRuns.DisciplineIsExact: that the discipline is needed is shown for the invariant; for safety itself `RuntimeUnsafe.SecondWakeExact` shows it for wake-ups for any thread, on the list, in events, or in timers while some worker is idle, not for a fiber that ends or yields READY with a wake-up outstanding.
- RuntimeWakes.NoWakeLost: that a worker eventually takes a wake-up up is not stated, only that it stays there to be taken; fairness of threads is not modelled.
- RuntimeRuns.MutualExclusion: an outside thread registers events with callbacks only; the source would take the thread's own main fiber otherwise.
- Fiber stacks and contexts, `Fiber::call` and `back`, thread start and join, `Scheduler::stop`, multi-worker shutdown.
- HTTP responses and the response automaton, query and cookie parsing, servlets, TCP and HTTP servers.
- Addresses, file-descriptor manager, configuration, appenders, log events and their formatting, hex dump.
