# KerryL/utilities: the deterministic core, in Dafny

This project models five pieces of the C++ utility collection and proves properties about them.

- **CPPSocket**: the bookkeeping of a socket object.
  - Which kind of socket it is, and what `Create` does with each kind.
  - For a TCP server:
    - the set of connected clients and `maxSock`;
    - each client's latest message (`clientBuffers`);
    - the queue of clients with unread data (`clientRcvQueue`);
    - the per-client `unsigned short` counter of failed sends (`failedSendCount`).
  - Every operating-system call becomes a parameter carrying its result. This covers `socket`, `bind`, `listen`, `connect`, `accept`, `select`, `send` and `recv`.
  - Each step of the listener thread is its own method. The start is `ListenThreadStart`, one `select` is `Select`, the accept branch is `Accept`, and a ready client is `HandleClient`.
- **ConfigFile**: reading a configuration and rewriting one field.
  - A file is its sequence of lines.
  - The line loops of `ReadConfiguration` and `WriteConfiguration` are methods. Each is proved against a recursive specification function (`ReadFrom`, `RewriteFrom`).
  - The line splitting, the readers and the registry of items are modelled too.
- **MemoryMappedFile**:
  - `ReadNextLine` works over a character array and a cursor field.
  - Its invariant: the text before the cursor is exactly the returned lines, each with its `'\n'`.
  - The 64-bit size assembly of the constructor is modelled as well.
- **Profiler**:
  - `Enter` pushes onto the stack of entered functions.
  - `Exit` pops the stack and charges the function with its time and one call.
  - The string helpers `RightPadString` and `ExtractShortName` are included.
  - The stack discipline over whole sequences of calls is proved as lemmas.
- **TimingUtility**:
  - the registry that maps each time step to a slot of seven parallel statistics vectors;
  - the per-loop update of the current slot;
  - `MakeColumn`.
  - The class is proved against a value-level registry (`Register`) and a per-slot update (`UpdateSlot`).

Modules:

| module | file | models |
|---|---|---|
| `Text` | text.dfy | `std::string::find`, `find_first_not_of`, `find_last_of` and the fill constructor, with npos as `None` |
| `SocketTypes` | socket_types.dfy | cppSocket.h |
| `CppSocket` | cpp_socket.dfy | cppSocket.cpp |
| `ConfigParse` | config_parse.dfy | the parsing functions of configFile.cpp |
| `ConfigFile` | config_file.dfy | the `ConfigFile` object (configFile.h, configFile.cpp) |
| `MemoryMappedFile` | memory_mapped_file.dfy | memoryMappedFile.cpp |
| `Profiler` | profiler.dfy | profiler.h |
| `TimingUtility` | timing_utility.dfy | timingUtility.cpp |

Quirks of the code are modelled as written and shown by lemmas:
- **SplitFieldFromData**:
  - It takes the data from after the *later* of the first space and the first `=`, so `name=John Smith` reads as `Smith`.
  - It skips one run of spaces or one run of `=` after that separator, not a mixed run: `k = = v` reads as `= v`.
  - `substr(npos)` throws when that separator is the last character.
  - So a value written by **WriteConfiguration** does not always read back. An empty value is written as `k = ` and reads back as `" "`, and a value's leading run of spaces is lost.
- **WriteConfiguration** carries inline comments over to other lines.
  - Before the match, a blank line or full-line comment is written followed by the inline comment of the last processed line before it: `a = 1 # c` followed by `# note` writes `# note# c`.
  - Once the field is replaced, its line's inline comment is appended to every later line.
- **DropClient** leaves a dropped client's id in the receive queue. The consumer is then told size 0 and given an empty message.
- **ExtractShortName** works on a constructor signature whose arguments hold a space. There `end - start` wraps around, and the text after that space is returned.
- **SetLoopTime** copies the new slot's minimum busy time from the *first* slot's minimum frame time.

## Model

| member | source | states |
|---|---|---|
| SocketTypes.ClassifiersIdentifyKind | cppSocket.h:90-92 | IsTCP holds exactly for the two TCP kinds and IsServer exactly for the two server kinds. IsICMP holds exactly for ICMP. Together they tell the five kinds apart |
| SocketTypes.Increment | cppSocket.h:139 | The unsigned short counter goes up by one and wraps from 65535 to 0 |
| CppSocket.NextFailedCount | cppSocket.cpp:1052-1065 | A full write resets a counter to 0; an error or a short write raises it by exactly one, modulo 2^16 |
| CppSocket.CountIsConsecutiveFailures | cppSocket.cpp:1101-1114 | From an id never recorded, the counter equals the number of failed sends since the last full write, modulo 65536 |
| CppSocket.BroadcastCountsMeaning | cppSocket.cpp:1093-1115 | The descriptor loop sends once to each visited member other than the listening socket. Each counter moves by its own outcome, and every other counter is unchanged |
| CppSocket.ReceiveInto | cppSocket.cpp:902-929 | recv writes the data at the front of the client's buffer and leaves the rest of the buffer as it was |
| CppSocket.ComparePrefix | cppSocket.cpp:1211 | The destination up to its last '.', or the whole destination when it has no '.' |
| CppSocket.FirstWithPrefix | cppSocket.cpp:1212-1217 | The index of the first address that starts with the prefix; no address before it does. None when no address does |
| CppSocket.GetBestLocalIPAddress | cppSocket.cpp:1204-1220 | An empty destination gives "". Otherwise the result is the first local address that starts with the destination's prefix, or "" if none does |
| CppSocket.TypeStringsDistinct | cppSocket.cpp:1242-1256 | Each kind has its own log name: two names are equal exactly when the kinds are |
| CppSocket.ProtocolFor | cppSocket.cpp:156-161 | Raw ICMP exactly for ICMP, a stream exactly for the TCP kinds, datagrams for the rest |
| CppSocket.CreateStepFor | cppSocket.cpp:175-181 | ICMP stops after socket(). A TCP client connects to the target. Servers and UDP clients bind to the best local address |
| CppSocket.Socket.constructor | cppSocket.cpp:73-79 | A fresh socket has sock 0, maxSock 0, listening off, empty client state, and a receive buffer of maxMessageSize zero bytes |
| CppSocket.Socket.Create | cppSocket.cpp:145-181 | The result is false when socket() fails. Otherwise it is the result of the step CreateStepFor picks. Listening is raised only on the way through Listen |
| CppSocket.Socket.Bind | cppSocket.cpp:279-298 | The result is false when bind fails. Otherwise a TCP server gives the result of Listen and any other kind gives true |
| CppSocket.Socket.Listen | cppSocket.cpp:347-366 | Listening is raised whether or not listen() succeeds; the result is listen()'s |
| CppSocket.Socket.ListenThreadStart | cppSocket.cpp:506-508 | The client set becomes the listening socket alone, and maxSock becomes that socket |
| CppSocket.Socket.Select | cppSocket.cpp:517-522 | readSocks is the clients that are ready, or all clients when select fails |
| CppSocket.Socket.Accept | cppSocket.cpp:531-550 | A failed accept changes nothing. A new descriptor joins the clients, and maxSock becomes the larger of the two |
| CppSocket.Socket.HandleClient | cppSocket.cpp:575-590 | A positive read overwrites the client's size and buffer and appends its id to the queue once more. A non-positive read drops the client. Nothing else changes |
| CppSocket.Socket.ClientIsConnected | cppSocket.cpp:638-642 | True exactly for members of the client set |
| CppSocket.Socket.DropClient | cppSocket.cpp:660-666 | The id leaves the client set, the buffers and the counters. The receive queue is untouched |
| CppSocket.Socket.GetFailedSendCount | cppSocket.cpp:694-702 | The stored counter, or 0 for an id never recorded |
| CppSocket.Socket.Receive | cppSocket.cpp:779-791 | An empty queue gives SOCKET_ERROR. Otherwise the result is the front id and its stored size, without popping. operator[] adds an empty entry for a front id that has none |
| CppSocket.Socket.ReceiveFromPeer | cppSocket.cpp:840-874 | A TCP server hands over to Receive(SocketID&). Any other kind returns recv's result and writes positive data into the shared buffer |
| CppSocket.Socket.GetLastMessage | cppSocket.cpp:811-822 | A TCP server pops exactly one id and returns that client's buffer. Other kinds return the shared buffer and leave the queue alone |
| CppSocket.Socket.WaitForClientData | cppSocket.cpp:424 | Data is available exactly when the queue is non-empty |
| CppSocket.Socket.TCPSendTo | cppSocket.cpp:1043-1068 | An id that is neither a client nor the listening socket gives false and leaves every counter as it was. Otherwise the result is whether the write was full, and only that id's counter moves |
| CppSocket.Socket.CountSend | cppSocket.cpp:1050-1065 | A full write returns true and resets the id's counter. An error or a short write returns false and raises it by exactly one |
| CppSocket.Socket.TCPSend | cppSocket.cpp:1001-1023 | A server broadcasts. A client returns whether its single write was full and touches no counter |
| CppSocket.Socket.TCPServerSend | cppSocket.cpp:1087-1118 | Every client but the listening socket gets its counter moved by its own outcome. The result is true exactly when some client exists and every write was full |
| CppSocket.Socket.GetClientCount | cppSocket.cpp:1347-1361 | The number of clients, the listening socket not counted |
| CppSocket.Socket.Destroy | cppSocket.cpp:200-212 | Listening stops. The client sets, counters, buffers and receive queue are all emptied |
| CppSocket.DeliveredMessage | cppSocket.cpp:575-822 | Through a fresh server, a client's message is received with that client's id and size and its bytes at the front of the buffer |
| CppSocket.DroppedWhileQueued | cppSocket.cpp:660-818 | A client that disconnects while queued is still reported, with size 0 and an empty message, and is no longer connected |
| CppSocket.DefaultSocket | cppSocket.h:57 | A socket made without naming a kind is a TCP client |
| CppSocket.BroadcastWithoutClients | cppSocket.cpp:1117 | A broadcast with no clients fails, and the client count is 0 |
| ConfigParse.StripCarriageReturn | configFile.cpp:320-324 | Exactly one trailing '\r' is removed when present; any other string is unchanged |
| ConfigParse.SplitComment | configFile.cpp:73-75 | The text before the first '#' and the comment from it on; together they rebuild the line |
| ConfigParse.SplitFieldFromData | configFile.cpp:172-204 | The field is the prefix up to the first ' ' or '=', and neither character occurs in it. With no separator the data is empty. Otherwise the data is a non-empty suffix of the line; SplitDataStart says where it starts |
| ConfigParse.DataFrom | configFile.cpp:194-203 | The data search from a start position throws exactly when the start is at or past the end of the line. Otherwise the data is a non-empty suffix of the line that starts at or after the start |
| ConfigParse.DataFromRun | configFile.cpp:194-203 | From a start holding a space or '=', the data begins where that run ends, or at the start when the run reaches the end of the line. From any other character it begins at the start |
| ConfigParse.SplitDataStart | configFile.cpp:193-203 | Where the data starts. The separator is the later of the first ' ' and the first '='. Past a run of spaces or of '=' after it that stops before the end, the data starts where the run ends. A run reaching the end of the line is itself the data. After any other character the data starts right after the separator |
| ConfigParse.SplitSkipsOneRun | configFile.cpp:193-203 | "k = = v" splits into k and "= v": only the run of spaces is skipped |
| ConfigParse.SplitOutOfRange | configFile.cpp:193-203 | Splitting throws exactly when the line ends in a separator that does not occur earlier in the line |
| ConfigParse.SplitSpacedEquals | configFile.cpp:172-204 | "key = value" splits into the key and the value |
| ConfigParse.SplitBareEquals | configFile.cpp:172-204 | "key=value" splits into the key and the value when the value holds no space |
| ConfigParse.SplitBareSpace | configFile.cpp:172-204 | "key value" splits into the key and the value when the value holds no '=' |
| ConfigParse.SplitDropsDataBeforeSpace | configFile.cpp:193-203 | "name=John Smith" splits into name and Smith |
| ConfigParse.BoolReader | configFile.cpp:250-254 | Always succeeds; the value is true exactly for "1" or empty data |
| ConfigParse.StringReader | configFile.cpp:272-276 | Always succeeds with the data itself |
| ConfigParse.StringVectorReader | configFile.cpp:294-301 | Always succeeds. Exactly one element, the data, is appended, and earlier elements are kept |
| ConfigParse.BoolTextRoundTrip | configFile.cpp:250-254 | A bool written by the rewrite reads back as the same bool |
| ConfigFile.AssignValue | configFile.cpp:103-150 | An item keeps its kind and is assigned through its kind's reader |
| ConfigFile.ProcessItem | configFile.cpp:223-229 | A registered field's variable is assigned the data; every other variable, and all of them for an unknown field, is unchanged |
| ConfigFile.ReadLine | configFile.cpp:68-78 | After the '\r' is stripped, a blank line or full-line comment leaves the variables as they are. Otherwise the text before '#' is split: a throw gives None, and a split assigns its data to its field as ProcessItem does. The variables keep their addresses |
| ConfigFile.ReadFrom | configFile.cpp:66-79 | Reading the lines never adds or removes a variable |
| ConfigFile.ReadSkipsComments | configFile.cpp:69-71 | A file of only blank lines and full-line comments changes nothing and does not throw |
| ConfigFile.ReadFromAppend | configFile.cpp:66-79 | Reading a + b is reading a, then reading b from the variables a left, unless a threw |
| ConfigFile.ReadSkipsCommentLine | configFile.cpp:69-71 | Inserting a blank line or full-line comment anywhere in a file changes neither the variables read nor whether reading throws |
| ConfigFile.ReadIgnoresCarriageReturns | configFile.cpp:68 | A file with "\r\n" line ends reads exactly like the same file with "\n" |
| ConfigFile.ReadWrittenLine | configFile.h:205-212 | The line "field = value" that the rewrite writes reads back as that value for the field, with or without a trailing comment. This holds when neither holds '#', the field holds no ' ' or '=', the value is non-empty and does not start with ' ' or '=', and the line does not end in '\r' |
| ConfigFile.ReadSplitLine | configFile.cpp:66-79 | A one-line file whose line is not a comment, holds no '#' and no trailing '\r', and splits into (field, data) assigns data to the field without throwing |
| ConfigParse.SplitSpacedEqualsBlank | configFile.cpp:193-203 | "key = " followed by n spaces splits into the key and n + 1 spaces. So "key = ", the line written for an empty value, gives a single space |
| ConfigFile.ReadWrittenEmptyValue | configFile.cpp:193-203 | An empty value written by the rewrite reads back as " " |
| ConfigParse.SplitSpacedEqualsPadded | configFile.cpp:193-203 | "key = " followed by extra spaces and a plain value splits into the key and the value without those spaces |
| ConfigFile.ReadWrittenDropsLeadingSpaces | configFile.cpp:193-203 | A value written with leading spaces reads back without them |
| ConfigFile.ReadThrowsOnSpaceBeforeComment | configFile.cpp:73-77 | "key=value #" throws out_of_range: cut at '#', the text ends in its only space |
| ConfigFile.RewriteLine | configFile.h:190-212 | Once written, or on a blank line or full-line comment, the line is copied followed by the current comment, which is kept. A processed line sets the comment to its own inline comment. It throws exactly when its text before '#' cannot be split. It is written back unchanged when its field differs, and replaced by "field = value" plus its comment (turning written on) exactly when the field matches |
| ConfigFile.RewriteFrom | configFile.h:188-216 | The result has the same lines, or one more. Once written it has exactly the same number |
| ConfigFile.RewriteAfterWritten | configFile.h:188-212 | After the replacement every later line is copied followed by the leftover comment |
| ConfigFile.LastCommentSnoc | configFile.h:193-200 | The comment after the lines before a match is the inline comment of the last processed line, or the starting comment when none was processed |
| ConfigFile.RewritePassing | configFile.h:188-212 | Lines before the first match are written back, each blank line or full-line comment followed by the inline comment of the last processed line before it. The rewrite then goes on with that last comment |
| ConfigFile.RewriteCarriesCommentOntoSkippedLine | configFile.h:193-212 | A full-line comment after a processed line is written followed by that line's inline comment |
| ConfigFile.PassedLinesUntouched | configFile.h:188-212 | Lines without inline comments are written back unchanged and leave the comment empty |
| ConfigFile.RewriteAppendsWhenAbsent | configFile.h:188-216 | With no match the lines are written as RewritePassing says, and exactly one line "field = value", without a comment, is appended |
| ConfigFile.RewriteKeepsCommentFreeFile | configFile.h:188-216 | A file without the field and without inline comments is kept, and exactly one line "field = value" is appended |
| ConfigFile.RewriteReplacesFirstMatch | configFile.h:188-212 | Only the first matching line is replaced, keeping its inline comment. The lines before it are written as RewritePassing says. That comment is then appended to every later line |
| ConfigFile.RewriteReplacesOnlyLine | configFile.h:188-212 | When neither the matched line nor any line before it has an inline comment, the rest of the file is kept as it is |
| ConfigFile.ConfigFile.constructor | configFile.h:25-26 | No item is registered |
| ConfigFile.ConfigFile.AddConfigItem | configFile.h:135-143 | A new key and a new address are registered in both maps, which stay inverse to each other |
| ConfigFile.ConfigFile.GetKey | configFile.h:104-105 | The key that the address was registered under |
| ConfigFile.ConfigFile.ProcessConfigItem | configFile.cpp:223-229 | The variables become ProcessItem of the old ones |
| ConfigFile.ConfigFile.ReadConfiguration | configFile.cpp:66-79 | The loop leaves the variables, and whether out_of_range escaped, as ReadFrom gives them |
| ConfigFile.ConfigFile.WriteConfiguration | configFile.h:166-216 | The lines written are exactly RewriteFrom of the input |
| MemoryMappedFile.FileSize | memoryMappedFile.cpp:45-47 | (high << 32) + low fits in 64 bits and splits back into the same two halves |
| MemoryMappedFile.LastNewlineEndsJoin | memoryMappedFile.cpp:79-86 | In text made of joined lines and a tail with no newline, the last '\n' ends the joined part |
| MemoryMappedFile.JoinLinesInjective | memoryMappedFile.cpp:79-86 | Lines without newlines that join to the same text are the same lines |
| MemoryMappedFile.MemoryMappedFile.constructor | memoryMappedFile.cpp:45-47 | The reader starts at offset 0 with nothing read, over a file of the assembled size |
| MemoryMappedFile.MemoryMappedFile.ReadNextLine | memoryMappedFile.cpp:77-90 | True exactly when a '\n' lies between the cursor and the end of the file. The line is the text up to the first such '\n', and the cursor moves just past it. Otherwise the line and the cursor are unchanged. The text before the cursor stays the returned lines joined |
| Profiler.AddElapsed | profiler.h:47-48 | total + now - entry in unsigned 64-bit arithmetic, equal to the exact sum when it does not wrap |
| Profiler.EnterStep | profiler.h:38-41 | Pushes (name, time) on the stack and changes no tally |
| Profiler.ExitStep | profiler.h:43-51 | Pops exactly one frame. The leaving function gains one call and its elapsed time, and every other tally is unchanged |
| Profiler.RunDepth | profiler.h:38-51 | Over any run, stack depth plus Exits equals the starting depth plus Enters |
| Profiler.RunCalls | profiler.h:43-51 | A function's call count grows by exactly its number of Exits |
| Profiler.BalancedRunEndsIdle | profiler.h:38-51 | From idle, as many Exits as Enters leave the stack empty, with each function counted once per Exit |
| Profiler.RunAppend | profiler.h:38-51 | Running two sequences of calls one after the other is running their concatenation |
| Profiler.ScopedCall | profiler.h:150-165 | A ProfilerHelper scope around a balanced body passes Exit's assertion, restores the stack and adds one call |
| Profiler.RightPadString | profiler.h:112-118 | The result has length l: s followed by copies of c |
| Profiler.ExtractShortName | profiler.h:127-147 | Never longer than the name. Without a space it is the prefix up to the first '(', or the whole name without one. Without a '(' it is a suffix |
| Profiler.ShortNameBetween | profiler.h:134-145 | With the first space before the first '(', the short name is exactly the text strictly between them |
| Profiler.ShortNameAfterSpace | profiler.h:134-145 | With the first space after the first '(', or no '(' at all, the short name is everything after that space |
| Profiler.ShortNameOfSignature | profiler.h:134-145 | "type name(args" gives name |
| Profiler.ShortNameOfConstructor | profiler.h:134-145 | "name(arg rest" gives rest: end - start wraps around and substr keeps the rest |
| Profiler.Profiler.constructor | profiler.h:108-110 | The stack and the tallies start empty |
| Profiler.Profiler.Start | profiler.h:33-36 | Records the start time |
| Profiler.Profiler.Enter | profiler.h:38-41 | The state becomes EnterStep of the old state |
| Profiler.Profiler.Exit | profiler.h:43-51 | Requires the innermost entry to be the function leaving. The state becomes ExitStep of the old state |
| Profiler.Profiler.NameColumnWidth | profiler.h:59-66 | Ten more than the longest short name (10 with no functions), so every name pad of the report meets RightPadString's assertion |
| TimingUtility.Register | timingUtility.cpp:65-93 | A new step gets the next index and one new slot, and the old slots are kept. A known step resumes its own index and changes nothing. Steps and slots stay one to one, and the current index is in range |
| TimingUtility.RegisterIdempotent | timingUtility.cpp:67-84 | Setting the same step twice is setting it once |
| TimingUtility.RegisterSwitchBack | timingUtility.cpp:67-84 | Switching to another step and back resumes the first slot with its statistics intact |
| TimingUtility.DivTowardZeroBounds | timingUtility.cpp:176-179 | duration_cast of the quotient is the multiple of n nearest the dividend on the side of zero |
| TimingUtility.SteadyAverage | timingUtility.cpp:176-179 | Folding in a sample equal to the average keeps the average |
| TimingUtility.UpdateSlot | timingUtility.cpp:161-179 | The min times never grow and the max times never shrink, each taking the sample or its old value. The averages fold in the samples only when the count is non-zero, and the count is unchanged |
| TimingUtility.MakeColumn | timingUtility.cpp:286-292 | s right-padded with pad to max(|s|, width); s stays a prefix |
| TimingUtility.MakeColumnIdempotent | timingUtility.cpp:286-292 | Padding a padded column changes nothing |
| TimingUtility.UpdateVectors | timingUtility.cpp:161-179 | Writing slot i of the six time vectors gives the slots with slot i replaced by UpdateSlot, and the counts unchanged |
| TimingUtility.TimingUtility.constructor | timingUtility.cpp:43-47 | The new timer holds exactly the one registered step |
| TimingUtility.TimingUtility.SetLoopTime | timingUtility.cpp:65-93 | The registry becomes Register of the old one. The current index is the step's slot and lies within every vector |
| TimingUtility.TimingUtility.UpdateTimingStatistics | timingUtility.cpp:155-182 | lastUpdate becomes now. Before the first counted loop nothing else changes. After it, only the current slot changes, by UpdateSlot with the frame time since the last update and the busy time |
| TimingUtility.TimingUtility.TimeLoop | timingUtility.cpp:115-137 | The busy time is measured from the last wake-up once a loop has been counted. The next wake-up is one step later, or now if the step was overrun. The current slot is updated and its count rises by exactly one |

## Left out

- **Operating-system calls.** These are parameters carrying their results:
  - the socket calls, including `setsockopt` and `fcntl`/`ioctlsocket` (`SetOption`, `EnableAddressReusue`, `SetBlocking`), `shutdown`, `close` and WSA start-up;
  - `GetLocalIPAddress`, whose address list `GetBestLocalIPAddress` takes as input;
  - `AssembleAddress`'s `inet_addr`/`htons` conversions, which become a plain port and host in `Address`;
  - `GetLastError` strings and every log line written to `outStream`.
- **Concurrency.** Left out:
  - the listener thread as a thread;
  - `bufferMutex`, `GetLock`/`ReleaseLock` and the condition variable.
  
  The loop of `ListenThreadEntry` is modelled one step at a time. The timed wait of `WaitForClientData` is reduced to its final result. The mutex utilities are not part of this model.
- **`UDPSend`** is not modelled: it is one `sendto` with the same full-write test as `TCPSend` and no state.
- **Connect** is one `connect` call. Its result is `Create`'s `connectOk` parameter.
- **`fd_set` limits.**
  - Client ids are unbounded integers, not bits of an `fd_set` with `FD_SETSIZE` entries.
  - `maxSock` never shrinks, as in the source.
- **`CppSocket.Socket.GetLastMessage`:**
  - It returns the bytes of the buffer, not a pointer to it.
  - A front id without an entry gets an empty buffer. The model returns the empty sequence where the C++ would take `front()` of an empty vector.
  - Its `requires` on a non-empty queue is the source's assertion.
- **`CppSocket.Socket.HandleClient`** requires a read no larger than `maxMessageSize`, which recv guarantees for a buffer of that size.
- **`CppSocket.ReceiveInto`** keeps only the data when the buffer is shorter than the data. This happens only for an entry created empty by `operator[]`, where the C++ behaviour is undefined.
- **Config files.**
  - File opening, `ifstream`/`ofstream`, the temporary file and the `remove`/`rename` are left out.
  - `BuildConfigItems`, `AssignDefaults` and `ConfigIsOK` are pure virtual. They have no code here, so `ReadConfiguration` reports only the outcome of its line loop.
  - `ConfigFile.ConfigFile.WriteConfiguration` takes the value already formatted as text, in place of `stream << value`. For a bool that text is `BoolText`.
- **`ConfigItem`.** configFile.h declares a `ConfigItem` with numeric kinds and an `AssignValue` whose definition is not part of this model. configFile.cpp instead registers bool, string and string-vector items with their readers. The model follows configFile.cpp, so numeric items are not modelled.
- **`ConfigFile.ConfigFile.AddConfigItem`** takes the variable's address as a number standing for the reference. Its `requires` on a new key and a new address is the source's pair of assertions.
- **MemoryMappedFile Win32 calls.** The Win32 mapping and handle calls of the constructor and destructor are left out. The constructor takes the mapped view and the two halves that `GetFileSize` reports.
- **`MemoryMappedFile.MemoryMappedFile.constructor`** requires the view to hold at least the file's size, which the mapping guarantees.
- **Profiler clock and report.**
  - `GetTime` (the clock) becomes a parameter.
  - `Print`'s output and its double percentages are left out; only the column width it computes (`NameColumnWidth`) is modelled.
  - `ToString` is left out.
  - profiler.cpp declares a thread-keyed stack that does not match profiler.h. The model follows profiler.h.
- **`Profiler.ExtractShortName`** models the POSIX branch. The Windows branch returns the name unchanged.
- **`Profiler.RightPadString`** requires `l > |s|`, which is the source's assertion.
- **`TimingUtility.TimingUtility.SetLoopTime`** takes the step already converted to whole nanoseconds. The conversion from `double` seconds is left out, and the positivity assertion becomes `requires newTimeStep > 0`.
- **`TimingUtility.UpdateSlot`** computes the averages as an integer quotient truncated toward zero. In the source that quotient is a `double`, which `duration_cast` then truncates; the rounding of the `double` division is not modelled.
- **Timing clock and output.**
  - `Clock::now()` and the sleep become parameters (`now`, `updateNow`). `SleepUntil` is left out.
  - The elapsed-time warning line is left out.
  - `GetTimingStatistics` and the `MakeColumn` overloads for `double` and `duration` format floating-point text and are left out.
- **Integer widths.**
  - `counts` holds `unsigned long` and durations are 64-bit counts. The model uses unbounded integers for these, since 2^64 nanoseconds is centuries.
  - The profiler's call counts are `unsigned long` in the source (profiler.h:86). The model counts them with unbounded integers, since wrapping would need 2^64 calls.
  - Durations are signed integers in the model, so the unconstrained clock parameters `now` and `updateNow` allow negative samples. The source computes the average update in unsigned arithmetic, and a steady clock never yields a negative sample. Negative durations are outside what the source handles.
  - The widths that matter are explicit: the `unsigned short` send counter, the 64-bit profiler times and the 64-bit file size.
- **`TimingUtility.TimingUtility`** holds the seven statistics vectors as the seven fields of one record, `vectors`. Each method still updates them as the source does, element by element.
