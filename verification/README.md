# Engine Console: verified models

Engine Console serves AI engines on one or more machines: a hub with a desktop launcher, nodes that speak a framed protocol
over a pipe, and a browser interface without a framework. This project models the parts of it where several steps have to fit
together, and proves what they promise. `dafny verify dfyconfig.toml` checks all of it.

| Files | What they model |
|---|---|
| `FlowControl`, `FlowReceiver`, `FlowProtocol` | the credit flow control of the node protocol: the driver's methods, what a request makes of any frames, and two drivers joined by FIFO pipes with any number of requests in any interleaving |
| `LineDiff`, `DiffText` | the line diff of the configuration editor with its flat table, and its abridged text |
| `JsObject`, `JsIndices` | in which order a JavaScript object lists its keys (sections 6.1.7 and 10.1.11.1 of ECMA-262), and when assignments commute |
| `DotenvSyntax`, `HubEnv`, `HubReference`, `EnvEditor`, `EnvLens`, `EnvRemoval`, `EnvAgreement`, `HubReadsBack` | the hub's dotenv reader, the browser's dotenv editor, where the two agree, and what the hub reads of what the editor writes |
| `SseParser`, `SseStandard`, `SseStream`, `SseEnds` | the incremental parser of server-sent events, when its events are those of the standard (sections 9.2.5 and 9.2.6 of the WHATWG HTML Living Standard), and the stream that reconnects |
| `Launcher` | `open` and `stop` of the desktop launcher, any number of them at once |
| `Store`, `Pool` | the observable store with callbacks that call it, and the bounded pool of asynchronous tasks |
| `MarkdownSyntax`, `MarkdownLines`, `Markdown`, `MarkdownContent`, `MarkdownShown`, `MarkdownLaws` | the Markdown block parser, for the renderer's patterns and for every other grammar of lines that fits together as they do; which lines the patterns recognise; what its blocks hold and show; and the nesting of its tags |
| `Dechunk`, `ShellQuoting`, `JsonPath`, `Bars` | the chunked transfer coding (section 7.1 of RFC 9112), shell quoting (sections 2.2.1, 2.2.2 and 2.3 of the POSIX Shell Command Language), JSON values by path, and the memory bars |
| `Text`, `Encodings` | splitting, joining, searching, trimming and replacing, shared by the others; the lengths of strings in UTF-8 and UTF-16 |

Code that updates fields, arrays or counters is written with classes, arrays and loops and proved against specification
functions; what is promised is then proved of those functions. The launcher and the two ends of a pipe, which are several
processes at once, are state machines over their steps.

Where a promise does not hold as it is stated, the code is kept as it is, a member shows the failing case, and another says
exactly when the promise holds:

- `openStream` reports a failed attempt exactly once while it is open, with three exceptions: an answer with status 0 is reported
  twice (`SseStream.StatusZeroReportsTwice`), an error that carries another status, of a rejected fetch or of a body that breaks, is
  not reported (`SseStream.StatusCarriedReportsNever`), nor is one named AbortError. `SseStream.ReportsOnce` says how often each
  answer is reported.
- An `open` that started a child and fails leaves it alive exactly if it fails for want of a browser and the child was alive
  (`Launcher.FailsWithChild`, `Launcher.BrowserFailureLeavesAlive`); with a browser to open it leaves it dead
  (`Launcher.FailureLeavesDead`).
- With no negative process, a GPU's bar adds up to its memory exactly if the instances' processes use no more than the memory nor,
  when the driver gives a figure, than that: a figure above the memory does not help (`Bars.GpuBarIsFull`, `Bars.DriverAboveTotal`).
- Two sets of a JSON document at paths that part commute exactly if the order of new keys does not show
  (`JsonPath.SetsCommute`, `JsonPath.NewKeysShow`): an object keeps the order in which two new keys were set, unless one of them is an
  array index.
- The browser's object of the assignments lists them in the hub's order exactly if no key that the text assigns is one that an object
  lists before a key assigned earlier (`EnvAgreement.ReadersAgree`, `EnvAgreement.IndicesAreSorted`): without keys that look like array
  indices it always does (`EnvAgreement.SameOrder`). The keys and values agree in any case.
- What `setValue` writes is read back by `values`, at the line written, exactly if the value has no U+2028 or U+2029, the line is not
  longer than what is parsed, and the key is in the text already or is one that the line pattern can give back and holds no line feed
  (`EnvLens.SetReadsBackExactly`, `EnvLens.BrokenKeyIsLost`).
- The hub reads the line that `setValue` writes as the key and the value that were set, in every environment, exactly if the key can
  be read back, a value that goes between double quotes has no reference, and a bare one has no U+0085 at an end
  (`HubReadsBack.SetIsReadExactly`): a single quote beside a reference is the failing case (`HubReadsBack.QuoteAndReference`).
- A `stop` comes to signal only what it has just seen to be a console that some `open` had started, but it signals another program
  exactly if the pid was given to one between the check and the signal (`Launcher.SignalsStranger`, `Launcher.RecycledPid`).
- The parser's events are those of the standard exactly if no block with data has an empty last `event` or comes after a last `id`
  that holds U+0000 (`SseStandard.EventsAreTheStandards`, `SseStandard.OddLineShows`).
- With no worker at all (`n` at 0) the pool runs no task (`Pool.Pool.Run`).

Two places where code and its own comment differ: the comment at `backend/crates/ec-hub/src/config.rs:657-660` looks a variable
up in the file and then in the environment, the code (760-766) in the environment first, and the model follows the code; and the
waits of `openStream` count from 0 again after every connection that opened, also when it broke at once.

## Model

| member | source | states |
|---|---|---|
| `FlowControl.Driver.Account` | backend/parity/proto/drive.py:149-155 | received bytes are counted, checked against the window and taken from it |
| `FlowControl.Driver.OnDataFrame` | backend/parity/proto/drive.py:149-162 | data are accounted, a cancel is sent at its threshold, and credit is granted in batches of a quarter window unless the request is answered or cancelled |
| `FlowControl.Driver.OnEventFrame` | backend/parity/proto/drive.py:128-132 | an event is counted and a cancel is sent once at its threshold |
| `FlowControl.ChunkLen` | backend/parity/proto/drive.py:168 | a chunk is not empty and as long as a frame, the credit and what is left allow |
| `FlowControl.Driver.FeedUpload` | backend/parity/proto/drive.py:164-174 | the loop sends what the specification of a feed sends and leaves its state |
| `FlowControl.Driver.FeedActive` | backend/parity/proto/drive.py:108-109 | every active request is fed, in order, and no other changes |
| `FlowControl.Driver.Dispatch` | backend/parity/proto/drive.py:117-147 | a frame reaches the request with its id and changes no other |
| `FlowControl.Driver.Pump` | backend/parity/proto/drive.py:106-147 | one pump feeds all requests and then handles one frame; the end of the stream is put back and reported |
| `FlowProtocol.StepKeepsInv` | backend/parity/proto/drive.py:106-174 | every step of either end keeps the conservation of credit, the byte prefix and the order of end for every request |
| `FlowProtocol.RunKeepsInv` | backend/parity/proto/drive.py:106-174 | so does every run |
| `FlowProtocol.RunsAreSafe` | backend/parity/proto/drive.py:133-174 | in every interleaving, for every request and both directions: no violation, window plus unacknowledged bytes is the window while granting, what was received is a prefix of what was sent and of the upload, no more than a window is in flight, and end is sent at most once and after the last byte |
| `FlowProtocol.AtMostAWindowMore` | backend/parity/proto/drive.py:156-162 | once a receiver grants no more, at most one window of bytes still arrives, whatever happens |
| `FlowProtocol.StepMeasure` | backend/parity/proto/drive.py:164-174 | every working step lowers a measure that only new requests and other frames raise |
| `FlowProtocol.WorkIsBounded` | backend/parity/proto/drive.py:164-174 | the working steps of a run are bounded by the uploads and the frames said |
| `FlowProtocol.IdleMeansCredit` | backend/parity/proto/drive.py:159-162 | with nothing in flight and a receiver that grants, the sender has more than three quarters of the window as credit |
| `FlowProtocol.NoDeadlock` | backend/parity/proto/drive.py:149-174 | a run in which neither end can move has delivered every upload whose receiver grants, with its end sent once |
| `FlowProtocol.FeedIsARun` | backend/parity/proto/drive.py:164-174 | the feed loop is a run of single sends |
| `FlowReceiver.TakesAll` | backend/parity/proto/drive.py:117-162 | whatever frames a request takes, for all thresholds: bytes, events, result, credit and window are those of the frames, and one cancel is written if a threshold was reached and none otherwise |
| `FlowReceiver.CreditsAreBatches` | backend/parity/proto/drive.py:159-162 | credit is written in batches of a quarter window or more, and only by a request that grants |
| `FlowReceiver.ViolationIsSeen` | backend/parity/proto/drive.py:149-154 | a violation is recorded exactly if some DATA frame exceeded the window and the credit written before it |
| `FlowReceiver.CancelsAreSent` | backend/parity/proto/drive.py:128-158 | in every run, for both ends: the other end is sent one cancel if a threshold was reached, of bytes or of events, and none otherwise |
| `FlowReceiver.RunCounts` | backend/parity/proto/drive.py:128-129 | from the moment a request is there it counts every event that its end takes |
| `FlowReceiver.ResultEndsUpload` | backend/parity/proto/drive.py:164-166 | in every run, once the result of a request is in, no more of its upload is sent, nor its end |
| `LineDiff.Strip` | frontend/js/cfg-diff.js:9-11 | the common head is as long as it can be, then the common tail |
| `LineDiff.StrippedIsUnique` | frontend/js/cfg-diff.js:9-11 | head and tail lengths are determined by the texts |
| `LineDiff.Fill` | frontend/js/cfg-diff.js:14-18 | every cell of the flat 32-bit table holds the length of a longest common subsequence of the two suffixes, without overflow |
| `LineDiff.Walk` | frontend/js/cfg-diff.js:20-27 | the greedy walk gives a script between the texts that keeps as many lines as a longest common subsequence has, and where lines were changed the removed ones come first |
| `LineDiff.NoneKeepsMore` | frontend/js/cfg-diff.js:1-6 | no script keeps more lines |
| `LineDiff.StrippedLcs` | frontend/js/cfg-diff.js:9-12 | stripping loses nothing of the longest common subsequence |
| `LineDiff.LineDiff` | frontend/js/cfg-diff.js:7-30 | kept and removed lines spell the first text, kept and added ones the second, no script keeps more, no removed line follows an added one, and there is no result exactly when the stripped table passes the limit |
| `DiffText.Window` | frontend/js/cfg-diff.js:35-36 | the lines kept are exactly those within the context of a change |
| `DiffText.Abridge` | frontend/js/cfg-diff.js:33-41 | the loop gives the abridged lines, and none without a change |
| `DiffText.AbridgedStands` | frontend/js/cfg-diff.js:32-41 | every line near a change is shown in order, each longest run of others is one mark, and every change is shown |
| `HubEnv.BuildEnv` | backend/crates/ec-hub/src/config.rs:726-729 | the environment index answers as a scan that takes the first entry of a name |
| `HubEnv.UnescapeDouble` | backend/crates/ec-hub/src/config.rs:784-806 | the loop reads the escapes of a double-quoted value |
| `HubEnv.LookUp` | backend/crates/ec-hub/src/config.rs:762-766 | the two indexes answer as linear scans, the environment first, then the earlier keys, then the default |
| `HubEnv.ExpandVars` | backend/crates/ec-hub/src/config.rs:810-832 | the bounded expansion is the unbounded one, or nothing exactly when that is longer than the bound |
| `HubEnv.ReadLine` | backend/crates/ec-hub/src/config.rs:731-779 | a line is refused exactly when its value passes the budget; else the pair is stored as in the naive reader and the index stays right |
| `HubEnv.TryParseDotenv` | backend/crates/ec-hub/src/config.rs:717-782 | the result is the naive reader's ordered list exactly when all values, overwritten ones too, fit the budget together; keys are distinct and the index points at their slots |
| `HubEnv.ParseDotenv` | backend/crates/ec-hub/src/config.rs:712-714 | a file past the budget reads as empty |
| `HubEnv.IndexedAreDistinct` | backend/crates/ec-hub/src/config.rs:730 | a list that an index covers has distinct keys |
| `Encodings.Utf8IsRead` | backend/crates/ec-hub/src/config.rs:773 | the bytes of a character's UTF-8 form are as many as counted, and give the character back |
| `Encodings.ByteLenIs` | backend/crates/ec-hub/src/config.rs:773 | the budget counts the bytes of the UTF-8 form |
| `HubReference.ExpandsReference` | backend/crates/ec-hub/src/config.rs:810-832 | the first reference of a value becomes the environment's value if there is one, else the file's, else the default or nothing; what is before it stays and what is after it is expanded |
| `HubReference.AssignsReference` | backend/crates/ec-hub/src/config.rs:731-772 | a line that assigns a reference assigns what it stands for |
| `HubReference.ReferenceIsFound` | backend/crates/ec-hub/src/config.rs:760-766 | after any text, a last line that assigns a reference gives its key the environment's value whatever the file says, else the file's, else the default |
| `HubReference.LinesAreRead` | backend/crates/ec-hub/src/config.rs:731 | lines ended by LF and lines ended by CR LF are read as the same lines |
| `EnvEditor.ReadValue` | frontend/js/cfg-dotenv.js:28-48 | the loop reads a value with quotes, escapes and comment |
| `EnvEditor.ChainIsPerCharacter` | frontend/js/cfg-dotenv.js:57 | the chain of replaces is one escape per character |
| `EnvEditor.ReadsBack` | frontend/js/cfg-dotenv.js:50-58 | every value is read back from the form in which it is written |
| `EnvEditor.LineReadsBack` | frontend/js/cfg-dotenv.js:14-26 | a written line is parsed as the same key, value and export mark |
| `EnvEditor.ParsedKeyIsGood` | frontend/js/cfg-dotenv.js:9-25 | keys that the parser gives are keys that can be written |
| `EnvEditor.ReadsBackExactly` | frontend/js/cfg-dotenv.js:14-26 | a line by itself is read as the assignment that it was written for exactly if the line pattern can give the key, the value has no U+2028 or U+2029, and the line is not too long |
| `Encodings.UnitLenIs` | frontend/js/cfg-dotenv.js:17 | the limit on a line counts UTF-16 code units |
| `EnvEditor.QuotedWhen` | frontend/js/cfg-dotenv.js:50-58 | a value is quoted exactly if it starts like a quoted one, has white space at an end, a line break or a tab, or would be cut at a comment or expanded |
| `EnvLens.ReadValues` | frontend/js/cfg-dotenv.js:61-65 | the loop assigns each key its last value, in an object that lists them as JavaScript does |
| `EnvLens.ValuesInOrder` | frontend/js/cfg-dotenv.js:61-65 | that object lists array indices first and ascending |
| `EnvLens.SetValue` | frontend/js/cfg-dotenv.js:69-79 | the edit rewrites the last assignment or appends a line |
| `EnvLens.SetChangesOneLine` | frontend/js/cfg-dotenv.js:67-79 | whatever the value and for every key without a line feed, of the text's lines exactly one is changed or added, byte for byte |
| `EnvLens.SetThenRead` | frontend/js/cfg-dotenv.js:61-79 | reading after a set gives the object that assigning the key in the old one gives, in the order in which it lists its keys |
| `EnvLens.SetGets` | frontend/js/cfg-dotenv.js:61-79 | the value is read back and every other key keeps its value |
| `EnvLens.FindsLast` | frontend/js/cfg-dotenv.js:60-65 | what is found for a key is the value of its last assignment and the number of that line |
| `EnvLens.SetReadsBackExactly` | frontend/js/cfg-dotenv.js:61-79 | for every text, key and value: what a set writes is read back, at its line, exactly if the value has no U+2028 or U+2029, the line is not too long, and the key is there already or can be written and holds no line feed |
| `EnvLens.NoKeyHoldsFeed` | frontend/js/cfg-dotenv.js:15 | no text assigns a key with a line feed |
| `EnvLens.BrokenKeyIsLost` | frontend/js/cfg-dotenv.js:69-79 | a key with a line feed is not read back, though its line by itself would be |
| `EnvLens.SetSet` | frontend/js/cfg-dotenv.js:69-79 | a second set of a key overwrites the first |
| `EnvLens.RemoveThenRead` | frontend/js/cfg-dotenv.js:82-85 | removing a key takes all its assignments and no other |
| `EnvRemoval.RemoveKeepsOthers` | frontend/js/cfg-dotenv.js:81-85 | every line that does not assign the key is kept byte for byte and in its place among the others, and nothing else |
| `EnvAgreement.LineAgrees` | backend/crates/ec-hub/src/config.rs:731-779 | on a common line both readers see the same assignment, or none |
| `EnvAgreement.ReadersAgree` | frontend/js/cfg-dotenv.js:14-65 | on common texts the editor's object lists the hub's pairs, and in the hub's order exactly if no key of the text is one that an object lists before a key assigned earlier |
| `EnvAgreement.SameOrder` | frontend/js/cfg-dotenv.js:14-65 | without keys that look like array indices both readers give the same list |
| `EnvAgreement.IndicesAreSorted` | frontend/js/cfg-dotenv.js:61-65 | a common text whose pairs the two readers give in different orders |
| `EnvAgreement.ReadKeys` | backend/crates/ec-hub/src/config.rs:731-779 | the hub keeps the keys in the order in which the lines first assign them |
| `EnvAgreement.ValuesAgree` | backend/crates/ec-hub/src/config.rs:731-779 | every key has the same value for both, or none |
| `EnvAgreement.BudgetSuffices` | backend/crates/ec-hub/src/config.rs:700-705 | a common text within the budget's length stays within it |
| `EnvAgreement.ReadBoth` | backend/crates/ec-hub/src/config.rs:712-782 | run on one text, the hub's reader and the editor's give the same pairs, in the same order exactly under that condition on the text |
| `HubReadsBack.SingleQuoted` | frontend/js/cfg-dotenv.js:30 | between single quotes a value is read as it stands, by both readers, and what follows is not |
| `HubReadsBack.DoubleQuoted` | frontend/js/cfg-dotenv.js:31-45 | between double quotes every character may be escaped |
| `HubReadsBack.OtherEscapes` | frontend/js/cfg-dotenv.js:37-39 | an escaped single quote is one, and a backslash before any other character stays |
| `HubReadsBack.Commented` | frontend/js/cfg-dotenv.js:46-47 | a value without quotes ends at a comment, without the white space before it |
| `HubReadsBack.ValueKept` | frontend/js/cfg-dotenv.js:50-58 | the hub reads a formatted value back unchanged in every environment, if it is kept |
| `HubReadsBack.PlainIsKept` | frontend/js/cfg-dotenv.js:50-58 | every value is kept that has no U+0085 at an end and either no reference or neither a single quote nor a line break |
| `HubReadsBack.LineIsReadExactly` | backend/crates/ec-hub/src/config.rs:731-772 | the hub reads a written line as its key and value in every environment exactly if the key can be read back and the value is kept |
| `HubReadsBack.SetIsReadExactly` | frontend/js/cfg-dotenv.js:50-79 | so it does for the line that a set writes, for every text |
| `HubReadsBack.QuoteAndReference` | frontend/js/cfg-dotenv.js:50-58 | a value with a single quote and a reference is not read back |
| `SseParser.SSEParser.Feed` | frontend/js/sse.js:4-29 | feeding a chunk gives the events of the buffered lines and keeps the rest |
| `SseParser.CutAnywhere` | frontend/js/sse.js:8-14 | two chunks give the lines of their concatenation, wherever the cut falls, between CR and LF too |
| `SseParser.ChunkingIsInvisible` | frontend/js/sse.js:4-29 | events, buffer and collected event do not depend on the chunks |
| `SseParser.NothingLeft` | frontend/js/sse.js:8-14 | what is kept back holds no whole line |
| `SseParser.LinesAreScanned` | frontend/js/sse.js:8-14 | the lines are those of a scan that ends a line at CR LF, LF or CR, but for a CR at the very end |
| `SseStandard.SameReading` | frontend/js/sse.js:20-23 | the parser's field and value are those of the standard's own reading: up to the first colon, and without one space after it |
| `SseStandard.DataIsRead` | frontend/js/sse.js:14-28 | a block of one line of data gives one event with that data, with or without a space after the colon |
| `SseStandard.EventsAreTheStandards` | frontend/js/sse.js:14-26 | the events of a text are those that the standard dispatches exactly if no block with data has an empty last `event` or comes after a last `id` with U+0000 |
| `SseStandard.WithoutOddLines` | frontend/js/sse.js:25-26 | so it is where no line is an empty `event` or an `id` with U+0000 |
| `SseStandard.OddLineShows` | frontend/js/sse.js:25-26 | each such line between a line of data and an empty one gives an event that differs |
| `SseStream.EventStream.Do` | frontend/js/sse.js:46-86 | every action is one that the rules of the stream allow at its point, and an attempt ends only as its answer says |
| `SseStream.EventStream.ReadChunk` | frontend/js/sse.js:69-80 | after a chunk, what was delivered is what the text so far holds, up to `[DONE]` |
| `SseStream.EventStream.ReadBody` | frontend/js/sse.js:63-80 | the events delivered on a connection are those of the text read, up to `[DONE]` |
| `SseStream.EventStream.Refuse` | frontend/js/sse.js:51-60 | an answer that is not a success is reported; a fatal one stops the stream; 429 sets the wait |
| `SseStream.EventStream.Attempt` | frontend/js/sse.js:48-84 | one attempt fails as its answer does, with the status that its error carries, delivers the events of what was read, and ends with as many reports as are due |
| `SseStream.EventStream.Run` | frontend/js/sse.js:43-89 | against any answers, with `close()` at any moment, every run keeps the rules, by which each attempt is over only when the log says of it what its answer makes of it; it ends with one `onClose` or has used all answers |
| `SseStream.AttemptEnds` | frontend/js/sse.js:46-84 | every fetch of a run is followed by the end of its attempt before the next one |
| `SseStream.DeliversTheAnswer` | frontend/js/sse.js:63-76 | the events delivered in an attempt are those of the answer's chunks, all of them while the stream is open, and none without a success |
| `SseStream.NothingFollows` | frontend/js/sse.js:46-87 | after `[DONE]`, a fatal answer or `close()` there is no fetch and no wait, after the first two no event, and nothing after `onClose` |
| `SseStream.LastIdIsLast` | frontend/js/sse.js:73 | the remembered id is that of the last event with a non-empty one |
| `SseStream.ReconnectsWithLastId` | frontend/js/sse.js:49-50 | a reconnect carries the last id delivered on any connection that is not empty, and none if there was none |
| `SseStream.ReportsOnce` | frontend/js/sse.js:56-84 | every answer of the world is reported never more often than its kind says, exactly so often while the stream is open, and at least once if it is not a success |
| `SseStream.StatusZeroReportsTwice` | frontend/js/sse.js:56-83 | an answer with status 0 is reported twice |
| `SseStream.StatusCarriedReportsNever` | frontend/js/sse.js:78-81 | a rejection whose error carries a status is not reported |
| `SseStream.BackoffDoubles` | frontend/js/sse.js:32 | the waits double from half a second up to 15 seconds |
| `SseEnds.FinalIsFinal` | frontend/js/sse.js:57-60 | after a client error other than 429, or a 429 for too many streams, there is neither a wait nor a fetch |
| `SseEnds.EndsForAReason` | frontend/js/sse.js:78-87 | the stream ends after an attempt only if it was closed, is not to reconnect, or the answer was final, aborted or held `[DONE]` |
| `SseEnds.WaitIs` | frontend/js/sse.js:59-83 | the wait is the backoff, and five seconds at least after a 429 that may be retried |
| `Launcher.StepKeepsInv` | backend/crates/ec-hub/src/desktop.rs:530-662 | every step of any `open` or `stop`, and of the world, keeps the lock, the pid file and the children in order |
| `Launcher.RunKeepsInv` | backend/crates/ec-hub/src/desktop.rs:530-662 | so does every run |
| `Launcher.RunsAreSafe` | backend/crates/ec-hub/src/desktop.rs:530-662 | at most one `open` has a starting child, a failed start left its child dead, a successful one, with a child of its own or not, found a console that answers until it exits, a `stop` signals only pids that an `open` had recorded and reports success only of what has exited, from the time the pid file is emptied it names nobody and then the child, and no browser is opened for a refusal or a failed start |
| `Launcher.SuccessIsRecorded` | backend/crates/ec-hub/src/desktop.rs:568-608 | when a start has succeeded, its child is alive, the pid file names it or is gone, and the console answers; when the child lost the port, it is dead, the pid file is gone and another console answers |
| `Launcher.LeavesRecorded` | backend/crates/ec-hub/src/desktop.rs:386-402 | when an `open` leaves the lock after a start, the pid file names its child or is gone, and is gone if the child lost the port |
| `Launcher.TurnedDownForGood` | backend/crates/ec-hub/src/desktop.rs:538-590 | an `open` that sees another user's console, before a start or after it, or waits in vain never succeeds |
| `Launcher.NothingStarted` | backend/crates/ec-hub/src/desktop.rs:538-555 | on a host that binds every interface, or while somebody answers on the port, nothing is started |
| `Launcher.StopRemovesDead` | backend/crates/ec-hub/src/desktop.rs:636-660 | a `stop` removes the pid file only when its console has exited, after a signal when nothing runs under the pid, and reports success only with the file gone |
| `Launcher.SignalsStranger` | backend/crates/ec-hub/src/desktop.rs:636-648 | a `stop` comes to signal only what it has just seen to be a console that some `open` had started, and signals another program exactly if the pid was recycled after that |
| `Launcher.RecycledPid` | backend/crates/ec-hub/src/desktop.rs:642-648 | a run in which the pid is recycled between the check and the signal |
| `Launcher.FailsWithChild` | backend/crates/ec-hub/src/desktop.rs:557-608 | an `open` that comes to fail after it started a child leaves it alive exactly if that is for want of a browser and the child was alive |
| `Launcher.FailureLeavesDead` | backend/crates/ec-hub/src/desktop.rs:556-609 | with a browser to open, an `open` that fails after starting a child leaves it dead, in every run |
| `Launcher.BrowserFailureLeavesAlive` | backend/crates/ec-hub/src/desktop.rs:557-559 | without a browser the error comes with a live child |
| `Launcher.NoDeadlock` | backend/crates/ec-hub/src/desktop.rs:533-555 | while an `open` is not finished, the holder of the lock, or it, can go on |
| `Store.Store.SetState` | frontend/js/store.js:7-14 | after a set, with callbacks that set, subscribe and unsubscribe to any depth, every registered subscriber last saw what the state gives now |
| `Store.Store.Notify` | frontend/js/store.js:10-13 | a subscriber is called with the present view and the state before the set, exactly if it has no selector or the view differs from the last |
| `Store.Store.AddSubscriber` | frontend/js/store.js:16-18 | a subscriber is added at the end and has seen what its selector gives |
| `Store.Subscriber.See` | frontend/js/store.js:12 | a selector's callback never gets the value that it last saw |
| `Store.LastPatchWins` | frontend/js/store.js:8-9 | a field has the value that the last patch with it gave, a function of the state too |
| `Store.UntouchedStays` | frontend/js/store.js:9 | a field that no patch gives is as it was at first |
| `Store.IdsCount` | frontend/js/store.js:9 | every set makes a new state object |
| `Pool.Pool.Take` | frontend/js/views/discover.js:29 | a worker takes the next task, or ends when none is left |
| `Pool.Pool.Run` | frontend/js/views/discover.js:27-31 | in every order of completions each task is called once, its result is at its index, no more than the smaller of the two numbers are in flight, and the run ends |
| `MarkdownSyntax.EscapeIsPerCharacter` | frontend/js/markdown.js:4-6 | the chain of replaces is one entity per character |
| `MarkdownSyntax.EscapedIsShown` | frontend/js/markdown.js:4-6 | escaped text is shown as it was and holds no character that opens a tag, closes one or ends an attribute |
| `MarkdownLines.FenceReads` | frontend/js/markdown.js:29 | a fence has at most three spaces before it, three marks or more, and a language |
| `MarkdownLines.ClosesReads` | frontend/js/markdown.js:60 | a fence is closed by a mark at least as long |
| `MarkdownLines.HeadingReads` | frontend/js/markdown.js:30 | a heading has one to six hashes, white space and a text |
| `MarkdownLines.RuleReads` | frontend/js/markdown.js:31 | a rule has three marks of a kind or more |
| `MarkdownLines.QuoteReads` | frontend/js/markdown.js:32 | a quoted line is what follows the mark and one white space character |
| `MarkdownLines.ItemReads` | frontend/js/markdown.js:33 | an item is a bullet or a number of up to nine digits, white space and a text, as deep as it is indented |
| `MarkdownLines.KindIs` | frontend/js/markdown.js:54-84 | the kind of a line is the pattern that it matches, and a rule that reads as an item is a rule |
| `MarkdownLines.SeparatorReads` | frontend/js/markdown.js:34 | a row is a separator exactly if every cell is one of dashes |
| `MarkdownLines.RowReads` | frontend/js/markdown.js:37-42 | a row gives back its cells |
| `MarkdownLines.EscapedBar` | frontend/js/markdown.js:40-41 | an escaped bar does not end a cell and is read as a bar |
| `MarkdownLines.UnderItem` | frontend/js/markdown.js:94 | lines written two deeper than their item are read under it as they were |
| `Markdown.ItemsOf` | frontend/js/markdown.js:83-98 | the loop over the items ends, through nested lists, and gives the tokens of the specified items |
| `Markdown.BlocksOf` | frontend/js/markdown.js:48-106 | the loops give the tokens of the specified blocks, on every input |
| `MarkdownLaws.TagsAreNested` | frontend/js/markdown.js:48-106 | every tag is closed, in the right order and only where it may stand |
| `MarkdownContent.BlocksHeld` | frontend/js/markdown.js:51-105 | the parser's blocks hold all the lines, each read as its block's kind says, down to every quote and every item of a list |
| `MarkdownContent.ContentIsUnique` | frontend/js/markdown.js:51-105 | blocks that hold the lines are the parser's: nothing is left to choose |
| `MarkdownContent.ItemsHeld` | frontend/js/markdown.js:85-97 | each item has its own text and the blocks of the deeper lines under it without their indentation; only blank lines stand between items, and no such item follows |
| `MarkdownShown.AllShow` | frontend/js/markdown.js:62-104 | the tokens show all the texts of the blocks, in order, each inside the tags that are open around it |
| `MarkdownLaws.SpansTile` | frontend/js/markdown.js:51-105 | the blocks come from consecutive runs of lines that they hold, with only blank lines around them |
| `MarkdownLaws.EveryLineOnce` | frontend/js/markdown.js:51-105 | every line that is not blank belongs to exactly one block, and that block holds the lines of its run |
| `MarkdownLaws.RowWidth` | frontend/js/markdown.js:80-81 | every row is written with as many cells as the head has |
| `Dechunk.Dechunked` | backend/crates/ec-hub/src/desktop.rs:222-239 | the loop gives the decoded body, or stops at an offset that overflows |
| `Dechunk.RoundTrip` | backend/crates/ec-hub/src/desktop.rs:222-239 | a complete body of chunks without extensions gives back their data |
| `Dechunk.Truncated` | backend/crates/ec-hub/src/desktop.rs:224-237 | a body cut anywhere, between chunks too, gives exactly the chunks whose data are complete |
| `Dechunk.TruncatedAtLast` | backend/crates/ec-hub/src/desktop.rs:224-237 | a body cut inside its last size line gives all data |
| `Dechunk.SentIsDecoded` | backend/crates/ec-hub/src/desktop.rs:222-239 | pieces of data sent with their lengths in base 16 before them come out as they were |
| `Dechunk.NoSizeEnds` | backend/crates/ec-hub/src/desktop.rs:226-230 | a size line without a size ends the body, and what came before is the data |
| `Dechunk.TooMuchAsked` | backend/crates/ec-hub/src/desktop.rs:226-230 | a size of more than there is ends the body, but stops the program exactly if it fits a number and the offset after the data does not |
| `Dechunk.SizeInPadding` | backend/crates/ec-hub/src/desktop.rs:227 | a size may have white space around it and a plus sign before it |
| `ShellQuoting.ArgumentReads` | frontend/js/param-form.js:83 | a quoted argument is one word to the shell, whatever follows |
| `ShellQuoting.ShellReadsBack` | frontend/js/param-form.js:112 | the shell reads the arguments back, all of them and nothing else |
| `JsonPath.GetPath` | frontend/js/cfg-json.js:23-27 | the cursor loop gives the value at the path, or undefined |
| `JsonPath.SetGets` | frontend/js/cfg-json.js:31-42 | set then get gives the value |
| `JsonPath.SetTwice` | frontend/js/cfg-json.js:31-42 | the last set wins |
| `JsonPath.SetElsewhere` | frontend/js/cfg-json.js:31-42 | a set leaves reads at paths that part from it unchanged |
| `JsonPath.SetsCommute` | frontend/js/cfg-json.js:31-42 | sets at paths that part commute exactly if the order of two new keys does not show: one was there, or an index is sorted by itself |
| `JsonPath.MissingIsMade` | frontend/js/cfg-json.js:31-42 | a set into nothing makes exactly the containers of its path: an object for every name and an array for every index, which has to be 0 |
| `JsonPath.NewKeysShow` | frontend/js/cfg-json.js:31-42 | two new keys set on an empty object in either order give different documents |
| `JsObject.AssignsCommute` | frontend/js/cfg-json.js:36-41 | two keys assigned in either order give the same object exactly if one was there or is an array index |
| `JsObject.AssignListed` | frontend/js/cfg-dotenv.js:61-65 | assigning in an object is storing in the list of its keys as they were added, and listing that |
| `JsObject.ListedIsOrdered` | frontend/js/cfg-dotenv.js:61-65 | what an object lists is in order, and a list is what it lists exactly if it is |
| `JsIndices.ArrayIndexIs` | frontend/js/cfg-dotenv.js:61-65 | a key is an array index exactly if it is the numeral, without leading zeros, of a number up to 2^32 - 2 |
| `JsIndices.ListedBefore` | frontend/js/cfg-dotenv.js:61-65 | one key is listed before another, whenever they were added, exactly if it is an index and the other is none or a larger number |
| `JsonPath.DeleteGets` | frontend/js/cfg-json.js:36-39 | deleting an index keeps the others in order, deleting a key the other keys |
| `Bars.WidthsSum` | frontend/js/memory.js:11-20 | the widths add up to the larger of the least widths and the values as far as 100, or to the least widths when no segment is large |
| `Bars.WidthsFit` | frontend/js/memory.js:1-20 | the widths stay within 100 exactly if the least widths do |
| `Bars.WidthsAre` | frontend/js/memory.js:10-20 | a small segment has the least width, the others only shrink by one factor, and without a total all widths are zero |
| `Bars.SharesAddUp` | frontend/js/memory.js:13 | the shares of the values are their sum as a percentage of the total |
| `Bars.FullBarFills` | frontend/js/memory.js:11-20 | values that add up to the total fill the bar exactly, if one of them is not small and the least widths fit |
| `Bars.Group` | frontend/js/fleet.js:79-86 | the loop sums the processes' memory by instance and apart from them |
| `Bars.GroupingConserves` | frontend/js/fleet.js:79-86 | the groups add up to what the instances' processes use, each to its own, and with the processes of no instance they are all the use there is |
| `Bars.SortedKeeps` | frontend/js/fleet.js:87 | sorting keeps the engines and their sum |
| `Bars.SortedDescends` | frontend/js/fleet.js:87 | the largest engine comes first |
| `Bars.SortedIsStable` | frontend/js/fleet.js:87 | engines that use the same stay in their order |
| `Bars.GpuBarTotal` | frontend/js/fleet.js:89-97 | a GPU's segments add up to its memory exactly if the engines use no more than the used figure shown |
| `Bars.GpuBarIsFull` | frontend/js/fleet.js:76-97 | for any figures and no negative process, exactly if the instances' processes use no more than the memory nor, with a driver's figure, than that |
| `Bars.GpuSegments` | frontend/js/fleet.js:89-97 | the bar is the engines, then what others use of the used figure, then the rest of the memory, as far as they show |
| `Bars.DriverAboveTotal` | frontend/js/fleet.js:92 | with a driver's figure above the memory they may not add up |
| `Bars.SystemBarTotal` | frontend/js/memory.js:26-37 | the host's segments add up to the used sum and what is available |
| `Bars.UsedSumIsUsed` | frontend/js/memory.js:26-37 | the used sum is the used figure exactly if the engines use no more than it |
| `Bars.SystemSegments` | frontend/js/memory.js:26-36 | the host's bar is the engines, then what others use of the used figure, then what is available, as far as they show |
| `Text.JoinSplit` | frontend/js/cfg-dotenv.js:15 | splitting a text at a character and joining it gives it back |
| `Text.SplitJoin` | frontend/js/cfg-dotenv.js:75 | joining pieces without the character and splitting gives them back |

## Left out

- Strings: sequences of Unicode scalar values; lengths are in UTF-16 units in the browser and in UTF-8 bytes in the hub, and lone
  surrogates are outside the model.
- Flow control: window and frame size are parameters, the node's side is the same two roles, requests are registered on both ends
  at once, removing a request and failed writes to the pipe are not modelled, and of frames without a request only that they
  change no request.
- EnvLens.ReadValues: does not model `__proto__`, which replaces the object's prototype instead of being listed, nor the names that
  every object inherits, such as `toString`, read when they were not assigned.
- EnvLens.SetThenRead: the same two gaps.
- EnvAgreement.ReadersAgree: a line that assigns `__proto__` is not common to both readers, for that reason.
- HubEnv.TryParseDotenv: does not model reading the file and its size limit; the layering of settings (`prefix_only`,
  `Settings::load`) would only add easy members.
- DiffText.Abridge: does not model the characters put before a line, nor joining the lines.
- SseStream.EventStream.Run: `Failure`, `Over` and `Pause` are marks in the log, which the rules tie to the answers. It does not model
  decoding bytes, parsing JSON and callbacks that throw; time is the sequence of waits.
- SseStandard: the standard's `retry` field, which dispatches nothing and which the code ignores, and its byte order mark, which is
  taken off in decoding, are left out.
- Launcher: a pid that is given again goes to another program, not to a console, a launcher is not killed in the middle, writing the pid file succeeds, `terminate` ends
  the child, a console that answers does so until it exits, and a probe is one step; addresses, log and notifications are left out.
- Store.Store.SetState: does not model callbacks, patches and selectors that throw, and selectors and patch functions that call the
  store; equal values stand for `Object.is`, and the depth to which callbacks nest is finite.
- Pool.Pool.Run: does not model tasks that reject.
- Markdown.BlocksOf: does not model the text inside blocks: emphasis, links and code spans are opaque, as is the split of a text
  into lines.
- Dechunk.Dechunked: does not model chunk extensions, whose size line counts as 0 in the code as in the model; `max` is the largest
  offset, and how bytes that are not ASCII read in a size line is a parameter.
- JsonPath.SetGets: does not model indices past the end, which leave holes, names on arrays, indices on objects, `__proto__`, which
  replaces the prototype, nor the names that every object inherits, read when they are not there.
- Bars: real numbers instead of floating point; colours, labels and unified memory are left out.
- ShellQuoting.ShellReadsBack: does not model what the shell does with the words afterwards, such as an assignment before a command.
- Sockets, processes, files, HTTP, the page and timers are parameters, events or left out; grouping instances by host
  (`groupByHost`) and command-line assembly (`toCliArgs`) would only add easy members.
