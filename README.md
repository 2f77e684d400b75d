# wavplay audio engine: a verified model

WavPlay plays decoded audio through a small engine. `GDMAudioEngine` owns a
fixed number of channel slots. It loads a stream into the first slot that is
empty or whose line is closed, and it plays and stops channels by number.
Each `GDMAudio` channel copies its stream to an output line, one
`BUFFER_SIZE` (4096 bytes) chunk at a time, and rewinds the stream to its
mark when playback finishes normally. `Modal` is the tagged logger. It builds
a node name from a static ID counter, and it prints `"[node/TAG] msg"` lines
filtered by a verbosity level.

The model has five modules:

- `Outcomes` (`outcomes.dfy`): `Option`, `Min`, the Java exceptions that reach a
  caller, and `Result`.
- `AudioModel` (`audio_model.dfy`): the channel's collaborators and the
  reference definitions.
  - `Stream` models the `AudioInputStream`: its bytes, position, mark, whether
    it supports marks, whether it is open, and whether its `close` throws.
  - `Line` models the `SourceDataLine`: open, started, the chunks written to
    it, and whether its `close` throws.
  - `ChannelState` is one channel's state.
  - Pure functions (`StopSpec`, `ResetSpec`, `SkipSpec`, `CloseSpec`,
    `TransferSpec`, `RunSpec`) define what each channel operation does.
    Lemmas state what `run()` promises.
- `Audio` (`gdm_audio.dfy`): class `GDMAudio`, with the source's fields and
  its 4096-byte buffer as an `array`. Each method is proved to change the
  state exactly as its reference function says. `Run`'s transfer loop is a
  `while` loop with its invariants.
- `AudioEngine` (`gdm_audio_engine.dfy`): class `GDMAudioEngine`.
  - The channel and handle tables are arrays.
  - Free-slot search is a loop, proved equal to the first-fit function
    `FirstFit` over the slots' free mask.
  - Every public operation returns IllegalArgumentException for a bad channel
    number.
- `Logging` (`modal.dfy`):
  - The `Mode` enum and the constructor rules, as the function `Construct`
    and the method `NewModal` over an `IdCounter` object.
  - The print family, appending to a `PrintStream` whose `out` is the
    sequence of strings printed.
  - `equals`.

Calls into code that cannot be seen become parameters:

- The decoded stream and the obtained line are inputs to `Load` and
  `MakeChannel`. `None` stands for decoding failing or no line being
  available.
- An I/O exception inside `run()` is the parameter `fault`. `Some(k)` makes
  the read of the (k+1)-th chunk throw.
- `close` failures are the `closeFails` flags of the stream and the line.
- The default `System.out` stream is the `defaultStream` parameter.
- The IOException that the channel constructor's `stream.available()`
  raises on a closed stream that supports marks is the `IOFailure` outcome
  of `MakeChannel` and `Load`. The `GDMAudio` constructor itself is only
  called when that call succeeds.

`Modal`'s constructor means to replace a null `PrintStream` by the default
stream: its error message reads "Constructing with the default PrintStream"
and it then assigns `ps = DEFAULT_PSTR` (Modal.java:99-102). The code does
not get that far:

1. It reports the null stream through `printSelf`.
2. `printSelf` prints on the field `pStr`.
3. At that point `pStr` has not been assigned yet, so the call throws
   NullPointerException.

The same happens when `nextID` has reached the largest short: the error
report throws before `ID` is taken. The model keeps the second behaviour. The
report's own text says an exception is expected there. For the first, see
"## Findings".

## Model

| member | source | states |
|---|---|---|
| AudioModel.Chunks | src/eden/wavplay/common/GDMAudio.java:94-97 | the reads of the loop split the remaining bytes into chunks of 1 to 4096 bytes whose concatenation is exactly those bytes |
| AudioModel.ChunksPrefixLength | src/eden/wavplay/common/GDMAudio.java:94-97 | every chunk but the last is full, so k chunks hold min(k * 4096, remaining) bytes |
| AudioModel.MarkIfSupported | src/eden/wavplay/common/GDMAudio.java:66-69 | the stream is marked at its current position only when it supports marks; data and position are untouched |
| AudioModel.StopSpec | src/eden/wavplay/common/GDMAudio.java:113-117 | stop stops the line, forgets the thread and clears running; the stream and the written data are unchanged |
| AudioModel.ResetSpec | src/eden/wavplay/common/GDMAudio.java:126-135 | reset succeeds iff marks are supported and the stream is open; then the position is back at the mark and the mark still there; otherwise nothing changes |
| AudioModel.SkipSpec | src/eden/wavplay/common/GDMAudio.java:145-157 | a negative count throws IllegalArgumentException; otherwise true iff the stream is open, and then the position advances by min(n, available), staying within n |
| AudioModel.CloseSpec | src/eden/wavplay/common/GDMAudio.java:201-210 | true iff neither close throws; a throwing line close changes nothing; the line is closed before the stream, which is closed only on success |
| AudioModel.TransferSpec | src/eden/wavplay/common/GDMAudio.java:94-97 | the loop leaves everything but stream and line as they were and keeps the channel valid |
| AudioModel.RunSpec | src/eden/wavplay/common/GDMAudio.java:85-110 | run keeps the channel state valid (stream position and mark within the data, running exactly when a thread is recorded) |
| AudioModel.RunWritesStreamInChunks | src/eden/wavplay/common/GDMAudio.java:94-97 | run only appends to the line, every appended chunk holds 1 to 4096 bytes, and the stream data is never altered |
| AudioModel.RunTransfersRemaining | src/eden/wavplay/common/GDMAudio.java:85-110 | a run that ends normally writes exactly the rest of the stream; one cut by an exception writes a prefix of it and moves the position by that prefix's length |
| AudioModel.RunCompletedFreesChannel | src/eden/wavplay/common/GDMAudio.java:99-103 | after a normal end the channel is free, thread-less and stopped, and a markable stream is back at its mark |
| AudioModel.RunFailedLeavesBusy | src/eden/wavplay/common/GDMAudio.java:104-109 | after a caught exception the channel stays running with its thread and started line |
| AudioModel.RunFailsIff | src/eden/wavplay/common/GDMAudio.java:85-110 | run fails exactly when the stream is closed or a read throws before the data runs out |
| AudioModel.RunReplays | src/eden/wavplay/common/GDMAudio.java:99-103 | from a markable stream at its mark, two normal runs each write the same chunks and leave the stream as it was |
| AudioModel.StopIdempotent | src/eden/wavplay/common/GDMAudio.java:113-117 | stop twice is stop once, and stop never moves the read position |
| AudioModel.CloseIdempotent | src/eden/wavplay/common/GDMAudio.java:201-210 | after a successful close, closing again succeeds and changes nothing |
| Audio.GDMAudio.constructor | src/eden/wavplay/common/GDMAudio.java:62-80 | for a stream whose marking does not throw: marks it if it supports marks, allocates a fresh 4096-byte buffer and holds the line as OpenedLine gives it; the new channel is free and not closed |
| AudioModel.OpenedLine | src/eden/wavplay/common/GDMAudio.java:78-79 | a line just obtained and opened is open, not started and holds nothing written; whether closing it fails is its own |
| Audio.GDMAudio.ReadChunk | src/eden/wavplay/common/GDMAudio.java:95 | the buffer's first n bytes are the next n stream bytes, n = min(4096, available), and the position moves by n |
| Audio.GDMAudio.Run | src/eden/wavplay/common/GDMAudio.java:85-110 | the new channel state and the outcome are exactly RunSpec of the old state |
| Audio.GDMAudio.Transfer | src/eden/wavplay/common/GDMAudio.java:94-97 | the copy loop ends in exactly the state and outcome TransferSpec gives |
| Audio.GDMAudio.Stop | src/eden/wavplay/common/GDMAudio.java:113-117 | the new state is StopSpec of the old |
| Audio.GDMAudio.Reset | src/eden/wavplay/common/GDMAudio.java:126-135 | the new state and result are ResetSpec of the old |
| Audio.GDMAudio.Skip | src/eden/wavplay/common/GDMAudio.java:145-157 | throws or returns exactly as SkipSpec says, and a throw changes nothing |
| Audio.GDMAudio.Await | src/eden/wavplay/common/GDMAudio.java:164-175 | true iff a thread is recorded, which is iff the channel is not free |
| Audio.GDMAudio.Close | src/eden/wavplay/common/GDMAudio.java:201-210 | the new state and result are CloseSpec of the old |
| AudioEngine.FirstFit | src/eden/wavplay/common/GDMAudioEngine.java:367-376 | the first free slot, or -1 exactly when no slot is free |
| AudioEngine.GDMAudioEngine.constructor | src/eden/wavplay/common/GDMAudioEngine.java:62-70 | n empty channel slots and n empty handles, all slots free |
| AudioEngine.GDMAudioEngine.GetFreeChannel | src/eden/wavplay/common/GDMAudioEngine.java:367-376 | the loop returns the first slot that is empty or has a closed line, or -1 |
| AudioEngine.GDMAudioEngine.MakeChannel | src/eden/wavplay/common/GDMAudioEngine.java:349-360 | no free slot throws IllegalStateException before the channel is built; then a closed markable stream throws an IOException from marking, and no line throws LineUnavailableException; otherwise a fresh channel goes into the first free slot, only that slot changes and it is no longer free |
| AudioEngine.GDMAudioEngine.Install | src/eden/wavplay/common/GDMAudioEngine.java:358 | the new channel in slot i holds the marked stream and the opened line, and is neither running nor holding a playback thread; every other slot is untouched and only slot i stops being free |
| AudioEngine.GDMAudioEngine.Load | src/eden/wavplay/common/GDMAudioEngine.java:123-132 | a stream that cannot be decoded throws before any slot is looked at; otherwise as MakeChannel |
| AudioEngine.GDMAudioEngine.Play | src/eden/wavplay/common/GDMAudioEngine.java:207-218 | bad channel throws; otherwise returns whether the channel was free, and records a handle for it only then |
| AudioEngine.GDMAudioEngine.PlayAndAwait | src/eden/wavplay/common/GDMAudioEngine.java:232-243 | bad channel throws; a free channel is run in place (its state becomes RunSpec of the old), a busy one is untouched |
| AudioEngine.GDMAudioEngine.Await | src/eden/wavplay/common/GDMAudioEngine.java:253-270 | bad channel throws; otherwise true iff a handle was recorded for it |
| AudioEngine.GDMAudioEngine.Stop | src/eden/wavplay/common/GDMAudioEngine.java:277-283 | bad channel throws; otherwise the channel's state becomes StopSpec of the old |
| AudioEngine.GDMAudioEngine.Unload | src/eden/wavplay/common/GDMAudioEngine.java:297-304 | bad channel throws; otherwise the channel is closed as CloseSpec says and its slot becomes free iff its line closed |
| AudioEngine.GDMAudioEngine.UnloadAll | src/eden/wavplay/common/GDMAudioEngine.java:312-325 | every loaded channel is closed as CloseSpec says, the result is true iff every close succeeded, and no failure stops the loop |
| AudioEngine.LoadThree | src/eden/wavplay/common/GDMAudioEngine.java:349-360 | on a two-slot engine, loads go to slots 0 and 1 and a third throws IllegalStateException |
| AudioEngine.TwoChannelScenario | src/eden/wavplay/common/GDMAudioEngine.java:297-304 | after unloading slot 0 of a full two-slot engine, the next load reuses slot 0 |
| AudioEngine.FirstFitOfSuffix | src/eden/wavplay/common/GDMAudioEngine.java:369-375 | when the slots from i on are free, the scan finds slot i, or none when i is the slot count |
| AudioEngine.SuffixMaskStep | src/eden/wavplay/common/GDMAudioEngine.java:358 | filling slot i of a mask free from i on leaves it free from i + 1 on |
| AudioEngine.FillEngine | src/eden/wavplay/common/GDMAudioEngine.java:349-360 | on a new engine of any n slots, n loads return slots 0 to n-1 in order and the next one throws IllegalStateException |
| Audio.GDMAudio.IsFree | src/eden/wavplay/common/GDMAudio.java:182-184 | a channel is free exactly when it is not running |
| Audio.GDMAudio.IsClosed | src/eden/wavplay/common/GDMAudio.java:191-193 | a channel is closed exactly when its line is not open |
| Audio.GDMAudio.CopyChunk | src/eden/wavplay/common/GDMAudio.java:95-96 | one loop pass reads the next chunk and writes it to the line, so one more chunk is copied |
| AudioModel.Begin | src/eden/wavplay/common/GDMAudio.java:88-92 | run records its thread, sets running and starts the line before the loop, touching nothing else |
| AudioModel.RunChunks | src/eden/wavplay/common/GDMAudio.java:94-97 | with the line closed the loop writes no chunk; with it open the chunks concatenate to the stream's remaining bytes, each 1 to 4096 bytes long |
| AudioModel.MarkThrows | src/eden/wavplay/common/GDMAudio.java:66-67 | the constructor's available() is reached only for a markable stream, and throws when that stream is closed |
| AudioEngine.GDMAudioEngine.IsValidChannel | src/eden/wavplay/common/GDMAudioEngine.java:386-391 | a channel number is valid when it is in range and its slot has been loaded |
| AudioEngine.GDMAudioEngine.SlotFree | src/eden/wavplay/common/GDMAudioEngine.java:371 | a slot can be loaded when it is empty or its channel's line is closed |
| Logging.NatToString | src/eden/wavplay/common/Modal.java:118 | the ID is written as a non-empty run of decimal digits with no leading zero |
| Logging.NatToStringRoundTrip | src/eden/wavplay/common/Modal.java:113-118 | reading the written ID back gives the ID, so distinct IDs give distinct nodes |
| Logging.DigitsValue | src/eden/wavplay/common/Modal.java:113 | the value Long.parseLong gives a digit string: a numeral of k digits is below 10^k, and at least 10^(k-1) without a leading zero |
| Logging.LongValue | src/eden/wavplay/common/Modal.java:113 | the value of an accepted numeral lies within the range of a long |
| Logging.ParsesIdNumeral | src/eden/wavplay/common/Modal.java:113 | the suffix of a node "Modal$" + ID parses back to the ID |
| Logging.ByteCast | src/eden/wavplay/common/Modal.java:133 | the stored verbosity is in the byte range, congruent to the clamped value mod 256, and equal to it when that fits |
| Logging.DefaultNode | src/eden/wavplay/common/Modal.java:52-66 | the default node has the "Modal$" prefix followed by the ID's digits |
| Logging.IdCounter.constructor | src/eden/wavplay/common/Modal.java:22 | the ID counter starts at 10000 |
| Logging.Construct | src/eden/wavplay/common/Modal.java:85-137 | throws iff the IDs are used up (NullPointerException), the node is shorter than 6 (IllegalArgumentException) or a "Modal$" node has a non-numeric suffix (NumberFormatException); otherwise keeps the ID and useSymbol, renames any "Modal$" node in any case to "Modal$" + ID, keeps other nodes, substitutes the default stream for null, stores byte(min(verbosity, 4)) |
| Logging.NewModal | src/eden/wavplay/common/Modal.java:85-137 | the counter moves up by one unless it is at the largest short, even when the call throws, and the result is Construct of the old counter |
| Logging.NextIdAfter | src/eden/wavplay/common/Modal.java:89-94 | the counter moves up by one, except at the largest short, where printSelf throws before the increment and it stays put; it never leaves the short range |
| Logging.NewDefaultModal | src/eden/wavplay/common/Modal.java:52-66 | the no-node constructors pass "Modal$" + the next ID, verbosity 2 and word prefixes |
| Logging.DefaultConstruction | src/eden/wavplay/common/Modal.java:52-66 | the no-node constructors throw only when the IDs are used up, and keep their node, verbosity 2 and no symbols |
| Logging.ConstructIdempotent | src/eden/wavplay/common/Modal.java:108-133 | rebuilding from a constructed Modal's own fields under the same ID gives the same Modal |
| Logging.LowerCaseNodeRenamed | src/eden/wavplay/common/Modal.java:110-118 | "modal$7" under ID 10000 is stored as "Modal$10000": the prefix test ignores case and a mismatched suffix is replaced |
| Logging.NegativeVerbosityWraps | src/eden/wavplay/common/Modal.java:126-133 | a verbosity of -129 is stored as 127, so every mode passes |
| Logging.ConstructAsWritten | src/eden/wavplay/common/Modal.java:97-104 | as written, a null stream throws NullPointerException; with a stream the result is Construct's |
| Logging.NullStreamDiscrepancy | src/eden/wavplay/common/Modal.java:97-104 | Modal("player", null, 2, false) throws as written but yields a Modal on the default stream as intended |
| Logging.NullStreamFallsBack | src/eden/wavplay/common/Modal.java:97-104 | below the largest ID a null stream never throws NullPointerException and behaves as passing the default stream |
| Logging.ModeText | src/eden/wavplay/common/Modal.java:251-261 | print(mode, msg) emits output iff verbosity >= level of the mode |
| Logging.Emits | src/eden/wavplay/common/Modal.java:253 | the verbosity filter: from 3 up every mode passes, a negative verbosity silences every mode, and PROMPT and INFO pass at any verbosity of 0 or more |
| Logging.Tag | src/eden/wavplay/common/Modal.java:255-259 | the header tag is a single character exactly when the Modal uses symbols, and is never empty |
| Logging.ClnText | src/eden/wavplay/common/Modal.java:369-374 | printCln(mode, msg) emits iff the mode passes, and then exactly msg |
| Logging.Mode.Prefix | src/eden/wavplay/common/Modal.java:443-447 | the word prefixes PROMPT, INFO, ALERT, ERROR and DEBUG |
| Logging.Mode.Symbol | src/eden/wavplay/common/Modal.java:443-447 | the symbols ?, i, !, X and $ |
| Logging.Mode.Level | src/eden/wavplay/common/Modal.java:443-447 | the levels 0, 0, 1, 2 and 3 |
| Logging.PlainText | src/eden/wavplay/common/Modal.java:240-242 | print(msg) writes "[", the node, "] " and msg |
| Logging.ParsesAsLong | src/eden/wavplay/common/Modal.java:113 | Long.parseLong accepts an optional sign and at least one digit whose value fits a long |
| Logging.EqualsIgnoreCase | src/eden/wavplay/common/Modal.java:110 | equal lengths and equal characters up to ASCII case |
| Logging.HasModalPrefix | src/eden/wavplay/common/Modal.java:108-110 | the node has at least six characters and the first six are "Modal$" up to case |
| Logging.PlainTextDecodes | src/eden/wavplay/common/Modal.java:240-242 | the output of print(msg) is "[", the node, "] " and msg, each recoverable by position |
| Logging.ModeTextDecodes | src/eden/wavplay/common/Modal.java:251-261 | a passing mode message is "[", the node, "/", the symbol or word prefix, "] " and msg, each recoverable by position |
| Logging.ConstructedVerbosity | src/eden/wavplay/common/Modal.java:126-133 | for a verbosity argument of at least -128 the stored verbosity is at most 4; from 4 up it is 4 and every mode passes; a negative one silences every mode |
| Logging.EmitsAtBounds | src/eden/wavplay/common/Modal.java:443-450 | at verbosity 4 every mode passes; at 0 exactly PROMPT and INFO pass |
| Logging.PrintStream.constructor | src/eden/wavplay/common/Modal.java:16 | a new stream has nothing printed on it |
| Logging.Print | src/eden/wavplay/common/Modal.java:240-242 | one "[node] msg" string is appended to the stream and nothing else changes |
| Logging.PrintMode | src/eden/wavplay/common/Modal.java:251-261 | the stream gains the mode message if the mode passes, else nothing |
| Logging.Println | src/eden/wavplay/common/Modal.java:338-340 | the same as print(msg + "\n") |
| Logging.PrintlnMode | src/eden/wavplay/common/Modal.java:349-351 | the same as print(mode, msg + "\n") |
| Logging.PrintClnMode | src/eden/wavplay/common/Modal.java:369-374 | the stream gains msg without header if the mode passes, else nothing |
| Logging.EqualsIgnoresOnlyId | src/eden/wavplay/common/Modal.java:419-433 | equals is false for null, true iff the Modals agree on everything but the ID, and is an equivalence |
| Logging.Equals | src/eden/wavplay/common/Modal.java:419-433 | equals(m) compares node, stream identity, verbosity and useSymbol of a non-null m |
| Logging.RenamedModalsNeverEqual | src/eden/wavplay/common/Modal.java:419-433 | two Modals built from the same "Modal$" node under different IDs are never equal |

## Left out

- Threads: the thread pool, `Future`, `GDMThreadFactory` and `Thread.join` are not modelled. AudioEngine.GDMAudioEngine.Play only records a handle and does not start the run. After `Play` the channel is therefore still free, so a second `Play` returns true and records a handle again. In the source, once the dispatched run has set `running` (GDMAudio.java:89), a second `play` returns false (GDMAudioEngine.java:213, 217). In the model, `Play` returns false only on a channel left busy by an earlier `PlayAndAwait` whose run failed.
- AudioEngine.GDMAudioEngine.Await: answers whether a handle was recorded. It does not block until the playback ends, and it does not capture the failure of `get()` on a cancelled task.
- Audio.GDMAudio.Await: does not model `join` blocking. Joining from the playing thread itself is not captured.
- Audio.GDMAudio.ReadChunk: reads min(4096, available) bytes. The rounding of `read` to whole audio frames is not modelled.
- Audio.GDMAudio.Skip: advances by min(n, available). The frame rounding of `AudioInputStream.skip` is not modelled, and neither is its return value, which the source discards.
- AudioModel.MarkIfSupported: the read limit given to `mark` is not modelled. A mark is never invalidated by reading past it.
- `line.drain()` and all timing are left out: a run that ends normally is modelled as having played everything written.
- `AudioFormat` is left out. The source only passes the format to `AudioSystem.getSourceDataLine` to select the line (GDMAudio.java:72, 78), and the `line` parameter models that line.
- The four `load` overloads differ only in how they open the source. They are modelled by one `Load` whose input is the decoding outcome. Decoding comes before the free-slot check in the model too, but the model does not capture that the decoded stream is then left open (leaked) when IllegalStateException, the marking IOException or LineUnavailableException is thrown (GDMAudioEngine.java:129-131, 352-356).
- A negative channel count in the engine constructor throws NegativeArraySizeException in Java. This is not modelled; `n` is a `nat`.
- The `System.err` report of a caught exception in `run()` is modelled only as the `Failed` outcome.
- WavPlay.java, the command-line front end, is not part of this model.
- Logging.NewModal: the diagnostics `printSelf` prints (illegal node, invalid verbosity) are not modelled as output. Only the exceptions they cause are modelled.
- Logging.ParsesAsLong: accepts ASCII digits only. `Long.parseLong` also accepts other Unicode decimal digits.
- Logging.EqualsIgnoreCase: folds ASCII letters only. Java's case folding of other scripts is not modelled.
- `getClass().getName()` in `printSelf` is not modelled: subclasses of `Modal` are not considered.
- The `print`/`println` overloads for `boolean`, numbers and `float`/`double` are not modelled. They convert the value with `toString` and call the string version. `print()` prints the object's `toString`, and `printCln(String)` and `println()` print through to the stream unfiltered.
- The getters return the fields of the `Modal` datatype, so they have no members of their own.
- Audio.GDMAudio.Run: the path where the copy loop ends because another thread's `stop()` cleared `running` (GDMAudio.java:94, 99) is not modelled: `Transfer` starts with `running` set and nothing clears it during the loop. That path skips drain, stop and reset, and leaves the position mid-stream, so the next play resumes there.
- Logging.Construct: counts the node's length and splits it at six in Unicode scalar values, where `node.length()` and `substring` count UTF-16 code units (Modal.java:108-113). A node with characters outside the Basic Multilingual Plane is therefore judged differently; three U+1D11E characters have Java length 6 but model length 3. A null node, which throws NullPointerException at Modal.java:108, is not modelled because a node is a `string`.
- Logging.NewModal: the same UTF-16 length and null-node gaps as Logging.Construct.
- Logging.HasModalPrefix: takes the first six Unicode scalar values, where `node.substring(0, 6)` takes six UTF-16 code units (Modal.java:108-110). It also checks the length in scalar values. A node with characters outside the Basic Multilingual Plane can therefore be judged differently.

## Findings

| source | as written | input that shows it | evidently intended | confidence | as-written member | corrected member |
|---|---|---|---|---|---|---|
| src/eden/wavplay/common/Modal.java:97-104 | a null stream is reported with `printSelf`, which prints on the field `pStr` before it is assigned, so the constructor throws NullPointerException | `new Modal("player", null, 2, false)` with `nextID` = 10000 | the null stream is replaced by the default stream and the construction succeeds | high, not executed | Logging.ConstructAsWritten, Logging.NullStreamDiscrepancy | Logging.Construct, Logging.NullStreamFallsBack |
