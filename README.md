# DarkIce connector and configuration core, in Dafny

DarkIce is a live audio streamer. It reads PCM audio from a sound card, encodes it, and sends it to streaming servers (IceCast, IceCast2, ShoutCast) or to files.

This project models two parts of it:

- **The `Connector`** (`src/Connector.cpp`). It holds one audio source and an ordered list of sinks. It attaches and detaches sinks by reference identity. `open` opens the source and then every closed sink, and rolls back on the first refusal. `transfer` runs the loop of `canRead`, `read` and fan-out. In that loop a sink whose `write` throws is closed and detached, and the byte count is checked against a budget. `close` closes the source and then every sink.
- **The decisions of the `DarkIce` object** (`src/DarkIce.cpp`):
  - `init` reads the `[general]` and `[input]` sections.
  - The four output passes (`configIceCast`, `configIceCast2`, `configShoutCast`, `configFileCast`) look up the sections `[icecast-0]`, `[icecast-1]`, ... and check each one. They fill the output table and attach each output's encoder to the encoder connector.
  - `encode` computes the byte budget and drives the connector through `open`, `transfer` and `close`.

How the model is organised:

- **Outside objects.** The Source and Sink objects are outside the model. They appear as identities (`SourceRef`, `SinkRef`) and as a `Devices` object that records which of them are open and every call made on them.
- **What the outside does.** This is a parameter:
  - `script` gives the source's answer in each round of `transfer`;
  - `replies` gives each sink's answer in each fan-out turn;
  - `sourceOpens` and `opens` give the answers to `open()`.
- **Specification functions.** Every state-changing operation is a method of a Dafny class (`Connectors.Connector`, `Darkice.DarkIce`). Its `ensures` ties the new state and the answer to a pure function of the old state: `Session.Open`, `Session.Close`, `Streaming.Transfer`, `SinkList.Detached`, `Darkice.Scan`, `Darkice.Passes` and `Darkice.Encoding`. The lemmas then state what the source promises about those functions.

Modules:

| module | file | what |
|---|---|---|
| `Endpoints` | endpoints.dfy | source and sink identities, the calls made on them, `Devices` |
| `SinkList` | sinklist.dfy | the ordered sink list: `attach` and `detach` |
| `Session` | session.dfy | `open` and `close` as functions |
| `Streaming` | streaming.dfy | `transfer` as a function: rounds, fan-out, byte accounting |
| `Connectors` | connectors.dfy | the `Connector` class and its methods |
| `Settings` | settings.dfy | reading `[general]`, `[input]` and checking one output section |
| `Darkice` | darkice.dfy | the output passes, the output table, `encode`, the `DarkIce` class |

Behaviour of the code worth knowing:

- When a sink refuses to open, `open` closes the sinks of every slot before it. This includes sinks that were already open before the call, not only those it opened (`src/Connector.cpp:232-237`).
- When the fan-out detaches the last sink, `transfer` returns the count without the chunk being written, although earlier sinks received it (`src/Connector.cpp:298-302`).
- `transfer` reads a full `bufSize` chunk whatever is left of the budget, so the count can pass the budget by less than one chunk (`src/Connector.cpp:272-311`).
- As written, `detach` of a sink that is not attached answers true when exactly one sink is attached, and each output pass adds its end index to the count instead of setting it (see Findings). `SinkList.DetachedAsWritten` and `Darkice.PlanAsWritten` model the code as written. The `Connector` and `DarkIce` classes implement the corrected `detach` (`SinkList.Detached`) and the corrected count (`Darkice.Plan`).

## Model

| member | source | states |
|---|---|---|
| Connectors.Connector.constructor | src/Connector.cpp:56-61 | a new connector holds the given source and no sinks |
| Connectors.Connector.Copy | src/Connector.cpp:87-96 | the copy has the same source and the same sinks in the same order |
| Connectors.Connector.Strip | src/Connector.cpp:68-81 | every sink reference is released; the source is kept |
| Connectors.Connector.Assign | src/Connector.cpp:103-120 | afterwards this connector has the other's source and sinks, and the other connector is unchanged (including self-assignment) |
| Connectors.Connector.Attach | src/Connector.cpp:127-149 | the new sink is appended after the existing sinks, in order; duplicates take a second slot |
| Connectors.Connector.Detach | src/Connector.cpp:156-206 | the answer and the new list are those of SinkList.Detached: true and the first matching slot removed, or false and the list unchanged |
| Connectors.Connector.Open | src/Connector.cpp:213-245 | the answer and the new state of the source, the sinks and the call record are those of Session.Open |
| Connectors.Connector.OpenSinks | src/Connector.cpp:223-229 | the sink-opening loop stops at the slot and leaves the state that Session.OpenWalk gives |
| Connectors.Connector.Deliver | src/Connector.cpp:285-316 | after the chunk is read, the fan-out and the rest of the round leave the outcome and state of the remaining rounds |
| Connectors.Connector.Turn | src/Connector.cpp:287-307 | one turn of the fan-out loop keeps the fan-out on course: it either resumes at the next cursor with the next reply, or ends with the fan-out's final state |
| Connectors.Connector.CloseFirst | src/Connector.cpp:232-237 | the rollback loop closes exactly the sinks of slots 0..u-1, in order |
| Connectors.Connector.Close | src/Connector.cpp:327-335 | the new state is that of Session.Close: the source is closed first, then every sink in slot order; the list is kept |
| Connectors.Connector.Transfer | src/Connector.cpp:252-320 | the outcome and the new state are those of Streaming.Transfer; the source is kept |
| Connectors.Connector.Round | src/Connector.cpp:272-316 | one loop round either goes on into the rounds from the next script step, or ends with the outcome the remaining rounds give |
| Connectors.Connector.FanOutChunk | src/Connector.cpp:285-309 | the fan-out loop for one chunk leaves the sinks, open sinks, calls and reply index of Streaming.FanOut; the source is not touched |
| Connectors.Connector.VisitSink | src/Connector.cpp:287-307 | one sink's turn makes the calls of VisitLog and leaves the list and cursor of Streaming.Visit |
| SinkList.IndexOf | src/Connector.cpp:179-189 | the index found is the first slot holding the sink, or the length exactly when no slot holds it |
| SinkList.Without | src/Connector.cpp:191-203 | the rebuilt list is one shorter: slots before ix are kept and later slots move down by one |
| SinkList.Detached | src/Connector.cpp:156-206 | detach answers true exactly when the sink is attached, then removes one slot; otherwise the list is unchanged |
| SinkList.DetachedAsWritten | src/Connector.cpp:156-206 | as written, detach answers true exactly when one sink is attached or the sink is attached; it then removes one slot, otherwise it keeps the list |
| SinkList.SoleSinkDetachedByAnyone | src/Connector.cpp:162-169 | as written, for every list of one sink and every argument, detach answers true and empties the list; detach(2) on [1] is one such call |
| SinkList.DetachAgreesWhenAttached | src/Connector.cpp:156-206 | for a sink that is attached, the code as written and the corrected detach agree |
| SinkList.DetachRemovesFirstMatch | src/Connector.cpp:179-203 | a successful detach removes exactly the first slot holding the sink and keeps the others in order |
| SinkList.DetachOneCopy | src/Connector.cpp:179-203 | detach removes one copy of the sink, as a multiset |
| SinkList.AttachThenDetach | src/Connector.cpp:127-206 | attach then detach answers true and restores the multiset of sinks, or the list itself when the sink was new; detaching a sink never attached answers false |
| SinkList.DetachAtCursor | src/Connector.cpp:290-306 | detaching the sink at the fan-out cursor u moves the later slots down onto u, so the loop goes on at the same index |
| Session.Open | src/Connector.cpp:213-245 | open answers true exactly when the source ends open; the sink list is kept |
| Session.OpenWalk | src/Connector.cpp:223-229 | the walk goes through open or opening sinks and stops at the first closed sink that refuses; its only calls are open() on sinks that were closed |
| Session.OpenWalkOpens | src/Connector.cpp:223-229 | the walk closes nothing, opens only sinks of the slots it passed, and leaves all of them open when it reaches the end |
| Session.Close | src/Connector.cpp:327-335 | close makes the source's close() then one close() per slot in order; the source and every attached sink end closed; the list is kept |
| Session.OpenWalkCalls | src/Connector.cpp:217-229 | before any rollback, open keeps the earlier calls and adds only open() on the source when the source was closed and open() on sinks that were closed |
| Session.OpenSourceRefuses | src/Connector.cpp:217-220 | a closed source that refuses makes open fail with no sink touched |
| Session.OpenSucceedsIff | src/Connector.cpp:213-245 | open succeeds exactly when the source is or becomes open and every attached sink is or becomes open; it then leaves all of them open and closes nothing |
| Session.OpenRollsBack | src/Connector.cpp:217-242 | on the first refusing sink at slot u, open fails, closes the sinks of slots 0..u-1 in order, then the source, and the source ends closed; before that it only opened the source when closed and sinks that were closed |
| Session.OpenNeverReopens | src/Connector.cpp:223-229 | open never calls open() on a sink that was already open |
| Streaming.Visit | src/Connector.cpp:287-307 | after a sink's turn that goes on, exactly the slots after it remain to be visited |
| Streaming.VisitLogReads | src/Connector.cpp:287-292 | each turn polls exactly its own sink, and closes it exactly when its write throws |
| Streaming.VisitSlots | src/Connector.cpp:285-307 | a turn ends the fan-out with an exception exactly when canWrite throws; otherwise the next sinks are the slots after u |
| Streaming.VisitDetaches | src/Connector.cpp:290-303 | a sink whose write throws leaves the list (one slot) and the set of open sinks |
| Streaming.FanOutVisitsEach | src/Connector.cpp:285-309 | a fan-out that no exception cuts short polls exactly the sinks of the slots, in order, one reply each |
| Streaming.FanOutThrownPollsPrefix | src/Connector.cpp:285-309 | a fan-out cut short by an exception polled a nonempty prefix of the slots' sinks, in order |
| Streaming.FanOutDetaches | src/Connector.cpp:285-309 | the sinks a fan-out detaches are exactly those it closes, one slot each |
| Streaming.FanOutEnds | src/Connector.cpp:298-303 | a fan-out ends with no sinks exactly when it reports that the last one was detached |
| Streaming.FanOutAllAccept | src/Connector.cpp:285-309 | when every sink accepts, each sink is polled and written the chunk, in slot order, and nothing changes |
| Streaming.Transfer | src/Connector.cpp:252-320 | only a transfer with sinks and a nonzero chunk size raises or stops for a reason other than having nothing to do |
| Streaming.Rounds | src/Connector.cpp:272-316 | the count the loop reports is never below the count it started from |
| Streaming.RoundsNext | src/Connector.cpp:272-316 | after a data round, the loop goes on from the fan-out's state when the chunk was delivered, raises when a sink's canWrite threw, and stops with the count so far when the last sink was detached |
| Streaming.RoundsCount | src/Connector.cpp:272-319 | the count is the total size of the chunks read and fully fanned out, and the loop stopped at the round where the stop reason occurred |
| Streaming.RoundsBudget | src/Connector.cpp:272 | a transfer stops on its budget exactly when a budget is set and the count has reached it |
| Streaming.RoundsOvershoot | src/Connector.cpp:272-311 | with chunks of at most bufSize, the count stays below budget + bufSize |
| Streaming.RoundsKeepSource | src/Connector.cpp:272-316 | the rounds never open or close the source |
| Streaming.RoundsEmpty | src/Connector.cpp:298-303 | the rounds end with an empty list exactly when they stop because the last sink was detached |
| Streaming.FanOutShrinks | src/Connector.cpp:290-292 | a fan-out changes the list only by removing slots |
| Streaming.RoundsShrink | src/Connector.cpp:272-316 | a transfer changes the list only by removing slots |
| Streaming.TransferIdle | src/Connector.cpp:260-266 | transfer answers 0 and touches nothing exactly when there are no sinks or the chunk size is 0 |
| Streaming.TransferBudget | src/Connector.cpp:252-320 | stop on budget exactly when budget set and reached; count below budget + bufSize; the source's state is kept |
| Streaming.TransferDrains | src/Connector.cpp:272-319 | with no budget and sinks that accept every write, transfer answers the bytes the source delivered, and every sink receives every chunk in order |
| Settings.UInt | src/DarkIce.cpp:149-150 | a number stored in an unsigned int is below 2^32, and equals the parsed value when that fits |
| Settings.Required | src/DarkIce.cpp:147-149 | getForSure succeeds exactly when the key is present and yields its value; otherwise it fails naming the key and the section |
| Settings.Bitrate | src/DarkIce.cpp:250-251 | an absent bitrate reads as 0; the bitrate is an unsigned int |
| Settings.ReadMode | src/DarkIce.cpp:255-286 | an accepted mode has what it needs: abr and cbr a nonzero bitrate, vbr (and, for IceCast and ShoutCast, cbr) a quality key |
| Settings.ModeAcceptedIff | src/DarkIce.cpp:255-286 | the bitrate mode is accepted exactly when it is cbr, abr or vbr and its required settings are present |
| Settings.ParseFormat | src/DarkIce.cpp:445-457 | a format name that is not vorbis, mp3, mp2 or aac is refused with that name |
| Settings.FormatNames | src/DarkIce.cpp:445-457 | format parsing and format names are inverse to each other |
| Settings.CheckIceCast | src/DarkIce.cpp:255-361 | an IceCast section is accepted exactly when its mode passes the rule where cbr needs a quality key, server, port, password and mountPoint are present, and the format is mp3 or mp2; the output has that mode and format |
| Settings.CheckIceCast2 | src/DarkIce.cpp:445-505 | an IceCast2 section is accepted exactly when its format is one of the four, its mode passes the rule where cbr needs only a bitrate, and server, port, password and mountPoint are present; the output has that format and mode |
| Settings.CheckShoutCast | src/DarkIce.cpp:720-756 | a ShoutCast section is accepted exactly when its mode passes the rule where cbr needs a quality key and server, port and password are present; the output is mp3 in that mode |
| Settings.CheckFileCast | src/DarkIce.cpp:871-931 | a file section is accepted exactly when its format is one of the four, bitrate and fileName are present, its mode passes the rule where cbr needs only a bitrate, and aac comes only with abr; the output has that format and mode |
| Settings.Check | src/DarkIce.cpp:183-186 | an accepted section is an output of the type of its pass |
| Settings.SectionName | src/DarkIce.cpp:208 | the k-th section name of a pass is the type's prefix plus one character |
| Settings.SectionNames | src/DarkIce.cpp:204-208 | names 0-9 end in the decimal digit; names 0-255 are all distinct; name k+256 repeats name k, because the character is 8 bits |
| Settings.ReadGeneral | src/DarkIce.cpp:143-160 | an accepted [general] has a bufferSecs that is nonzero and fits in an unsigned int |
| Settings.ReadInput | src/DarkIce.cpp:163-174 | [input] is accepted exactly when sampleRate, bitsPerSample, channel and device are all present; the device is taken as written and the numbers fit in an unsigned int |
| Settings.GeneralDecisions | src/DarkIce.cpp:143-160 | [general] is accepted exactly when duration and bufferSecs are present and bufferSecs is nonzero; reconnect and realtime are on when absent, otherwise exactly when "yes" |
| Settings.BufferSecsWraps | src/DarkIce.cpp:149-154 | bufferSecs = 2^32 wraps to 0 in an unsigned int and is refused like 0 |
| Settings.CheckOrder | src/DarkIce.cpp:255-361 | the first complaint in code order wins: for any mode other than cbr, abr and vbr, IceCast and ShoutCast report that mode whatever else is missing; for any unknown format name, IceCast2 and file outputs report that format whatever else is missing |
| Settings.CbrQualityPerKind | src/DarkIce.cpp:255-286 | a complete cbr section with a bitrate and no quality key is refused for IceCast and ShoutCast and accepted for IceCast2 and file outputs |
| Settings.FormatAcceptance | src/DarkIce.cpp:355-361 | IceCast takes exactly mp3 and mp2; IceCast2 takes all four formats (lines 445-457); file output takes all four, aac only in abr mode (lines 871-931) |
| Darkice.Scan | src/DarkIce.cpp:204-392 | a successful pass from loop index u yields at most maxOutput - u outputs, none at or past maxOutput |
| Darkice.ScanFinds | src/DarkIce.cpp:204-212 | a successful pass took, in order, the sections named for indices 0.. of the pass, each present and accepted, and stopped at the first absent name or at maxOutput |
| Darkice.Place | src/DarkIce.cpp:388 | placing outputs keeps the table size |
| Darkice.PlaceFills | src/DarkIce.cpp:204-388 | placing fills exactly the slots start..start+n-1, with the outputs in order, and leaves the others |
| Darkice.Passes | src/DarkIce.cpp:182-186 | the passes in order, each from the count the one before left, keep the table at maxOutput slots |
| Darkice.PlanAsWritten | src/DarkIce.cpp:182-186 | the table of the four passes with the count as written at line 392 keeps maxOutput slots |
| Darkice.Plan | src/DarkIce.cpp:182-186 | the table of the four passes with the corrected count keeps maxOutput slots |
| Darkice.PassesPacked | src/DarkIce.cpp:182-186 | with the corrected count, each pass keeps the table packed (outputs in slots 0..noAudioOuts-1, the rest empty) and never lowers the count |
| Darkice.PlanPacked | src/DarkIce.cpp:182-186 | the corrected table built by init is packed |
| Darkice.ShoutCastNeverLookedUp | src/DarkIce.cpp:392 | as written, with [icecast-0], [shoutcast-0] and two slots, the count jumps to 8 and [shoutcast-0] is never looked up |
| Darkice.ShoutCastFound | src/DarkIce.cpp:392 | with the corrected count, the same configuration fills both slots, IceCast then ShoutCast, with a count of 2 |
| Darkice.EncodersSplit | src/DarkIce.cpp:388 | the encoders attached by successive passes concatenate into those of slots 0..n-1 |
| Darkice.EncodersInOrder | src/DarkIce.cpp:388 | the encoder list holds slot j's encoder at position j |
| Darkice.Encoding | src/DarkIce.cpp:1136-1157 | a failed open leaves the source closed; a completed run reports a count that fits in an unsigned int and leaves the source closed |
| Darkice.ByteBudget | src/DarkIce.cpp:1144-1147 | the budget is an unsigned long: below 2^64 |
| Darkice.BudgetIsDuration | src/DarkIce.cpp:1144-1147 | duration 0 gives budget 0 (no limit); without overflow the budget is duration seconds of audio |
| Darkice.EncodeOpens | src/DarkIce.cpp:1141-1142 | encode fails with "can't open connector" exactly when open fails; a transfer exception skips close, so the source stays open |
| Darkice.EncodeCloses | src/DarkIce.cpp:1154 | a completed run leaves the source and every sink still attached closed, and only sinks it started with are attached |
| Darkice.EncodeReports | src/DarkIce.cpp:1150 | with a budget, the reported count is below budget + 4096 |
| Darkice.DarkIce.constructor | src/DarkIce.cpp:182 | a new object has an empty output table of maxOutput slots and a count of 0 |
| Darkice.DarkIce.Init | src/DarkIce.cpp:132-187 | init fails with the first error of reading [general], [input] and the outputs, or stores the settings, the output table and a new encoder connector whose sinks are the encoders of slots 0..noAudioOuts-1 |
| Darkice.DarkIce.Outputs | src/DarkIce.cpp:180-186 | the new connector and the four passes produce the corrected table and count, with one encoder attached per output in slot order |
| Darkice.DarkIce.ConfigOutputs | src/DarkIce.cpp:183-186 | the four passes, in order IceCast, IceCast2, ShoutCast, file, give the table and count of the corrected plan |
| Darkice.DarkIce.Pass | src/DarkIce.cpp:183-186 | one pass is the first step of the remaining passes: it fails as they fail, or leaves the table, the count and the encoder list they continue from |
| Darkice.DarkIce.ConfigPass | src/DarkIce.cpp:194-393 | the pass loop fails as Scan fails, or fills the slots from the old count on with the outputs found, attaches their encoders in order and sets the count to the end index |
| Darkice.DarkIce.Collect | src/DarkIce.cpp:204-392 | the section loop of one pass fails as Scan fails or yields the outputs Scan finds; it writes them into the slots from the start index and appends their encoders in order |
| Darkice.DarkIce.Take | src/DarkIce.cpp:388 | an accepted output goes into the next slot and its encoder is appended to the connector |
| Darkice.DarkIce.Encode | src/DarkIce.cpp:1136-1157 | encode opens, transfers the budget in chunks of 4096 and closes, with the outcome and state of Encoding |

## Left out

- Timeouts: the `sec`/`usec` arguments of `transfer`, `canRead` and `canWrite` are not modelled. Whether a call times out is part of the source's script and the sinks' replies.
- The threaded connector (`MultiThreadedConnector`), its queues and the reconnect policy are not part of this model. The encoder connector is modelled as a plain `Connector`.
- Logging (`reportEvent`) is left out; it has no effect on state.
- Reference counting and object lifetime (`Ref<>`, `delete[]`) are not modelled. Sinks are identities, and releasing a list is assigning the empty sequence. `strip` releasing the source pointer is not modelled.
- Build configuration: the model assumes every encoder library is present. The "not compiled with ... support" exceptions guarded by `HAVE_*_LIB` are not modelled.
- Constructing the encoders and the IceCast, IceCast2, ShoutCast and file sinks is out of scope. So are their settings (server, port, password and mount point as values, lowpass/highpass, name, genre, dump files, `fileAddDate`) and a file output failing to create its file. The model records which keys must be present and how they are checked, not the objects built from them.
- Real-time scheduling (`setRealTimeScheduling`, `setOriginalScheduling`), `run` with its child process, and `cut` are not part of this model.
- The audio source (`OssDspSource`, `FileSource`) and the Vorbis encoder are not part of this model. The source is the identity `Dsp`, and what it delivers is a script.
- `maxOutput` is a constant of `DarkIce.h`, which is not part of this model. It is a parameter here.
- String-to-number conversion (`Util::strToL`) is a parameter `num`. Only its wrap-around into `unsigned int` is modelled.
- Darkice.DarkIce.Init: the state left behind when `init` throws part-way is not stated; only the error is. `bufferSecs` is checked and then only passed to the encoders, which are not modelled.
- Connectors.Connector.Transfer: the source's answers are a finite script whose end reads as end of input, so a transfer with no budget from a source that never stops (which never returns in the code) cannot be expressed. The count is unbounded. `transfer` returns `unsigned int` from an `unsigned long` count, and that truncation is modelled only where `encode` reports the count (Darkice.Encoding keeps it modulo 2^32). The wrap of the `unsigned long` counter itself is not modelled.
- Darkice.Scan: the wrap of the section-name character past index 255 is modelled, but `maxOutput` is not bounded to 256. At index 208 the character is NUL. In C the name then ends at the prefix (`icecast-`), while the model looks up the prefix followed by a NUL character.
- Session.Open: `open()` and `close()` never throw in the model. In the code, an exception from a sink's `open()` propagates out of `Connector::open` (`src/Connector.cpp:223-229`, with no try) and leaves the source and the sinks of slots 0..u-1 open, with no rollback. The same holds for an exception from the source's `open()`.

## Findings

| source | as written | input that shows it | evidently intended | confidence | as-written member | corrected member |
|---|---|---|---|---|---|---|
| src/DarkIce.cpp:392 (also 651, 831, 1036) | each pass ends with `noAudioOuts += u`, where `u` already counts from `noAudioOuts`, so the count is added to itself | `[icecast-0]` and `[shoutcast-0]` with two output slots: after the IceCast pass the count is 0+1 = 1; after IceCast2, whose `[icecast2-0]` is absent, it is 1+1 = 2; ShoutCast starts at 2 >= 2, never looks up its section and leaves 2+2 = 4; the file pass makes 4+4 = 8 | `noAudioOuts = u`, the index after the last output found | not executed | Darkice.PlanAsWritten, Darkice.ShoutCastNeverLookedUp | Darkice.Plan, Darkice.PlanPacked, Darkice.ShoutCastFound, Darkice.DarkIce.ConfigPass |
| src/Connector.cpp:162-169 | with exactly one sink attached, `detach` removes that sink and answers true without comparing it to the argument | sinks `[1]`, `detach(2)` answers true and leaves no sinks | compare the single sink like the general case, and answer false when it does not match | not executed | SinkList.DetachedAsWritten, SinkList.SoleSinkDetachedByAnyone | SinkList.Detached, SinkList.AttachThenDetach, Connectors.Connector.Detach |
