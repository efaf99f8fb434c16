# Atuin: models and proofs of its stateful cores

Atuin records shell history, syncs it, shares live terminals and carries an AI assistant. It has no single kernel; it has
a number of small stateful components, each with a promise that spans many steps. This project models them in Dafny and
proves those promises for all inputs, all runs and all interleavings. `dafny verify dfyconfig.toml` checks everything.

| file | component |
|---|---|
| `TapRace.dfy` | `stop` against `resync` over a shared stream and a flag, as interleaved atomic steps |
| `TapProtocol.dfy`, `TapReader.dfy`, `TapWriter.dfy` | the framed feed of the proxy, its decoding into events across reconnects, and input frames |
| `Terminal.dfy` | control sequences, written and read |
| `ShareLifecycle.dfy` | any number of share processes around a pidfile lock and a URL file, each of which may die at any step |
| `EditPreview.dfy` | hunk grouping and line numbers of the edit preview |
| `RecordDownload.dfy` | parallel predicted pages with a serial finish |
| `MessagePack.dfy`, `HistoryFormat.dfy` | the three versions of the history record |
| `Backpressure.dfy` | the outbound queue and the reconnect backoff |
| `Conversation.dfy`, `SessionLog.dfy` | stored conversation events and their incremental persistence |
| `KvStore.dfy`, `Snapshots.dfy` | a cache over a record log, first-write-wins snapshots |
| `SearchDedup.dfy`, `AuthorFilter.dfy` | search deduplication and the author filter in SQL against their simple forms |
| `ContextWindow.dfy` | messages of a conversation and their budgeted window |
| `SortedFilter.dfy`, `Sorting.dfy` | in-place deduplication, filters as sorted sets, sorting |
| `QueryScan.dfy`, `PipeSplit.dfy` | two scanners |
| `Basics.dfy` | shared vocabulary |

Code that updates state is modelled by methods and classes; each is tied to a specification function, and the theorems
are about that function. Clocks, random identifiers and failures of calls are parameters; other processes are
nondeterministic steps.

## Where the code falls short of its promise

Each of these comes with the condition under which the promise holds, exact wherever an "exactly when" says so.

- `atuin lab --stop` unlinks the pidfile without holding its lock, after a probe found it free. Mutual exclusion holds
  in every run that does so only while nobody has the file open; from every other state in which a `--stop` has come to
  its unlink it can be lost (`UnlinkingAnOpenPidfileBreaksTheLock`), and such states are reached (`StopBreaksTheLock`).
- The serial finish of a download advances by a plain 64-bit addition. In the release build it wraps, and so does the
  width computed from it: outside `SafePlan` an honest server can make a download yield records beyond the end of its
  range (`StaysWithinRangeIff`), though none is missing. A build that checks arithmetic panics (`NeverPanicsIff`).
- A `stop` does not end a handshake in progress: its loop skips frames without looking at the stop flag, and its
  timeout is per read. The reader ends after a bounded number of steps, plus one for every frame the peer still feeds to
  that handshake (`StopBoundsTheReader`), and no bound holds without them (`FeedingPeerHoldsTheReader`).
- The parent that waits for its share reads the URL file twice, so it can print another share's URL
  (`ParentCanAcceptAnothers`); it does not exactly when the file still carries its spawn id at the second read
  (`AcceptedIsTheChildsIff`).
- A `--stop` can signal a dead share's pid while a new share holds the lock (`StopCanSignalTheDead`); not once the
  holder has recorded its own (`StopSignalsTheHolder`).
- The KV rebuild tells pairs apart by `namespace.key`. It equals the replay from every cache exactly when recorded
  namespaces and keys hold no dot (`RebuildIsReplayIff`).
- SQL's `trim` strips spaces, the program's all white space. The author filter agrees with the loaded author except on
  authors of other white space (`AuthorsAgreeIff`); the agent classification agrees everywhere.
- Results of a search are ordered by timestamp only, so rows that tie may come in any order (`AnswerIsUniqueIff`).
- A snapshot of `/manifest.json` is overwritten by the manifest (`FirstSnapshotWins`).
- Events are loaded by time, so a clock that goes back reorders a resumed conversation (`AppendOrderIffClockMonotone`).
- An origin whose host holds a colon, and times outside 64 bits, do not survive the history format (`RoundTrip`).
- The pipe scanner does not close a quotation that is empty and stands at the start of the command, so it misjudges
  every unescaped pipe behind it (`SeesTruePipesIff`). It has one state for both kinds of quote; how that differs from
  a shell's quoting is exact too (`SeesShellPipesIff`).
- The documentation of the query scanner allows probes split across chunks to be missed; a cut inside a sequence can
  also swallow a complete query behind it (`SplitIff`).

## Model

| member | source | states |
|---|---|---|
| `TapRace.StopDetaches` | crates/atuin-lab-share/src/proxy_tap.rs:264-267 | In every interleaving of `stop`, `resync`, reads and the peer: once `stop` has completed and no resync is in progress, the reader has finished or its stream is shut down, so no fresh subscription outlives the detach |
| `TapRace.StopBoundsTheReader` | crates/atuin-lab-share/src/proxy_tap.rs:340-361 | After a `stop` has completed the reader takes at most as many further steps as it has buffered frames plus six, and one more for every frame the peer still feeds to a handshake in progress |
| `TapRace.StoppedReaderCanMove` | crates/atuin-lab-share/src/proxy_tap.rs:411-442 | After a `stop` has completed, a reader that is not gone always has a step to take, so once the feeding ends it comes to its end |
| `TapRace.FeedingPeerHoldsTheReader` | crates/atuin-lab-share/src/proxy_tap.rs:340-361 | For every n there is a run with a completed `stop` followed by n reader steps, the reader still in its resync: a peer that keeps sending frames the handshake skips holds it there |
| `TapRace.SwapAfterStopIsUndone` | crates/atuin-lab-share/src/proxy_tap.rs:66-77 | A stream swapped in after `stop` shut the shared one down is itself shut down by the re-check |
| `TapRace.RunKeepsInv` | crates/atuin-lab-share/src/proxy_tap.rs:411-442 | Every reachable state of every run keeps the agreement between the shared stream, the reader's stream and the flag |
| `TapProtocol.ReadEncodedFrame` | crates/atuin-pty-proxy/src/protocol.rs:121-154 | A frame encoded in front of any bytes is read back, and exactly those bytes remain |
| `TapProtocol.CutFrameBreaksOff` | crates/atuin-pty-proxy/src/protocol.rs:139-154 | No proper prefix of a frame, cut at any byte, is read as a frame |
| `TapProtocol.ResizeRoundTrip` | crates/atuin-pty-proxy/src/protocol.rs:239-258 | A resize payload decodes to its own rows and columns |
| `TapProtocol.SnapshotRoundTrip` | crates/atuin-pty-proxy/src/protocol.rs:319-371 | An encodable screen snapshot decodes to itself |
| `TapProtocol.FrameBytesAre` | crates/atuin-pty-proxy/src/protocol.rs:121-137 | A frame is its kind, four bytes of length, most significant first, and its payload |
| `TapProtocol.PayloadBytesAre` | crates/atuin-pty-proxy/src/protocol.rs:239-246 | In the payloads rows come before columns and the cursor's row before its column, each in two bytes |
| `TapProtocol.RowsArePlaced` | crates/atuin-pty-proxy/src/protocol.rs:374-390 | Every row of a repaint stands behind a movement that a terminal reads as going to the start of its line |
| `TapProtocol.RepaintRestoresCursor` | crates/atuin-pty-proxy/src/protocol.rs:374-390 | A repaint is home and clear, the rows from the first on, a style reset and a movement that reads as the snapshot's own row and column counted from one |
| `Terminal.SequenceReadsBack` | crates/atuin-lab-share/src/query.rs:42-47 | A control sequence with two numbers reads back as those numbers, in their order, with its final byte |
| `TapReader.AttachSize` | crates/atuin-lab-share/src/proxy_tap.rs:177-207 | A terminal below the floor is refused at attach; an accepted one keeps its size |
| `TapReader.FeedIsSafe` | crates/atuin-lab-share/src/proxy_tap.rs:209-219 | Every size of every feed, over any connections, is at least the floor, and no output event is empty |
| `TapReader.FeedFlattens` | crates/atuin-lab-share/src/proxy_tap.rs:411-492 | For every first connection and every list of later ones, each a list of frames behind its handshake and fewer failed attempts than allowed, breaking off at any byte, the events are the frame-by-frame flattening: each connection's repaint first, then its whole frames up to its end |
| `TapReader.FramesFlatten` | crates/atuin-lab-share/src/proxy_tap.rs:453-492 | One connection's bytes, whole frames and then any break, give the events of the frames up to End, then what a lost feed gives |
| `TapReader.LinkGreets` | crates/atuin-lab-share/src/proxy_tap.rs:313-362 | A proxy that grants what was asked and sends a keyframe, with other frames before it, completes the handshake with that keyframe |
| `TapReader.FailuresAreRetried` | crates/atuin-lab-share/src/proxy_tap.rs:411-442 | Fewer failed attempts than allowed, whether unconnected, refused by the handshake or uncloned, do not keep a resync from the connection behind them |
| `TapReader.OutputStaysInWireOrder` | crates/atuin-lab-share/src/proxy_tap.rs:453-492 | The output bytes of the events are the output and repaint bytes of the frames, in wire order, none lost or repeated |
| `TapReader.SayingArrives` | crates/atuin-lab-share/src/proxy_tap.rs:453-492 | What the proxy means, a text, a geometry or a screen, arrives as that text, as its columns and rows floored at one and two, or as the floored size of the screen and its repaint |
| `TapReader.SayingsArrive` | crates/atuin-lab-share/src/proxy_tap.rs:453-492 | A connection that says any list of these, in frames written byte by byte, gives exactly their arrivals in order, and then what a lost feed gives |
| `TapReader.OtherFramesAreSilent` | crates/atuin-lab-share/src/proxy_tap.rs:453-492 | No other kind of frame gives an event, and what stands behind an End frame is not read |
| `TapReader.RestoredIff` | crates/atuin-lab-share/src/proxy_tap.rs:411-442 | A lost feed is restored exactly when one of the attempts allowed connects, is greeted and clones while no stop is seen at its check or re-check, and every attempt before it failed without seeing a stop |
| `TapReader.DeniedInputFails` | crates/atuin-lab-share/src/proxy_tap.rs:313-339 | A hello that does not grant the input that was asked for never leads to a subscription |
| `TapReader.Reader.DoResync` | crates/atuin-lab-share/src/proxy_tap.rs:411-442 | The retry loop, over what each attempt meets (the stop flag, the peer's bytes, the flag again), shakes hands on those bytes and ends lost or with the fresh keyframe pending and its size returned |
| `TapReader.Reader.ReadEvent` | crates/atuin-lab-share/src/proxy_tap.rs:453-492 | Returns the head of the remaining events, pending bytes first; signals the end exactly when nothing remains |
| `TapReader.Reader.ReadAll` | crates/atuin-lab-share/src/proxy_tap.rs:446-492 | Reading until the end returns exactly the events of the feed |
| `TapWriter.Write` | crates/atuin-lab-share/src/proxy_tap.rs:506-519 | Always reports the whole buffer; on the wire are its frames, or as many of their bytes as the connection takes before it breaks; what the proxy can take from them is a prefix of the buffer, and all of it exactly when the connection takes them all |
| `TapWriter.CutFrame` | crates/atuin-pty-proxy/src/protocol.rs:139-154 | A frame cut short at any byte delivers no input |
| `ShareLifecycle.AtMostOneHolder` | crates/atuin-lab-share/src/lifecycle.rs:125-181 | In every run of any number of shares and probes, with a death possible at every step and the pidfile unlinked only while nobody has it open, at most one process holds the lock |
| `ShareLifecycle.PidfileNamesTheHolder` | crates/atuin-lab-share/src/lifecycle.rs:125-148 | From its pid write until release the first line of the pidfile is the holder's pid |
| `ShareLifecycle.HolderIsRecorded` | crates/atuin-lab-share/src/lifecycle.rs:125-148 | Even when the pidfile is unlinked at will, a holder that wrote its pid finds it in the file it has open |
| `ShareLifecycle.GivesUpAfterSixTries` | crates/atuin-lab-share/src/lifecycle.rs:125-134 | In every run a share that asks for the lock gives up exactly at its sixth try to find it held, and holds it as soon as a try finds it free |
| `ShareLifecycle.UrlFileIsTheHolders` | crates/atuin-lab-share/src/lib.rs:429-465 | After the holder's stale clean-up any URL file present is a complete one it wrote itself, and reads back as its URL |
| `ShareLifecycle.EndedShareLeavesNoUrl` | crates/atuin-lab-share/src/lib.rs:460-465 | A share that held the lock and ends by itself leaves no URL file |
| `ShareLifecycle.FileReadsBack` | crates/atuin-lab-share/src/lifecycle.rs:226-273 | A URL file reads back as its URL and its owner |
| `ShareLifecycle.PidReadsBack` | crates/atuin-lab-share/src/lifecycle.rs:186-193 | The pid a guard writes is the pid a reader parses |
| `ShareLifecycle.CarriesIdIff` | crates/atuin-lab-share/src/lifecycle.rs:226-273 | In every such run a URL file carries a spawn id exactly when a process given that id published it |
| `ShareLifecycle.AcceptedIsTheChildsIff` | crates/atuin/src/command/client/lab.rs:253-265 | The parent's check reads the file twice; the URL it accepts is of its own child exactly when the file still carries the id at the second read |
| `ShareLifecycle.AcceptedWhenQuiet` | crates/atuin/src/command/client/lab.rs:253-265 | It is whenever nobody else completed a write between the two reads |
| `ShareLifecycle.ParentCanAcceptAnothers` | crates/atuin/src/command/client/lab.rs:253-265 | From every initial state and for all ids and URLs there is a run in which a parent accepts the URL of another share, its child having died between the reads |
| `ShareLifecycle.StopSignalsTheHolder` | crates/atuin/src/command/client/lab.rs:297-314 | A `--stop` that reads the pidfile while a share that has recorded its pid holds the lock signals that share |
| `ShareLifecycle.StopCanSignalTheDead` | crates/atuin/src/command/client/lab.rs:297-314 | From every initial state with a stale pid there is a run in which it signals that pid while a share that has not recorded its own yet holds the lock |
| `ShareLifecycle.UnlinkingAnOpenPidfileBreaksTheLock` | crates/atuin/src/command/client/lab.rs:284-295 | The condition is exact: from every reachable state in which a `--stop`, its own probe having found the lock free, stands before its unlink while somebody has the pidfile open, the unlink leads to a run with two holders |
| `ShareLifecycle.StopBreaksTheLock` | crates/atuin/src/command/client/lab.rs:284-295 | From every initial state the code has such a run: `--stop` probes the lock free, a share locks the file, `--stop` unlinks it, a second share locks a new one |
| `EditPreview.Merge` | crates/atuin-ai/src/diff.rs:49-74 | Grouping keeps all raw hunks in order; neighbours are together exactly when their contexts meet |
| `EditPreview.GroupIsAnchored` | crates/atuin-ai/src/diff.rs:132-148 | The start of a group in the new file is computed without underflow |
| `EditPreview.GroupShows` | crates/atuin-ai/src/diff.rs:132-175 | Dropping added lines leaves the old file's slice at `before_start`, dropping removed lines the new file's at `after_start` |
| `EditPreview.PreviewIsPatch` | crates/atuin-ai/src/diff.rs:49-74 | The hunks are ordered and disjoint, and splicing them all into the old file yields the new one |
| `EditPreview.BuildHunk` | crates/atuin-ai/src/diff.rs:132-175 | The line-pushing loops build exactly the specified hunk |
| `EditPreview.Compute` | crates/atuin-ai/src/diff.rs:44-76 | For every pair of files and every valid edit script the preview is a correct patch |
| `EditPreview.ShownLine` | crates/atuin-ai/src/diff.rs:177-191 | A line is shown without its ending, whether that is a newline, a carriage return, both or nothing |
| `EditPreview.TokenIsTextAndEnding` | crates/atuin-ai/src/diff.rs:177-191 | Every token is the text shown of it followed by one of the four endings |
| `EditPreview.ShownAlike` | crates/atuin-ai/src/diff.rs:177-191 | So files that are shown alike agree line by line up to their endings |
| `EditPreview.ChangeIsShown` | crates/atuin-ai/src/diff.rs:146-163 | A change shows the unchanged lines before it, then what it removes, then what it adds |
| `EditPreview.ContextIsThreeLines` | crates/atuin-ai/src/diff.rs:54-63 | Three lines of context on either side as far as the file goes, and one group wherever at most six lines lie between two changes |
| `EditPreview.MaxLineNumber` | crates/atuin-ai/src/diff.rs:78-98 | The width computed is the largest line number shown on either side |
| `RecordDownload.Stream` | crates/atuin-client/src/api_client.rs:310-375 | The loop over predicted pages with its serial finish yields exactly the specified outcome, and ends |
| `RecordDownload.FinishSerially` | crates/atuin-client/src/api_client.rs:345-375 | The recovery loop terminates and yields the serial outcome |
| `RecordDownload.DownloadIsContiguous` | crates/atuin-client/src/api_client.rs:310-375 | For every truthful server, clamping and failing as it likes, every plan, with checked or wrapping arithmetic, and however the download ends, the pages concatenate to consecutive records from the start of the range, without gaps or repeats; never beyond its end if the plan is safe or the arithmetic checked |
| `RecordDownload.DownloadIsComplete` | crates/atuin-client/src/api_client.rs:310-375 | A finished download has all the requested records the server has, first and in order, and nothing more if the plan is safe; without faults it finishes, unless it panics |
| `RecordDownload.SerialCount` | crates/atuin-client/src/api_client.rs:352-375 | The width of a serial request where addition and subtraction wrap: the rest of the range or a chunk, but a whole chunk wherever the addition wraps round |
| `RecordDownload.StaysWithinRangeIff` | crates/atuin-client/src/api_client.rs:352-375 | With wrapping arithmetic every truthful server's download stays within the range exactly when the plan is safe or its end is the last 64-bit index; for every other plan an honest server makes it yield a record beyond the end |
| `RecordDownload.NeverPanicsIff` | crates/atuin-client/src/api_client.rs:352-375 | With checked arithmetic no truthful server's download panics exactly when the plan is safe |
| `MessagePack.IntWritten` | crates/atuin-common/src/rmp/encode.rs:1-10 | Every 64-bit integer in its shortest form is read back by the any-width reader |
| `MessagePack.StrWritten` | crates/atuin-common/src/rmp/decode.rs:74-92 | A string in its shortest form is read back, whatever follows |
| `MessagePack.OptStrWritten` | crates/atuin-common/src/rmp/decode.rs:113-137 | An optional string is read back, nil as absent |
| `MessagePack.KnownIntegers` | crates/atuin-common/src/rmp/encode.rs:1-10 | One integer of each non-negative form, byte for byte as the MessagePack specification writes it |
| `MessagePack.KnownNegatives` | crates/atuin-common/src/rmp/encode.rs:1-10 | The same for the negative forms |
| `MessagePack.KnownLengths` | crates/atuin-common/src/rmp/encode.rs:1-10 | The same for the lengths of strings and arrays |
| `CmdOrigins.ReparseRestores` | crates/atuin-domain/src/record/cmd_origin.rs:92-144 | Reading an origin's text back restores it exactly when the host holds no colon |
| `CmdOrigins.ParseIsStable` | crates/atuin-domain/src/record/cmd_origin.rs:125-144 | Lenient parsing of any text gives an origin that its own text reads back to |
| `HistoryFormat.Serialize` | crates/atuin-client/src/history.rs:334-369 | Appending field by field gives the specified thirteen-field version 2 record |
| `HistoryFormat.FieldsInOrder` | crates/atuin-client/src/history.rs:334-369 | The bytes are the number two in sixteen bits, the head of an array of thirteen, and then thirteen values in their order, absent ones as nil, and nothing else |
| `HistoryFormat.DecodeLayout` | crates/atuin-client/src/history.rs:371-444 | A record of any version, any field count and any trailing bytes decodes exactly when the name is its own version's, the count is allowed and nothing follows a record older than version 2; then to the stated fields |
| `HistoryFormat.FallbackAuthor` | crates/atuin-client/src/history.rs:437 | The user of an origin is the text behind its first colon, or `unknown-user` without one |
| `HistoryFormat.NineFieldsUnderV0` | crates/atuin-client/src/history.rs:371-444 | Nine fields under `v0` decode to those fields, the author being the user of the origin |
| `HistoryFormat.TenFieldsUnderV1` | crates/atuin-client/src/history.rs:396-410 | Ten fields under `v1` decode, the author being the given one or the user of the origin |
| `HistoryFormat.ElevenFieldsUnderV1` | crates/atuin-client/src/history.rs:396-410 | Eleven fields under `v1` decode, the last being the intent |
| `HistoryFormat.OtherCountsFail` | crates/atuin-client/src/history.rs:153-168 | Nothing decodes but nine fields under `v0`, ten or eleven under `v1` and twelve or more under `v2` |
| `HistoryFormat.KindBytes` | crates/atuin-client/src/history.rs:418-424 | A kind of one is a user, of two an agent, and any other byte says nothing |
| `HistoryFormat.RoundTrip` | crates/atuin-client/src/history.rs:334-444 | An entry decodes under `v2` only, and comes back itself exactly when its times fit 64 bits and its host has no colon |
| `HistoryFormat.ForwardCompatible` | crates/atuin-client/src/history.rs:171-181 | Version 2 records with further fields and any bytes for them decode to the same entry |
| `HistoryFormat.BackwardCompatible` | crates/atuin-client/src/history.rs:164-176 | A twelve-field version 2 record decodes with no author kind and all else kept |
| `HistoryFormat.OneVersionDecodes` | crates/atuin-client/src/history.rs:371-382 | No bytes decode under two version names |
| `HistoryFormat.UpgradeIsLossless` | crates/atuin-client/src/history.rs:334-444 | Whatever decodes under any version can be written again as version 2 and decodes to the same entry, provided its origin with the placeholder user is still below four gibibytes |
| `Backpressure.Apply` | crates/atuin-lab-share/src/backpressure.rs:57-99 | Every operation keeps the queue within its cap, empty while a keyframe is awaited, and awaiting whenever one is needed |
| `Backpressure.OutboundQueue.PushOutput` | crates/atuin-lab-share/src/backpressure.rs:57-70 | The new state is the specified step of the old one |
| `Backpressure.OutboundQueue.OnKeyframeSent` | crates/atuin-lab-share/src/backpressure.rs:86-89 | The new state is the specified step of the old one |
| `Backpressure.OutboundQueue.DrainOutput` | crates/atuin-lab-share/src/backpressure.rs:92-94 | Hands out what was queued, nothing while a keyframe is awaited |
| `Backpressure.OutboundQueue.ClearKeyframeFlag` | crates/atuin-lab-share/src/backpressure.rs:97-99 | The new state is the specified step of the old one |
| `Backpressure.TrackFollowsRun` | crates/atuin-lab-share/src/backpressure.rs:57-99 | Following frames by the position of their push tells exactly which frames a run queued and handed out |
| `Backpressure.HolesAreCovered` | crates/atuin-lab-share/src/backpressure.rs:47-70 | In every run, if a pushed frame is lost and a later one is handed out, a keyframe was sent between the two pushes; frames come out in push order, each at most once |
| `Backpressure.LosslessIffPaced` | crates/atuin-lab-share/src/backpressure.rs:57-99 | Nothing is lost exactly when no more than `cap` frames are pushed between two drains |
| `Backpressure.FlagsIff` | crates/atuin-lab-share/src/backpressure.rs:57-99 | In every run the queue waits exactly while an overflow has had no keyframe since, and asks for one exactly while it has had neither a keyframe nor a cleared flag |
| `Backpressure.AwaitingIff` | crates/atuin-lab-share/src/backpressure.rs:57-89 | The queue waits exactly while a lost frame has had no keyframe since |
| `Backpressure.QueuedIff` | crates/atuin-lab-share/src/backpressure.rs:57-94 | A frame that is not lost is queued exactly until the next drain |
| `Backpressure.LostIff` | crates/atuin-lab-share/src/backpressure.rs:57-94 | A frame is lost exactly when it was pushed after an overflow with no keyframe between, or belongs to a burst, unbroken by a drain, that overflows |
| `Backpressure.AfterKeyframe` | crates/atuin-lab-share/src/backpressure.rs:57-94 | After any run, once a keyframe went out a burst that fits is handed out whole behind what was queued; one that does not is dropped and a keyframe is asked for again |
| `ReconnectBackoff.DelayIsExact` | crates/atuin-lab-share/src/backpressure.rs:122-126 | The saturating power and counter never show in the capped delay |
| `ReconnectBackoff.Backoff.NextDelay` | crates/atuin-lab-share/src/backpressure.rs:122-126 | After n calls since the reset the delay is min(500 * 2^n, 10000) ms, for all n |
| `ReconnectBackoff.Backoff.Reset` | crates/atuin-lab-share/src/backpressure.rs:129-131 | Starts the count again |
| `EventSerde.RoundTrip` | crates/atuin-ai/src/event_serde.rs:14-151 | Every conversation event comes back from its stored form |
| `EventSerde.StoredForms` | crates/atuin-ai/src/event_serde.rs:86-100 | Texts and calls are read from the type and field names they are stored under |
| `EventSerde.StoredResult` | crates/atuin-ai/src/event_serde.rs:101-110 | For every stored object and every result: the object reads as the result exactly when it has its id, content and error flag, is `remote` exactly if the field says true, and has its length if any |
| `SessionLog.SessionStore.CreateSession` | crates/atuin-ai/src/store.rs:81-110 | Creates the row of a new session with its directory and root, exactly when the call does not fail and the id is new; otherwise no effect |
| `SessionLog.SessionStore.AppendEvent` | crates/atuin-ai/src/store.rs:156-194 | Inserts the row and moves the session's head together, exactly when the call does not fail, the session exists and the id is unused; otherwise no effect |
| `SessionLog.SessionStore.LoadEvents` | crates/atuin-ai/src/store.rs:196-208 | The session's rows ordered by time, then by insertion |
| `SessionLog.SessionStore.ArchiveSession` | crates/atuin-ai/src/store.rs:223-232 | Unless the call fails, marks one session archived; nothing else changes |
| `SessionLog.SessionManager.EnsurePersisted` | crates/atuin-ai/src/session.rs:235-247 | Succeeds exactly when the session has its row or one can be made; the row is made with an empty log, and nothing else changes |
| `SessionLog.SessionManager.PersistEvents` | crates/atuin-ai/src/session.rs:250-274 | Wherever the store fails, the log grows by exactly the events counted, chained to the head, so a retry with the same or a longer list repeats and skips nothing; no row and no event of another session changes. It succeeds exactly when no call it makes fails and every id drawn is unused |
| `SessionLog.PersistRun` | crates/atuin-ai/src/session.rs:250-274 | Over a whole run of calls on a growing list, each failing anywhere and retried by the next, the log is always a prefix of the list, as long as the count, and all of it exactly when the last call succeeds, which it does when nothing fails in it and the ids are fresh |
| `SessionLog.OthersStayCoherent` | crates/atuin-ai/src/session.rs:250-304 | What one manager does keeps every other manager's session coherent |
| `SessionLog.SessionManager.ArchiveAndReset` | crates/atuin-ai/src/session.rs:293-304 | Fails exactly when the store does; then tables and manager are as they were. Otherwise archives the old session, changing no other, and starts an empty one under the new id |
| `SessionLog.SessionManager.CreateNew` | crates/atuin-ai/src/session.rs:181-199 | A manager with an empty log and no row yet |
| `SessionLog.Resume` | crates/atuin-ai/src/session.rs:204-232 | Fails exactly when loading does or a row cannot be read; otherwise rebuilds the events, the count and the head of whatever manager wrote the session, when the clock never went back |
| `SessionTables.AppendOrderIffClockMonotone` | crates/atuin-ai/src/store.rs:196-208 | Loading returns all rows in time order, and in append order exactly when timestamps do not go backwards |
| `SessionLog.AppendKeepsCoherent` | crates/atuin-ai/src/store.rs:156-194 | An append on the head keeps the parent chain, the head and the count right and adds exactly its event |
| `SessionLog.AppendKeepsOthers` | crates/atuin-ai/src/store.rs:156-194 | An append to one session leaves every other coherent as it was |
| `KvStore.Store.Set` | crates/atuin-kv/src/store.rs:40-58 | Succeeds exactly when neither write fails; then the cache is the replay of the longer log if it was the replay before, and holds the value. No other pair changes |
| `KvStore.Store.Delete` | crates/atuin-kv/src/store.rs:65-78 | The same for a list of keys, of which none remains |
| `KvStore.Store.Build` | crates/atuin-kv/src/store.rs:109-174 | From any cache, the newest-first scan with its visited set leaves the replay of the log whenever the joined names tell the pairs involved apart |
| `KvStore.ReplayIsNewest` | crates/atuin-kv/src/store.rs:118-121 | Replaying the log keeps for each pair the value of its newest record |
| `KvStore.RebuildIsReplay` | crates/atuin-kv/src/store.rs:109-174 | Pair by pair, scan and replay agree when the joined name is injective on the pairs involved |
| `KvStore.RebuildIsReplayIff` | crates/atuin-kv/src/store.rs:141-143 | They agree from every cache exactly when no recorded namespace and no recorded key holds a dot |
| `KvStore.DottedNamesCollide` | crates/atuin-kv/src/store.rs:141-143 | `a.b`/`c` and `a`/`b.c` share a name, and a rebuild loses the first |
| `SearchDedup.OneSurvivorPerCommand` | crates/atuin-client/src/database.rs:780-798 | The NOT EXISTS query returns exactly one row per command: the latest, and of those the one with the greatest id |
| `SearchDedup.LessIff` | crates/atuin-client/src/database.rs:780-798 | An id is less than another exactly when it is a proper prefix of it or has the smaller character where they first differ |
| `SearchDedup.QueryIsScan` | crates/atuin-client/src/database.rs:780-798 | On any table with unique ids, in descending (timestamp, id) order and with any limit, it equals scanning the table in that order, keeping each command's first row and stopping at the limit |
| `SearchDedup.DescendDescends` | crates/atuin-client/src/database.rs:788-798 | Every table with unique ids has a descending permutation |
| `SearchDedup.AnswersShareTimes` | crates/atuin-client/src/database.rs:788-798 | On any such table, ordering by timestamp alone, every possible answer has the scan's timestamps, also within a limit |
| `SearchDedup.AnswerIsUniqueIff` | crates/atuin-client/src/database.rs:788-798 | That order determines the answer exactly when no two surviving rows share a timestamp |
| `AuthorFilter.ClassifiersAgree` | crates/atuin-client/src/database.rs:113-141 | On every row, null, blank, unknown or out-of-range, the SQL classification is never NULL and is `is_agent` of the loaded entry |
| `AuthorFilter.WhoIsAgent` | crates/atuin-client/src/history.rs:305-322 | A row is of an agent by its kind, or without one exactly when its author is one of the five known names and not the user of the shell |
| `AuthorFilter.UsersAndAgentsPartition` | crates/atuin-client/src/history.rs:305-322 | `$all-user` and `$all-agent` divide all rows between them |
| `AuthorFilter.DefaultsAgree` | crates/atuin-client/src/database.rs:113-127 | The fallback name in SQL is the one the program computes |
| `AuthorFilter.AuthorsAgreeIff` | crates/atuin-client/src/database.rs:270-301 | SQL compares names with the author as loaded, exactly on the rows whose author is not white space other than spaces |
| `AuthorFilter.OddlyBlankExample` | crates/atuin-client/src/database.rs:270-301 | A tab as author loads as the user's name but does not match it in SQL |
| `AuthorFilter.FilterAgrees` | crates/atuin-client/src/database.rs:142-153 | On all other rows the disjunction of any patterns admits exactly the entries the patterns admit |
| `Messages.EventsToMessages` | crates/atuin-ai/src/tui/state.rs:86-225 | The conversion loop gives the messages of the specified chunks, of which the next rows say what they are |
| `Messages.MessagesReadBack` | crates/atuin-ai/src/tui/state.rs:86-225 | Read by role and content alone, with no field unread, the messages say exactly what the events say, in order: user, system and skill text as the user, text and tool calls with id, name and input as the assistant, tool results with id, error flag and content or length; empty text and output out of band say nothing |
| `Messages.MessagesCount` | crates/atuin-ai/src/tui/state.rs:86-160 | A tool call right behind a tool call or a text joins its message; everything else that says something opens one of its own |
| `Messages.MessagesSplit` | crates/atuin-ai/src/tui/state.rs:86-225 | Converting piecewise gives the same messages when no piece begins with a tool call |
| `ContextWindow.GroupIntoTurns` | crates/atuin-ai/src/context_window.rs:123-144 | The loop computes the turns |
| `ContextWindow.TurnsPartition` | crates/atuin-ai/src/context_window.rs:119-144 | The turns are the only ranges that cover the events in order and start exactly at the boundaries |
| `ContextWindow.TurnsStartIff` | crates/atuin-ai/src/context_window.rs:109-144 | Behind the first event a turn starts exactly where a user message or a system context stands |
| `ContextWindow.Build` | crates/atuin-ai/src/context_window.rs:41-107 | The builder computes the specified window |
| `ContextWindow.BuiltIsWholeOrCut` | crates/atuin-ai/src/context_window.rs:41-107 | Within the budget all messages of the conversation; otherwise the messages up to the end of the first turn, the marker exactly if something is left out, and those from the start of the kept tail on, so events without a boundary between them stay together |
| `ContextWindow.WindowSays` | crates/atuin-ai/src/context_window.rs:41-107 | Read back, the window says what the events say, or what the first turn says, the notice exactly if something is left out, and what the kept tail says |
| `ContextWindow.KeepsTheLongestTail` | crates/atuin-ai/src/context_window.rs:72-88 | Of every conversation with more than one turn, the kept tail is the longest suffix of turns that fits beside first turn and marker, or the last turn if not even that fits |
| `ContextWindow.WithinBudgetIff` | crates/atuin-ai/src/context_window.rs:64-107 | The window of a conversation is within budget exactly when everything is, or first turn, marker and last turn together are |
| `ContextWindow.FirstTurnIsFrozen` | crates/atuin-ai/src/context_window.rs:22-24 | The first turn's messages lead every window and do not change when turns are appended |
| `Slices.PartitionDedup` | crates/atuin-common/src/slice.rs:4-23 | In place, the array is permuted and its front is the input without consecutive duplicates |
| `Slices.DedupSorted` | crates/atuin-common/src/slice.rs:4-23 | Of a sorted input that front is strictly increasing with the same elements |
| `Slices.EqWithBuffer` | crates/atuin-common/src/slice.rs:76-91 | Decides set equality with a list in any order and with repetitions, for every buffer size |
| `OrFilters.FromList` | crates/atuin-common/src/filter.rs:166-178 | No list gives the all filter, an empty list none, any other its elements, strictly increasing |
| `OrFilters.Contains` | crates/atuin-common/src/filter.rs:104-113 | Membership, or true for the all filter |
| `OrFilters.EqualIffSameItems` | crates/atuin-common/src/filter.rs:188-197 | Filters are equal exactly when their items are the same set |
| `OrFilters.Compare` | crates/atuin-common/src/filter.rs:136-151 | Equality with a list taken as a set, or with no list for the all filter |
| `PathNames.EncodeIsPerCharacter` | crates/atuin-ai/src/snapshots.rs:132-133 | The three successive replacements are one encoding per character |
| `PathNames.DecodeEncoded` | crates/atuin-ai/src/snapshots.rs:132-133 | That encoding has a decoder |
| `PathNames.NameOnDisk` | crates/atuin-ai/src/snapshots.rs:132-133 | A slash is written as `%2F`, a percent sign as `%25`, a backslash as `%5C` and every other character as it is |
| `PathNames.RootsAreStripped` | crates/atuin-ai/src/snapshots.rs:117-131 | A leading slash, or a drive letter with a colon and either slash, is not part of the name; anything else is |
| `PathNames.NamesAreFlatAndFaithful` | crates/atuin-ai/src/snapshots.rs:117-133 | Names hold no separator, and two paths share one exactly when they differ only in their root |
| `Snapshots.SnapshotStore.EnsureSnapshot` | crates/atuin-ai/src/snapshots.rs:71-94 | The new state is the specified one; a snapshot is made exactly for an unknown name that a file can have |
| `Snapshots.Open` | crates/atuin-ai/src/snapshots.rs:51-64 | Opening loads the manifest, or fails exactly when it does not parse |
| `Snapshots.RunKeepsFirst` | crates/atuin-ai/src/snapshots.rs:51-107 | Over every session of snapshots and re-openings, each file name but the manifest's keeps its first content |
| `Snapshots.FirstSnapshotWins` | crates/atuin-ai/src/snapshots.rs:71-107 | An absolute path keeps the content of its first snapshot exactly when it is neither `/manifest.json` nor the root directory |
| `QueryScan.ScanReplies` | crates/atuin-lab-share/src/query.rs:20-56 | The index-driven scan stays in bounds, terminates and equals the left-to-right parse into items |
| `QueryScan.SplitBetweenItems` | crates/atuin-lab-share/src/query.rs:20-56 | A chunk that ends between two items can be scanned apart from what follows |
| `QueryScan.SplitIff` | crates/atuin-lab-share/src/query.rs:14-18 | Only such a chunk can: every other one has a continuation whose answers are lost or made up by the cut |
| `QueryScan.ReportSaysRowAndColumn` | crates/atuin-lab-share/src/query.rs:42-47 | The report reads as the cursor's row and column, in this order, counted from one and no further than 16 bits |
| `QueryScan.AnsweredQueries` | crates/atuin-lab-share/src/query.rs:20-56 | `ESC [ 6 n` is answered by the report, `ESC [ c` and `ESC [ 0 c` by `ESC [ ? 6 c`, and no other sequence of digits and a final byte by anything |
| `PipeSplit.SplitAtPipe` | crates/atuin-history/src/stats.rs:74-105 | The pieces joined with `&#124;` are the command, and there is one more of them than pipes seen |
| `PipeSplit.PiecesPipeFreeIff` | crates/atuin-history/src/stats.rs:74-105 | For every command, no piece holds a pipe exactly when the scan sees every pipe |
| `PipeSplit.SeesTruePipesIff` | crates/atuin-history/src/stats.rs:82-87 | The scan sees exactly the pipes outside quotations and escapes, unless the command begins with an empty quotation and an unescaped pipe follows it |
| `PipeSplit.EmptyQuotesHideThePipe` | crates/atuin-history/src/stats.rs:82-87 | Such a command, whose one pipe is not seen |
| `PipeSplit.SeesShellPipesIff` | crates/atuin-history/src/stats.rs:74-105 | The scan cuts where a shell does exactly when, before every unescaped pipe, the quotes inside quotations of the other kind and the apostrophes that close behind a backslash are even in number, an empty quotation at the start counting as one |
| `PipeSplit.ApostropheHidesThePipe` | crates/atuin-history/src/stats.rs:74-105 | A command with one apostrophe in double quotes, whose pipe is not seen |

## Left out

- HTTP, gRPC, sockets, the daemon and its settings, encryption and the user interface: the environment. A server is any
  function of its requests, a connection any bytes, a record that cannot be decrypted an undecodable one.
- SQLite, query building, `LIKE`, `GLOB` and regular expressions: tables are sequences and maps of rows. The SQL of the
  author filter and of the deduplication is modelled as expressions over rows.
- The diff algorithm, terminal emulation and grapheme segmentation: the raw hunks are any valid edit script, a screen is
  a snapshot, and the pipe scanner's graphemes are single characters.
- Tap handshake: in the race it is a loop over frames of unknown content; the reader runs it on the bytes the peer
  delivers. A silent proxy, however long it stalls, is a failed attempt. Of the handshake errors only the outcome classes are kept.
  The token and the Subscribe frame are not modelled.
- Tap writer and reader share a connection; the writer is modelled on its own, as the bytes it puts on one wire.
- Shell syntax beyond quotes, backslashes and pipes: substitutions, comments and here-documents.
- Share lifecycle: what a signal does is a death or an orderly end at any time; the later removal of the URL file by
  `--stop` is a step that may happen at any time. Removing a file succeeds when the file exists; waiting and its deadlines are not modelled, and the
  sizes chosen by `clamp_host_size` and `host_size_from` would only add easy members.
- ShareLifecycle.AtMostOneHolder: holds for the runs in which the pidfile is unlinked only while nobody has it open,
  because the promise is false of the others.
- RecordDownload.DownloadIsComplete: that nothing more is yielded holds for the plans of `SafePlan`, because the promise
  is false of the others. A series has fewer than 2^64 records.
- History strings are below four gibibytes, the limit of the MessagePack string family; longer ones are not modelled.
- JSON text: stored events are JSON values, and printing and parsing them is not modelled; the size of a message in the
  context window is any function of it. Sums of sizes are unbounded.
- Session store: a statement or transaction takes effect as a whole or not at all. Metadata, the server session id, the
  usage cache and the search for a resumable session would only add easy members.
- KV records: their own encoding, and the order of records from several hosts; the log is in push order.
- Snapshots: names too long for the file system, and a crash or a failed write between a snapshot and its manifest entry is not modelled.
- Sorting in place: the library's `sort_unstable` is taken as a sorted form computed on values, written back element by
  element. Filters over `Vec` use the library's `dedup`, which is taken to agree with `partition_dedup`.
- Search with duplicates, ascending order, offsets and the fuzzy reordering of results: nothing beyond list operations.
