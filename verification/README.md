# A verified model of tendr's PTY recording, input authority and event log

This project models the stateful cores of tendr's session sidecar and clients, and proves what they promise.
Verify with `dafny verify dfyconfig.toml`.

- **Recording format** (`Recording`, `Decoder`, `SegmentLanguage`, `RecordingLanguage`, `DecodeFailures`). The
  binary segments a PTY recording is stored in. The encoder is a class that advances in place; the decoder is a pair
  of loops over the bytes. The decoder is shown to accept exactly what a chain of encoders writes, cut short or not
  at the end, and to name on every failure the position up to which the bytes are such a chain. The checksum is a
  parameter: every result holds for every checksum function.
- **Recorder** (`Recorder`, `RecorderInvariant`, `RecorderTheorems`, `RecorderProgress`, `RecorderRuns`,
  `RecorderThread`). Producers, the storage writer, stops and the close as a state machine. Each lock-held region
  and each storage call is one step, and every `publish`, partial `write`, `sync` and `truncate` may fail; a
  publication may even fail after its segment has landed. `RecorderThread` holds the classes that update the shared
  state and the writer in place, each method tied to a step of the machine.
- **Input authority** (`PtyControl`, `PtyInput`, `PtyDisconnect`, `PtyOrder`, `PtyPrefix`, `PtyAccounts`,
  `PtyAnswers`, `PtyNames`, `PtyRuns`, `PtyInputThread`). Two bounded queues and the one writer that serves claims,
  takeovers, resizes, disconnects, end markers and writes, with senders acting between any two of its steps.
  `PtyRuns` gives the runs that show which hypotheses the theorems need.
- **Push connections** (`AttachProto`, `PushConnection`). The framed attach protocol, and the exact report of an
  acknowledged push, tied to the bytes the input authority put on the PTY.
- **Viewers** (`Viewers`, `ViewersThread`, `PtyViewers`). Registration, grants, installs, retirements and cleanups
  of attach connections, and the byte-bounded queue each viewer's output goes through. A connection that leaves only
  queues its release; the input writer frees the PTY at any later step. Every method of `AttachSide` is one step of
  the machine, and every run of the input writer drives a run of it.
- **Detach escape** (`AttachEscape`, `EscapeTokens`, `EscapeEncodings`, `EscapeChunks`, `EscapeFates`). The
  tokenizer and hold-or-forward parser of the attach client.
- **Timestamps** (`Calendar`, `Decimals`, `Timestamp`). Day numbers, Gregorian dates and the 27-byte RFC 3339 form.
- **Event log** (`EventSegments`, `EventCursors`, `EventResume`, `EventTwoRuns`, `EventReader`). Incremental reads
  of growing segments, the merge, and exact-resume cursors.
- **Exec results** (`ExecMerge`, `ExecWait`). Collecting one framed command's result from interleaved stdout and
  stderr lines, under a deadline and a grace period for the end marker.
- **Dependency waits** (`Dependencies`). Scans that latch each dependency of a run at the run it is bound to.
- `Bytes` and `Wrappers` hold words, big-endian layout, options and results.

Where the code and its own words differ, the model follows the code and says exactly when the words hold:

- The escape parser's documentation says a read may end anywhere inside a key's sequence. A key code written with a
  leading zero is forwarded when cut and held when whole. `EscapeChunks.ReadsDoNotMatter` gives the exact condition;
  `EscapeEncodings.PaddedPressDiffers` is a concrete stream.
- The cursor documentation says resuming at a bookmark never duplicates. A bookmark, taken after every hundred
  printed records, log lines included, or between batches when idle or done, never skips a matching record
  (`EventResume.CursorNeverSkips`). A run and a run resumed from one of its bookmarks go through a segment's
  matching records once and in order, whatever the runs do, exactly when its matching lines are in merge-key order
  (`EventTwoRuns.SeamlessIffOrdered`). If they are not, and only then, there are two such runs that both print the
  same record (`EventTwoRuns.RepeatsIffDisordered`).
- The timestamp documentation says byte order is time order. For all timestamps before a bound that holds exactly if
  the bound is no later than the first second of year 10000 (`Timestamp.ByteOrderUpTo`), which is also as far as a
  displayed timestamp parses back (`Timestamp.ParseUndoesDisplay`).
- The input writer's documentation says a disconnect's cancelled writes cannot reach the PTY. That holds exactly if
  the disconnecting holder does not own the PTY again under a later grant (`PtyDisconnect.DisconnectIsQuiet`); a run
  of twelve events gets there by granting one holder control twice (`PtyRuns.ReusedHolderRun`). The sidecar gives
  each connection and claim a fresh holder, granted at most once, and so never does
  (`PtyRuns.FreshHoldersLeaveQuietly`); the theorems over runs that need it say so (`DistinctHolders`).
- A push outcome survives the wire exactly if its counts fit 64 bits in sum (`AttachProto.OutcomeRoundTrip`).

## Model

| member | source | states |
|---|---|---|
| Recording.SegmentEncoder.Encode | src/recording.rs:290-349 | refuses exactly the records out of sequence, order or size, leaving the encoder as it was; otherwise returns the record's bytes and advances sequence, time, geometry and count |
| Recording.SegmentEncoder.Rotate | src/recording.rs:365-388 | the next segment's encoder continues sequence, time and geometry under the next index; an empty segment or an exhausted sequence or index does not rotate |
| Recording.AdvanceAllEffect | src/recording.rs:290-349 | after any accepted records the encoder's count, next sequence and last time are those of the last of them |
| SegmentLanguage.HeaderDecodes | src/recording.rs:574-636 | a header decodes to `h` with length `len` if and only if `h` is one the encoder takes and the first `len` bytes are its encoding |
| SegmentLanguage.HeaderCut | src/recording.rs:577-593 | every proper prefix of an encoded header is `HeaderIncomplete`, never a truncated tail |
| SegmentLanguage.RecordReads | src/recording.rs:722-765 | a position yields a record if and only if an encoder in that state accepts it and its encoding stands there |
| SegmentLanguage.TailReads | src/recording.rs:723-742 | reading stops at a position if and only if what is left is nothing or a record cut short |
| SegmentLanguage.SegmentDecodes | src/recording.rs:701-775 | every success of the segment decoder is a written segment and the reverse, and its summary is the encoder's state |
| SegmentLanguage.DecodesExactlyWhatIsEncoded | src/recording.rs:497-503 | a segment decodes cleanly to a header and records if and only if it is their encoding by a fresh encoder that accepts each in turn |
| SegmentLanguage.CutSegment | src/recording.rs:719-742 | a segment cut at any byte keeps exactly the records wholly before the cut, clean at a boundary and otherwise truncated at the start of the cut record; a cut header is corrupt |
| Decoder.DecodeSegmentWithSummary | src/recording.rs:701-775 | the decoding loop returns the segment and summary of the recursive account of its records, or its first error with offset and last sequence |
| Decoder.DecodeRecording | src/recording.rs:782-855 | the loop over segments returns the recording or the first failure, an interior truncated or empty segment included |
| RecordingLanguage.ContinuityIsRotation | src/recording.rs:525-545 | the only header the decoder takes next is the one the encoder's rotation writes |
| RecordingLanguage.TapeDecodes | src/recording.rs:782-855 | what a chain of encoders wrote, cut short or not within its last record, decodes to exactly its records |
| RecordingLanguage.DecodedTape | src/recording.rs:782-855 | whatever decodes was written by a chain of encoders |
| RecordingLanguage.RecordingsAreEncoderChains | src/recording.rs:365-388 | fewer than 2^32 segments decode cleanly if and only if they are one encoder chain, none but the last empty |
| RecordingLanguage.DecodedRecordingsAreContinuous | src/recording.rs:782-855 | a decoded recording is numbered from one without gaps and ordered in time, and every header's geometry is the fold of all earlier resizes |
| DecodeFailures.FailureIsLocated | src/recording.rs:478-491 | every failure is at a position of a segment before which everything decodes, and names the last record that did |
| DecodeFailures.BeforeAFailure | src/recording.rs:478-491 | the recording cut where a failure is was written by one encoder chain, whose last record the failure names; where nothing is left it names none |
| RecorderInvariant.NextKeeps | src/recorder.rs:530-697 | every step of producers, writer, stops and close keeps the recorder's invariant, storage failures included |
| RecorderInvariant.SequencedAreAccepted | src/recorder.rs:626-642 | the record after those on the tape is accepted by the current encoder and by the next segment's |
| RecorderTheorems.StoreAlwaysDecodes | src/recorder.rs:530-697 | in every reachable state, mid-append included, the store decodes to all appended records and at most the one being appended |
| RecorderTheorems.FinishedRecordingIsExact | src/recorder.rs:530-578 | once the writer has exited and no cut failed, the store decodes cleanly to exactly the records appended, and a stop's last recorded sequence is the last of them |
| RecorderRuns.FailedCutKeepsOneMore | src/recorder.rs:677-684 | for every configuration with room for a record, a run whose last segment cannot be cut back and whose store decodes to one record more than its stop declared |
| RecorderTheorems.FinishedWithoutStop | src/recorder.rs:422-441 | a recording that ends without a stop stored, synced and decodes every record it sequenced |
| RecorderTheorems.StopIsFinal | src/recorder.rs:306-322 | after a stop its boundary, its single report and the sequenced records never change |
| RecorderTheorems.LimitsHold | src/recorder.rs:326-348 | in every state stored bytes with headers stay within the limit, backlog bytes are the backlog's cost within its limit, synced never passes appended, and at most one stop is reported |
| RecorderTheorems.EncoderNeverRefuses | src/recorder.rs:626-642 | no stop is ever caused by the encoder refusing a sequenced record |
| RecorderTheorems.BadHeaderRecordsNothing | src/recorder.rs:391-405 | a first header that does not start at sequence one stores nothing and stops the recording |
| RecorderProgress.WriterNeverStuck | src/recorder.rs:530-697 | in every reachable state the writer's position alone decides what it may do, whatever the storage answers, and it can do something if and only if it has not exited |
| RecorderProgress.WriterExits | src/recorder.rs:582-622 | once closed or stopped, the writer takes at most a number of steps fixed by the backlog limit before it has exited, and until then it can take one |
| RecorderThread.ChunksAreOfferable | src/recorder.rs:467-473 | output of any size is split into chunks that lose nothing and may each be recorded |
| RecorderThread.Shared.Stop | src/recorder.rs:306-322 | the first stop records the appended boundary, drops the backlog and is reported once; later stops change nothing |
| RecorderThread.Shared.Enqueue | src/recorder.rs:326-348 | a record is sequenced and queued, or the recording stops for want of sequences or backlog room, or nothing happens once stopped or closed |
| RecorderThread.Shared.Output | src/recorder.rs:467-473 | all chunks are enqueued in order under one lock, each with its own reading of the clock |
| RecorderThread.Shared.EndClose | src/recorder.rs:429-440 | a close that found the writer busy stops the recording as stalled, and reports the marks |
| RecorderThread.Writer.Start | src/recorder.rs:530-535 | the first segment is published within the size limit, or the recording stops |
| RecorderThread.Writer.NextRecord | src/recorder.rs:582-622 | one look under the lock: stop, take a record, end, or sync while idle |
| RecorderThread.Writer.PrepareRecord | src/recorder.rs:626-642 | a full segment leads to a rotation checked against the size limit before anything is written; otherwise the record is encoded into the open one |
| RecorderThread.Writer.PublishRotation | src/recorder.rs:653-662 | the new segment is open with its header counted, or the recording stops |
| RecorderThread.Writer.SettleAppend | src/recorder.rs:544-562 | a stop that came first puts the finished append beyond the boundary; otherwise it is appended |
| RecorderThread.Writer.CutBack | src/recorder.rs:677-684 | the open segment is cut to its length before the append, or left as it is if storage refuses |
| RecorderThread.Writer.Sync | src/recorder.rs:686-696 | a sync of unsynced bytes moves the synced mark to the last append, or stops the recording |
| PtyControl.EpochsAdvance | src/model/pty_control.rs:457-511 | ownership is gained only under the next epoch and lost without changing it |
| PtyControl.StaleForGood | src/model/pty_control.rs:528-542 | a key of an epoch already reached that does not authorize never authorizes again, whatever is claimed, taken over or released |
| PtyControl.OneKeyAuthorizes | src/model/pty_control.rs:528-542 | at most one key authorizes at a time |
| PtyControl.StepWriteEffect | src/model/pty_control.rs:546-583 | one attempt writes the request's next bytes, only for the key in control and only while undecided, and the outcome tells the exact count |
| PtyControl.InputArbiter.ClaimControl | src/model/pty_control.rs:462-479 | an unowned PTY is granted under the next epoch; an owned one names its owner and changes nothing |
| PtyControl.InputArbiter.TakeControl | src/model/pty_control.rs:486-498 | a human gets control whoever had it, and the superseded holder is returned |
| PtyControl.InputArbiter.GiveUp | src/model/pty_control.rs:505-511 | only the current handle releases, keeping the epoch |
| PtyControl.InputArbiter.Attempt | src/model/pty_control.rs:546-583 | the write attempt of the specification: no control, no write; a count too large fails the request closed |
| PtyOrder.EpochsNeverFall | src/pty_input.rs:349-427 | over every run the epochs of the bytes reaching the PTY never decrease |
| PtyOrder.SilentForGood | src/pty_input.rs:280-287 | once a handle is superseded, released or disconnected, no later step of any run puts a byte of it on the PTY, whatever it still has queued |
| PtyPrefix.EachHandleInOrder | src/pty_input.rs:349-427 | with each holder granted once and no PTY failure for it, what a handle got onto the PTY is a prefix of what it submitted, and while it has control nothing of it is missing from PTY, current request and queue |
| PtyAccounts.EachRequestInOnePlace | src/pty_input.rs:349-502 | over every run each request is exactly once queued, being written, finished or dropped |
| PtyAccounts.EndWaitsForItsInput | src/pty_input.rs:273-278 | when an end marker is served every request queued before it is done with, and its handle no longer authorizes |
| PtyAnswers.OutcomesAreExact | src/pty_input.rs:399-427 | with each holder granted once no request is dropped, and every outcome counts exactly the bytes of it on the PTY |
| PtyNames.RunNamed | src/pty_input.rs:399-427 | over every run, each chunk on the PTY and each finished request is of a request submitted under the same key |
| PtyAnswers.HooksTellWhoHolds | src/pty_input.rs:504-555 | the hooks called so far say a human holds control if and only if one does |
| PtyDisconnect.DisconnectExact | src/pty_input.rs:438-502 | a disconnect cancels all its holder has queued, staged or in flight, keeps the others in order, writes nothing and reports the exact sums once |
| PtyDisconnect.StoppedMeans | src/pty_input.rs:474-490 | each cancelled request ends unauthorized with the count it had |
| PtyDisconnect.DisconnectIsQuiet | src/pty_input.rs:430-437 | whatever is queued, a disconnect writes and loses nothing if and only if its holder does not own the PTY once the handle is released |
| PtyRuns.ReusedHolderRun | src/pty_input.rs:474-490 | for every holder, a run that grants it control twice and in which its first handle's disconnect writes a byte under the second and drops the request without an outcome; the sidecar's fresh holders never reach this |
| PtyRuns.FreshHoldersLeaveQuietly | src/pty_input.rs:430-437 | with each holder granted once, no disconnect of any run writes a byte or drops a request |
| PtyRuns.FailureBreaksThePrefix | src/pty_input.rs:399-427 | for every holder and every failing write, a run in which a later request of the same handle is written, so that what it sent is no prefix of what it submitted |
| PtyInputThread.Queues.PushControl | src/pty_input.rs:306-318 | a control is queued if and only if fewer than 16 are |
| PtyInputThread.Queues.PushInput | src/pty_input.rs:320-332 | an input is queued if and only if fewer than 32 are |
| PtyInputThread.Queues.TakeTheirs | src/pty_input.rs:454-460 | the inputs are split between a holder's and everyone else's, both in order |
| PtyInputThread.InputWriterLoop.DisconnectHolder | src/pty_input.rs:438-502 | the loop's state afterwards is that of the specified disconnect |
| PtyInputThread.InputWriterLoop.Turn | src/pty_input.rs:349-427 | one turn, with senders pushing before, between and after the controls it serves, is the run of the machine that drains, serves each control in order and then serves an end marker or makes one write attempt |
| PtyInputThread.AfterFrom | src/pty_input.rs:349-427 | a turn's run continues any run that reached the turn's state, so the theorems over runs hold of the loop |
| AttachProto.OutcomeRoundTrip | src/attach_proto.rs:150-189 | an encoded outcome always decodes with its accepted count, and to itself if and only if its bytes fit 64 bits in sum |
| AttachProto.OnlyEncodingsDecode | src/attach_proto.rs:164-189 | a payload that decodes to an outcome is that outcome's encoding |
| AttachProto.ProgressIsConsistent | src/attach_proto.rs:173-181 | decoded progress never claims more written than received |
| AttachProto.FrameRoundTrip | src/attach_proto.rs:238-290 | every frame decodes from its own payload |
| AttachProto.StreamRoundTrip | src/attach_proto.rs:274-353 | frames written one after another read back in order, whatever incomplete bytes follow |
| AttachProto.OversizedIsRefused | src/attach_proto.rs:329-346 | a payload over the limit is never read back; below 2^32 bytes it is refused by its declared length |
| PushConnection.HandlePush | src/sidecar.rs:2035-2085 | a report's accepted and unwritten counts sum to all payload bytes read, and accepted equals the bytes on the PTY but for those a vanished writer wrote unsaid |
| PushConnection.ReportArrives | src/attach_proto.rs:150-189 | a report whose counts fit 64 bits arrives as made |
| PushConnection.ReportedPush | src/sidecar.rs:2035-2093 | over every run of the input writer, the reported count of a push whose frames are all its handle submitted is the number of bytes its handle got onto the PTY |
| PtyViewers.InputDrivesViewers | src/sidecar.rs:1889-1902 | with each holder granted once, the grants, releases and retirements of any run of the input writer drive a run of the viewers with the same owner, grants and retired connections |
| Viewers.OnlyTheOwnerInstalls | src/sidecar.rs:2140-2148 | over every run a connection that installs its viewer has control by the latest grant, so a retired one never does |
| Viewers.RetiredForGood | src/sidecar.rs:1889-1902 | over every continuation of every run, a connection the takeover hook removed stays removed and never registers again |
| Viewers.RetiredNeverInstalls | src/sidecar.rs:2133-2139 | after any continuation, its install changes nothing in the viewer slot and no step puts its viewer there |
| Viewers.OnlyItsOwn | src/sidecar.rs:1949-1973 | an installed viewer goes only by its own cleanup or retirement, its own queue refusing output, or the install of the current owner |
| Viewers.ViewersMissNothing | src/sidecar.rs:75-131 | what a viewer was sent plus its queue is the gap-free output since its install until it closes, within the byte budget |
| Viewers.ViewerQueue.OfferChunk | src/sidecar.rs:78-96 | a chunk is taken whole or the queue ends closed, and emptied if it overflowed |
| Viewers.ViewerQueue.Next | src/sidecar.rs:100-112 | the oldest chunk leaves an open queue and its bytes are given back |
| ViewersThread.AttachSide.RegisterConnection | src/sidecar.rs:1619-1626 | is the machine's registration, refused once the run has ended |
| ViewersThread.AttachSide.InstallViewer | src/sidecar.rs:2140-2148 | is the machine's install: the viewer is installed if and only if its holder is registered |
| ViewersThread.AttachSide.GrantControl | src/sidecar.rs:1889-1902 | is the machine's grant: the superseded connection leaves the registry before its successor has control |
| ViewersThread.AttachSide.TeeChunk | src/sidecar.rs:1532-1538 | is the machine's tee: output is offered to the installed viewer, which goes if it does not take it |
| ViewersThread.AttachSide.SendNext | src/sidecar.rs:121-131 | is the machine's send: the sender takes the oldest chunk of its own queue |
| ViewersThread.AttachSide.ForgetConnection | src/sidecar.rs:2348 | is the cleanup's first step: the connection's registration goes |
| ViewersThread.AttachSide.ClearOwn | src/sidecar.rs:2349-2353 | is its second: the connection's own viewer leaves the slot, and no successor's |
| ViewersThread.AttachSide.CloseOwnQueue | src/sidecar.rs:2354 | is its last: the connection's queue is closed |
| ViewersThread.AttachSide.FinishRetiringViewer | src/sidecar.rs:1967-1972 | is the machine's end of a retirement: it closes and clears its own viewer and no successor's |
| ViewersThread.AttachSide.EndTheRun | src/sidecar.rs:1639-1651 | is the machine's end of the run: nothing registers after it and every live connection is returned |
| ViewersThread.ConnectionRegistry.Insert | src/sidecar.rs:1619-1626 | nothing registers once the run has ended |
| ViewersThread.ConnectionRegistry.CloseAll | src/sidecar.rs:1639-1651 | the registry is closed and emptied at once |
| EscapeTokens.CouldStill | src/attach_escape.rs:403-437 | a sequence that could become a prefix after more bytes could before them |
| EscapeTokens.PressWasHeld | src/attach_escape.rs:403-437 | up to its final byte a `Ctrl-\` press is recognizable if and only if its key code has no leading zero |
| EscapeTokens.NinetyTwo | src/attach_escape.rs:385-390 | leading zeros are the only other way to write 92 |
| EscapeEncodings.KittyKey | src/attach_escape.rs:322-363 | `CSI code ; modifiers u` is one token, read as its code and modifiers whatever their digits |
| EscapeEncodings.XtermKey | src/attach_escape.rs:314-321 | so is `CSI 27 ; modifiers ; code ~` |
| EscapeEncodings.KeysThatCount | src/attach_escape.rs:367-376 | control alone with key 92 arms, key 100 alone detaches, and the lock states make no difference |
| EscapeEncodings.PaddedPressDiffers | src/attach_escape.rs:385-434 | a concrete press with a leading zero arms when read whole and is forwarded when cut before its last byte |
| EscapeChunks.TokenMore | src/attach_escape.rs:278-299 | a complete token stays the same whatever follows |
| EscapeChunks.RunIsFeed | src/attach_escape.rs:171-206 | for a stream without padded presses any cutting into reads gives the parser, bytes and decision of one read |
| EscapeChunks.ReadsDoNotMatter | src/attach_escape.rs:171-206 | at every point of a stream the result is independent of the cutting if and only if no press that arms is padded |
| EscapeFates.DecideAllGivesFates | src/attach_escape.rs:228-263 | deciding event by event forwards, holds and discards what looking ahead over all events says |
| EscapeFates.EveryByteHasOneFate | src/attach_escape.rs:171-263 | over any reads and expiries every byte typed belongs to one event or the held rest, and the bytes forwarded are exactly the forwarded events in order |
| EscapeFates.OnlyPrefixesAreSwallowed | src/attach_escape.rs:228-263 | nothing is swallowed but `Ctrl-\` presses and that key's repeats and releases |
| EscapeFates.NoPrefixNothingLost | src/attach_escape.rs:171-206 | without a prefix, forwarded bytes and the held rest are the input |
| AttachEscape.EscapeParser.FeedInput | src/attach_escape.rs:171-206 | one read's effect is the recursive scan of the held rest and the input; a disabled parser forwards everything |
| AttachEscape.EscapeParser.FlushExpired | src/attach_escape.rs:218-226 | an expired rest counts as an ordinary key, so a held prefix goes with it; nothing is due when nothing is held |
| AttachEscape.EscapeParser.DecideToken | src/attach_escape.rs:228-263 | one event's decision on the held prefix and the events since |
| Calendar.DaysRoundTrip | src/model/event.rs:184-195 | every day number is a date that exists and counts back to it |
| Calendar.DateRoundTrip | src/model/event.rs:198-205 | every date that exists gives a day number that is that date |
| Calendar.RoundTripDetects | src/model/event.rs:265-268 | converting there and back is the identity on exactly the dates that exist |
| Calendar.DayNumberCounts | src/model/event.rs:198-205 | the day number is the days of all years since 1970, of the months before and of the month so far |
| Calendar.DateOrder | src/model/event.rs:198-205 | dates are ordered as their day numbers |
| Timestamp.ParseAccepts | src/model/event.rs:230-274 | a string is accepted if and only if it is well shaped and its date and time exist, from 1970 on |
| Timestamp.DisplayUndoesParse | src/model/event.rs:207-275 | what was parsed displays as the string it came from |
| Timestamp.ParseUndoesDisplay | src/model/event.rs:207-275 | a displayed timestamp parses back if and only if its year is at most 9999 |
| Timestamp.ByteOrderUpTo | src/model/event.rs:108-111 | byte order is time order for all timestamps before a bound if and only if the bound is no later than year 10000 |
| Timestamp.ByteOrderIsTimeOrder | src/model/event.rs:108-111 | up to year 9999 byte order of the displayed form is time order |
| Timestamp.YearTenThousandIsOutOfOrder | src/model/event.rs:108-111 | the first second of year 10000 displays before the last of 9999 |
| Timestamp.FlexibleMeans | src/model/event.rs:164-180 | up to nine fractional digits are read as the strict form cut or filled to six; more are refused |
| Timestamp.StrictIsFlexible | src/model/event.rs:164-180 | every strict timestamp is read the same by the flexible parser |
| EventSegments.ReadSegmentRecords | src/events.rs:593-628 | the reading loop gives the records, skip count and end of all complete lines |
| EventSegments.RecordsAreLines | src/events.rs:593-628 | the records read are exactly the complete, readable, non-empty lines with their byte ranges |
| EventSegments.ConsumedToLastNewline | src/events.rs:580-584 | a read consumes up to just past the last newline |
| EventSegments.ReadAgain | src/events.rs:593-628 | a read of the grown file from where the last ended completes one read of it |
| EventSegments.PollsAreOneRead | src/events.rs:593-628 | any number of reads of a growing file give the records, ranges and skips of one read of its last state |
| EventCursors.SortSorts | src/commands/events.rs:397 | a batch is printed in merge-key order |
| EventCursors.SortOfRel | src/commands/events.rs:397 | a segment collected in key order keeps its order when batches are merged |
| EventResume.CursorNeverSkips | src/commands/events.rs:143-151 | over every run a cursor resumes at a point before which every matching record was consumed |
| EventResume.ExactIffOrdered | src/commands/events.rs:106-151 | over every run, resumed or not, every bookmark accounts for each matching record once, printed or dropped before it or read after it, if and only if the segment's matching lines are in merge-key order |
| EventTwoRuns.RepeatsIffDisordered | src/commands/events.rs:106-151 | some run, one of its bookmarks and a run resumed from it both print the same record of a segment, if and only if its matching lines are out of merge-key order |
| EventTwoRuns.SeamlessIffOrdered | src/commands/events.rs:106-151 | what any run consumed up to any bookmark, what any run resumed from it consumed and what that leaves are the segment's matching records in order, if and only if its matching lines are in merge-key order |
| EventReader.CursorTracker.Token | src/commands/events.rs:143-151 | a cursor names for each segment its earliest unconsumed record, or how far it was read |
| EventReader.CursorTracker.Consume | src/commands/events.rs:134-141 | a consumed record is no longer pending, and a segment with none pending is forgotten |
| EventReader.StreamReader.Poll | src/commands/events.rs:258-291 | polling collects and notes every passing record of what a segment gained, and counts skips |
| EventReader.StreamReader.EmitBatch | src/commands/events.rs:389-430 | the merged batch is consumed in order up to what the output took, a tail limit consuming the head unprinted, with a bookmark after every hundredth printed record |
| ExecWait.WaitSentinelResult | src/commands/exec.rs:485-609 | the loop ends as the turns of reads, deadline, grace period and session checks say |
| ExecWait.WaitAnswers | src/commands/exec.rs:522-609 | however a framed command's wait ends, a result has the exact stdout, code and directory, and the exact stderr unless the grace period cut it to a start; a timeout or a lost session means no sentinel was read |
| ExecWait.PatientWaitAnswers | src/commands/exec.rs:522-609 | with no limit reached, the exact result is returned by the turn after the last line at the latest |
| ExecMerge.ScanByLane | src/commands/exec.rs:574-608 | until it is complete a scan is what the two lanes give on their own |
| ExecMerge.SentinelReads | src/exec_frame.rs:111-117 | a sentinel line reads back as the bytes in front of it, the code and the directory |
| ExecMerge.MarkerReads | src/exec_frame.rs:122-126 | a marker line reads back as the bytes in front of it |
| ExecMerge.InterleavingDoesNotMatter | src/commands/exec.rs:468-475 | for every interleaving of the two lanes the scan ends with the same stdout, stderr, code and directory, unterminated last lines included |
| ExecMerge.SameAnswer | src/commands/exec.rs:468-475 | two logs that differ only in how the lanes interleave give the same answer |
| ExecMerge.TerminalResult | src/commands/exec.rs:581-589 | on a terminal everything is stdout in order without the frame's own lines |
| Dependencies.DependencySet.Scan | src/sidecar.rs:443-559 | a scan honours a kill request, then the deadline, then latches or fails over the slots in order |
| Dependencies.SlotAfter | src/sidecar.rs:486-552 | a scan changes a slot only by latching it when its session is met |
| Dependencies.FailsIfBroken | src/sidecar.rs:492-547 | a scan fails over its slots if and only if a pending dependency is missing, unreadable, replaced or failed |
| Dependencies.SatisfiedMeansEachMet | src/sidecar.rs:598-632 | a wait is satisfied only if each dependency was, at some scan, finished as asked under the run it is bound to |
| Dependencies.AllMetSatisfies | src/sidecar.rs:598-632 | with nothing broken, killed or expired the wait is satisfied if and only if each dependency was met at some scan |
| Dependencies.LatchedIsIgnored | src/sidecar.rs:486-490 | how a latched dependency's session looks later makes no difference |
| Dependencies.ReplacedFailsTheWait | src/sidecar.rs:517-528 | replacing a still-pending dependency fails the wait at the scan that sees it, unless a kill request or the deadline ends that scan first |

## Left out

- CRC32C, JSON, base64, UTF-8 and UUID internals: the checksum, the parsing of an event line and the replacement of
  invalid UTF-8 in a refusal's reason are parameters that may be any function.
- Files, sockets, threads, condition variables and clocks: storage is a sequence of segments whose calls may fail,
  channels and queues are sequences, time is a number that never decreases, and a wait is a step not yet possible.
- Saturating sums of byte counts (`saturating_add` on `usize` and `u64` in the recorder's limits) are unbounded sums;
  the two differ only past 2^64 bytes.
- A recording of more than 2^32 segments, where the decoder's own segment counter ends.
- RecorderTheorems.FinishedRecordingIsExact: assumes no cut failed, because a segment that cannot be cut back keeps
  bytes past the declared boundary (`RecorderRuns.FailedCutKeepsOneMore`); RecorderTheorems.StoreAlwaysDecodes covers
  that case.
- PtyPrefix.EachHandleInOrder: assumes the PTY fails none of the handle's requests, because after a failed write a
  later request of the same handle may still succeed (`PtyRuns.FailureBreaksThePrefix`).
- A PTY that reports taking more bytes than it was offered: the request fails as in the code, and the model counts no
  byte of that attempt as written.
- PushConnection.HandlePush: a writer that is gone says nothing of the frame it was writing, so the report may fall
  short by what it wrote of that frame.
- Requests, encoders' headers and queue items are values, moved and never shared, as in the code; update in place is
  modelled for the objects that hold them.
- EscapeParser's deadlines: an expiry is an action that may come at any time a sequence is held.
- The projection of `output.log` into the event stream and the encoding of cursor tokens: derived records take part
  in the merge and in the count of printed records, and a cursor is its map of positions.
- ExecWait.WaitSentinelResult: a turn reads a whole log line; deadline and grace period are what each look at the
  clock found.
- `reconcile`, session transitions, the command line, `attach`'s terminal handling, and the frames' shell, Python and
  PowerShell text.
