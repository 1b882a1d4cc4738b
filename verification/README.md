# Verified model of cloudflared's multiplexer and its state machines

This project models the parts of cloudflared whose correctness is hard to see from one function, and proves what
they promise over every run. All of it is in Dafny; each module follows one component of the program.

**Compression dictionaries** (`h2mux`). The sender changes its dictionaries at once, under a lock; the receiver queues
the same changes until it has decompressed enough bytes, and completing one change can hand a waiting reader its
dictionary, whose decompressed bytes complete further changes. `DictionaryLog` is the reference: a log of uses and
updates, and the value of a dictionary at any position of it as a fold. `WriteDictionaries` is the sender,
`ReadModel`, `ReadSteps`, `ReadCalm` and `ReadGrowth` the receiver's invariant and its preservation, and
`ReadDictionaries` the receiver's code with its nested callbacks, which are shown to terminate. `DictionaryTheorems`
draws the consequences. `LinkModel`, `LinkSteps` and `CompressedLink` put both ends around a FIFO of frames, with
`VarInt` and `SetDictionary` as the wire format and `Negotiation` as the handshake. The compressor is any codec that
round-trips under equal dictionaries.

**Streams** (`h2mux`). `StreamModel` is a stream between two ends as a state machine: applications that write, wait,
read and close, the writer goroutine that takes chunks and emits frames one by one, the reader goroutine that receives
them, and two FIFO channels. `StreamInvariant` and `StreamSteps` hold the invariant, `StreamTheorems` the results.
`MuxedStreams` is the same code as objects updated in place; the steps of `StreamModel` and the contracts of these
objects are stated with the same functions on a stream's fields.
`ReadyLists` refines a linked queue with a map and a free list to a duplicate-free FIFO. `ActiveStreams` is the map of
streams between the two threads that use it, and `StreamLookups` what a frame can find in it.

**Around it.** `Supervisors` (the tunnel event loop), `Backoff` (retries, address rotation and protocol fallback),
`Headers` (the serialized header codec), `Orchestration` (configuration updates), `DatagramSessions` (the session
manager and its sessions), `EchoIds` (the ICMP echo ID allocator), `Funnels` (the funnel tracker).

Check everything with `dafny verify dfyconfig.toml`.

## What the proofs turned up

- END_STREAM can be lost, and accepted bytes with it. A stream can leave the map before it has sent everything: when the
  peer's END_STREAM finds the write side closed and its buffer empty, when a reset arrives, when CloseStreamRead finds the
  write side closed, or when a stream that has just left the map is fetched with too small a window. In every run
  END_STREAM is lost exactly if one of these four steps took place before it was sent
  (`StreamTheorems.EndStreamLostExactly`), and nothing later repairs it (`ForgottenForever`). `EndStreamCanBeLost` and
  `CloseStreamReadLosesBytes` are runs that lose the one and the other.
- A dictionary ID equal to the number of dictionaries passes the `>` test of `getDictByID` and `newReader` and indexes
  out of range. `ReadDictionaries.UsePanicsExactly` and `SetDictionary.PanicsExactly` say exactly which frames do that,
  and `SetDictionary.EqualIdPanics` gives the smallest one. Larger IDs are refused.
- A compressed stream that ends without the bytes it promised to the dictionaries crashes the receiver. Its first Write
  announces the update of min(length, dictionary size) bytes before anything else, even before it finds the write side
  closed; the end of the stream completes the update with whatever has arrived, and merging it slices beyond its data.
  `CompressedLink.Connection.ReceiveAll` says that, once all streams have ended, the receiver crashes exactly if one of
  them was not given what it promised, whatever the interleaving; `DictionaryTheorems.EarlyEndPanicsExactly` says which
  update panics, and `CompressedLink.WriteAfterClose` is a run that gets there.
- A SET_DICTIONARY frame for a stream that has left the map goes on with a nil stream
  (`ReadDictionaries.SetPanicsExactly`, `ActiveStreams.GoneExactly`). The last stream the peer opened is the exception:
  once gone, it is taken for one that never was.
- `http2ReadVarInt` inverts `appendVarInt` exactly below 2^63 + 2^n - 1; above that it reports an invalid integer.
- A line end inside a serialized header field is skipped by the base64 decoder but still counts for the size of the
  buffer, so the field comes back with zero bytes appended (`Headers.LineEndAddsZero`, `Headers.FieldExact`).
- `GetMaxBackoffDuration` predicts the next `BackoffTimer` exactly when no reset is due, or when after the reset a retry
  is left and the first wait fits in a second (`Backoff.PredictionExact`); `Backoff.PredictionFails` reaches a state where it is
  wrong.
- Some run makes `BackoffTimer` panic exactly when base * 2^MaxRetries does not fit an int64
  (`Backoff.TimerPanicsExactly`); with a base of one second that is from 34 retries on
  (`Backoff.ThirtyFourRetriesPanic`). `SetGracePeriod` gets there two retries earlier (`Backoff.GracePanicsExactly`).
- A graceful shutdown before the first tunnel has connected leaves that tunnel's goroutine sending to nobody, and a first
  tunnel that reports no error sends the supervisor into a loop that waits for tunnels it never started
  (`Supervisors.StartsRightExactly`, `NilReportStarves`). With zero connections its counter starts one below the
  goroutines (`NoConnectionsMiscounts`).
- A datagram session displaced by another registration of its ID is never closed by the manager. After shutdown exactly
  the displaced sessions were never closed, and all others once (`DatagramSessions.ClosedExactly`).

## Model

| member | source | states |
|---|---|---|
| `VarInt.AppendVarInt` | h2mux/h2_dictionaries.go:585-596 | the loop appends the prefixed encoding of the value after whatever was there |
| `VarInt.ReadVarInt` | h2mux/h2_dictionaries.go:552-583 | the loop computes the reference reader, including its two errors and 64-bit wrap-around |
| `VarInt.RoundTrip` | h2mux/h2_dictionaries.go:552-596 | for n in 1..8 and any suffix, reading inverts appending exactly when the value is below 2^63 + 2^n - 1, and otherwise reports an invalid integer |
| `VarInt.ReadIgnoresHigh` | h2mux/h2_dictionaries.go:559-566 | an integer is read the same whatever the bits above its prefix are |
| `SetDictionary.WritePayload` | h2mux/muxwriter.go:297-311 | the loop builds the SET_DICTIONARY payload of all updates in order |
| `SetDictionary.ParsePayload` | h2mux/muxreader.go:389-464 | the loop returns the entries parsed before the first failure and how it ended |
| `SetDictionary.PayloadRoundTrip` | h2mux/muxreader.go:389-464 | the parser returns exactly the updates the writer asked for, with truncate and offset zero and only E set; an empty list is refused |
| `SetDictionary.AnyEntryRoundTrip` | h2mux/muxreader.go:401-438 | every entry the format can carry, with P, E, D, truncate and offset as its flags say, is read back whatever follows it |
| `SetDictionary.ParsedIds` | h2mux/h2_dictionaries.go:211-217 | every update that gets through names an existing dictionary |
| `SetDictionary.EndingExactly` | h2mux/muxreader.go:449-453 | the number of dictionaries cuts the readable entries at the first ID not below it, with an error or a panic, and changes nothing else |
| `SetDictionary.PanicsExactly` | h2mux/muxreader.go:449-453 | a frame panics exactly if the first of its readable entries with an ID not below the number of dictionaries has that ID |
| `SetDictionary.EqualIdPanics` | h2mux/h2_dictionaries.go:211-217 | a three-byte entry with the ID equal to the number of dictionaries makes the parser panic |
| `Negotiation.SettingRoundTrip` | h2mux/h2_dictionaries.go:69-84 | the four bytes of the compression setting survive packing |
| `Negotiation.Muxer.ReadPeerSettings` | h2mux/h2mux.go:267-284 | the quality is narrowed to the minimum of both ends for version 1, format 2 and non-zero values, and switched off otherwise or without the setting |
| `Negotiation.OfferReads` | h2mux/h2_dictionaries.go:86-96 | what an end offers is read by the peer as exactly its preset, and as no valid version if it has none |
| `Negotiation.Agreement` | h2mux/h2mux.go:267-284 | both ends settle on the same number and size of dictionaries, and compression is on exactly when both support it and are set above none |
| `DictionaryLog.Adjust` | h2mux/h2_dictionaries.go:369-377 | the result is the newest maxSize bytes of the old dictionary followed by the data |
| `DictionaryLog.DictAtStable` | h2mux/h2_dictionaries.go:505-515 | the value of a dictionary at a log position does not depend on later entries |
| `DictionaryLog.DictAtSkip` | h2mux/h2_dictionaries.go:505-515 | a stretch of the log without updates of a dictionary leaves its value alone |
| `WriteDictionaries.TakePathValid` | h2mux/h2_dictionaries.go:462-481 | giving a path a slot keeps every slot owned by exactly one path or content type |
| `WriteDictionaries.TakeTypeValid` | h2mux/h2_dictionaries.go:453-481 | the same for a content type |
| `WriteDictionaries.ChoiceInRange` | h2mux/h2_dictionaries.go:448-481 | the dictionaries chosen for a stream exist |
| `WriteDictionaries.SlotStays` | h2mux/h2_dictionaries.go:448-481 | a slot once handed out is never taken away or changed |
| `WriteDictionaries.SlotGiven` | h2mux/h2_dictionaries.go:465-480 | a path or content type has a slot after its first write exactly as long as slots last |
| `WriteDictionaries.PathComesFirst` | h2mux/h2_dictionaries.go:453-455 | over any sequence of first writes, a stream whose path got a slot earlier starts from that dictionary, which every stream of the path since has updated with its head |
| `WriteDictionaries.TypeComesSecond` | h2mux/h2_dictionaries.go:462-464 | over any sequence of first writes, a stream without a path slot whose content type got one earlier starts from that dictionary, which every stream of the type since has updated |
| `WriteDictionaries.OverflowComesLast` | h2mux/h2_dictionaries.go:469-472 | over any sequence of first writes, a stream whose path and content type are both new starts from the last dictionary |
| `WriteDictionaries.H2WriteDictionaries.constructor` | h2mux/h2_dictionaries.go:352-367 | all dictionaries start empty and no slot is taken |
| `WriteDictionaries.H2WriteDictionaries.NextDictID` | h2mux/h2_dictionaries.go:379-387 | the next slot, or zero and a refusal when none is left |
| `WriteDictionaries.H2WriteDictionaries.Choose` | h2mux/h2_dictionaries.go:448-481 | the dictionary used is the path's slot if it has one, else the content type's, else the last; path and type get new slots while there are any |
| `WriteDictionaries.H2WriteDictionaries.ApplySets` | h2mux/h2_dictionaries.go:513-515 | after the loop the dictionaries are what the extended log makes of them |
| `WriteDictionaries.H2WriteDictionaries.AssignDictToStream` | h2mux/h2_dictionaries.go:421-527 | the dictionary used, by path, then content type, then overflow; the compressor gets it as the log had it before this stream's own updates; the updates announced are the ones applied, to exactly the used dictionary and the slots of path and type |
| `WriteDictionaries.H2WriteDictionaries.AssignAll` | h2mux/h2_dictionaries.go:438-520 | first writes one after the other leave the slots, and use the dictionaries, that the fold over the writes says |
| `ReadDictionaries.AdjustDictionary` | h2mux/h2_dictionaries.go:369-377 | append the first dictSZ bytes and keep the newest maxSize, or panic exactly if there are fewer bytes |
| `ReadCalm.MergedExactly` | h2mux/h2_dictionaries.go:175-179 | at any point of the nested callbacks, merging a completed update panics exactly if its stream ended with fewer bytes than it promised |
| `ReadDictionaries.H2ReadDictionaries.constructor` | h2mux/h2_dictionaries.go:203-209 | all dictionaries empty, nothing queued, invariant established |
| `ReadDictionaries.H2ReadDictionaries.ReceiveUse` | h2mux/muxreader.go:334-365 | which frames are accepted, refused or panic, and that only accepted ones give the stream a reader |
| `ReadDictionaries.UseAcceptedExactly` | h2mux/muxreader.go:338-358 | a USE_DICTIONARY frame is accepted exactly if it is the first, of one byte, for a stream in the map, and names a dictionary |
| `ReadDictionaries.UsePanicsExactly` | h2mux/h2_dictionaries.go:219-224 | a USE_DICTIONARY frame panics exactly if it is the first for a known stream and names the ID equal to the number of dictionaries |
| `ReadDictionaries.H2ReadDictionaries.NewReader` | h2mux/h2_dictionaries.go:219-238 | the reader gets its dictionary at once if the queue is empty and waits in it otherwise |
| `ReadDictionaries.H2ReadDictionaries.ReceiveSet` | h2mux/muxreader.go:368-465 | what becomes of the frame for each state of its stream, and that every entry parsed before a failure is queued in order, for the dictionary and for the reader |
| `ReadDictionaries.SetPanicsExactly` | h2mux/muxreader.go:373-380 | the frame panics exactly if its stream has left the map, or its entries make the parser panic |
| `ReadDictionaries.H2ReadDictionaries.QueueSets` | h2mux/muxreader.go:389-463 | the loop queues all entries and keeps the invariant |
| `ReadDictionaries.H2ReadDictionaries.QueueSet` | h2mux/muxreader.go:455-458 | one update order is appended to both queues |
| `ReadDictionaries.H2ReadDictionaries.Deliver` | h2mux/muxreader.go:279-286 | data for a stream with a reader leaves the invariant intact, every other stream's input untouched and nothing decompressible undone, and panics only if some stream has ended short of an update |
| `ReadDictionaries.H2ReadDictionaries.CloseReader` | h2mux/h2_dictionaries.go:298-305 | closing completes all the stream's updates and flushes, a second close changes nothing, and it panics only if some stream has ended short of an update |
| `ReadDictionaries.H2ReadDictionaries.UpdateDict` | h2mux/h2_dictionaries.go:181-201 | works off the queue up to the first incomplete update, through any nesting of callbacks, terminates, and panics only over an update whose stream ended short |
| `ReadDictionaries.H2ReadDictionaries.ServeUse` | h2mux/h2_dictionaries.go:187-196 | a waiting use is given the dictionary the log has at its position and catches up |
| `ReadDictionaries.H2ReadDictionaries.ApplySet` | h2mux/h2_dictionaries.go:196-199 | a completed update is merged in log order, or panics exactly if its stream ended short of it |
| `ReadDictionaries.H2ReadDictionaries.ReaderWrite` | h2mux/h2_dictionaries.go:256-296 | after a write everything received is decompressed and passed on, and every update that can complete is complete |
| `ReadDictionaries.H2ReadDictionaries.Decompress` | h2mux/h2_dictionaries.go:267-286 | whatever amounts the decompressor returns, the loop ends with all output passed on |
| `ReadDictionaries.H2ReadDictionaries.Recycle` | h2mux/h2_dictionaries.go:282-285 | a full internal buffer serves every update that waits for it before it is started again |
| `ReadDictionaries.H2ReadDictionaries.UpdateWaitingDictionaries` | h2mux/h2_dictionaries.go:240-253 | all completable updates are marked and the deferred passes over their dictionaries are done |
| `ReadDictionaries.H2ReadDictionaries.MarkWaiting` | h2mux/h2_dictionaries.go:242-252 | the loop marks what can be marked and owes a pass to exactly the dictionaries it defers |
| `DictionaryTheorems.InstalledDictionary` | h2mux/h2_dictionaries.go:181-238 | a reader with a decompressor has the dictionary of the log at its use, and has passed on all it received |
| `DictionaryTheorems.DeferredExactly` | h2mux/h2_dictionaries.go:227-236 | a use waits exactly as long as an earlier update of its dictionary is incomplete |
| `DictionaryTheorems.EarlyEndPanicsExactly` | h2mux/h2_dictionaries.go:240-253 | once a stream has ended and its reader has its dictionary, at once or after waiting, each of its updates is complete and merging it panics exactly if the stream delivered fewer bytes than promised |
| `DictionaryTheorems.NothingSentPanics` | h2mux/h2_dictionaries.go:181-253 | a stream that announces an update and ends before sending anything: its update heads the queue, is completed with the empty buffer, and merging it panics |
| `DictionaryTheorems.AllApplied` | h2mux/h2_dictionaries.go:181-201 | once all streams are heard, every log entry is applied, by induction over the log |
| `DictionaryTheorems.NothingStuck` | h2mux/h2_dictionaries.go:181-253 | once all streams are heard or ended and the receiver still runs: no readers wait for each other, all queues empty, all dictionaries those of the log, everything passed on, and no stream fell short of its updates |
| `LinkModel.CodecExists` | h2mux/h2_dictionaries.go:49-60 | the assumptions made about the compressor can be met |
| `CompressedLink.Connection.constructor` | h2mux/h2mux.go:231-243 | both ends, each with the number and size of dictionaries it negotiated for itself, satisfy the joint invariant and hold the minimum of both offers |
| `CompressedLink.Connection.FirstWrite` | h2mux/h2_dictionaries.go:421-527 | the first write of a stream announces its dictionaries and keeps the joint invariant |
| `CompressedLink.Connection.Write` | h2mux/h2_dictionaries.go:529-542 | further input is compressed under the same dictionary |
| `CompressedLink.Connection.Finish` | h2mux/h2_dictionaries.go:544-549 | closing the write side at any time flushes the compressor and keeps the joint invariant |
| `CompressedLink.Connection.FinishUnwritten` | h2mux/muxedstream.go:134-142 | a write side closed before the stream was announced keeps the joint invariant, with nothing compressed |
| `CompressedLink.Connection.Emit` | h2mux/muxwriter.go:200-202 | any split of the compressed output into frames keeps the joint invariant |
| `CompressedLink.Connection.EmitEnd` | h2mux/muxwriter.go:200-228 | END_STREAM after all output keeps the joint invariant |
| `CompressedLink.Connection.Receive` | h2mux/muxreader.go:120-153 | whatever frame is next, none of the receiver's error cases arises, the joint invariant is kept, and it crashes only if a stream has ended without the bytes it promised |
| `CompressedLink.Connection.ReceiveAll` | h2mux/muxreader.go:120-153 | once every stream has ended, the receiver crashes on the rest of the channel exactly if some stream was not given the bytes it promised to the dictionaries |
| `CompressedLink.WriteAfterClose` | h2mux/muxedstream.go:131-142 | a first Write to a stream whose write side is closed, announced before its END_STREAM went out, makes the receiver crash |
| `CompressedLink.SameDictionary` | h2mux/h2_dictionaries.go:181-253 | for every interleaving, a stream's decompressor has the very dictionary its compressor was given, and its output is a prefix of what was written |
| `CompressedLink.EverythingArrives` | h2mux/h2_dictionaries.go:421-527 | once all streams ended and arrived and the receiver still runs, both ends hold equal dictionaries, no queue is left, every stream delivered what was written, and every promise was kept |
| `MuxedStreams.SharedBuffer.constructor` | h2mux/shared_buffer.go:15-19 | empty and open |
| `MuxedStreams.SharedBuffer.Read` | h2mux/shared_buffer.go:21-40 | takes bytes off the front, as many as fit, and reports the end only when closed and empty |
| `MuxedStreams.SharedBuffer.Write` | h2mux/shared_buffer.go:42-51 | appends all, or refuses after the end |
| `MuxedStreams.SharedBuffer.Close` | h2mux/shared_buffer.go:53-61 | sets the end and leaves the bytes |
| `MuxedStreams.DrainAfterClose` | h2mux/shared_buffer.go:21-61 | a reader sees exactly what was written before the close, in order, then the end |
| `MuxedStreams.StreamChunk.NextDataFrame` | h2mux/muxedstream.go:440-457 | the next piece of the chunk, with END_STREAM on the last piece of an ending chunk |
| `MuxedStreams.WriteChunk` | h2mux/muxwriter.go:186-206 | the frames written for a chunk: the window update, then data frames until it is used up |
| `MuxedStreams.FramesCarryChunk` | h2mux/muxwriter.go:186-206 | those frames carry exactly the chunk's bytes within the frame size, and only the last one ends the stream, exactly if the chunk does |
| `MuxedStreams.MuxedStream.constructor` | h2mux/muxedstream.go:100-114 | the initial windows and buffers |
| `MuxedStreams.MuxedStream.WriteFrom` | h2mux/muxedstream.go:151-174 | the loop accepts what fits and signals the writer, and waits exactly if bytes are left |
| `MuxedStreams.MuxedStream.CloseWrite` | h2mux/muxedstream.go:198-213 | sets the end once, with a token for a waiting Write and a signal |
| `MuxedStreams.MuxedStream.ConsumeReceiveWindow` | h2mux/muxedstream.go:301-322 | refuses more than the window; otherwise charges it, and exactly if less than half is left below the limit doubles the current maximum up to the limit, owes the difference and signals |
| `MuxedStreams.MuxedStream.Read` | h2mux/muxedstream.go:116-128 | what leaves the read buffer is owed to the window |
| `MuxedStreams.MuxedStream.ReceiveEOF` | h2mux/muxedstream.go:335-341 | closes the read side and says closed exactly if the write side is closed with an empty buffer |
| `MuxedStreams.MuxedStream.TakeData` | h2mux/muxedstream.go:395-411 | the bytes taken and the bytes left are the old buffer, at most the send window is taken, and a waiting Write is told of space |
| `MuxedStreams.MuxedStream.GetChunk` | h2mux/muxedstream.go:383-426 | takes at most the send window, frees space, flushes the window update and decides on END_STREAM |
| `MuxedStreams.Muxer.ReceiveFrameData` | h2mux/muxreader.go:274-301 | the stream's new state is the state machine's, and exactly which frames are stream errors, connection errors, or take the stream out of the map |
| `MuxedStreams.Muxer.UpdateStreamWindow` | h2mux/muxreader.go:468-480 | credit goes to a stream in the map and is ignored for one that is gone |
| `MuxedStreams.Muxer.WriteStreamData` | h2mux/muxwriter.go:172-230 | the chunk in frames; the last frame is a reset exactly if the stream ends now with its read side closed and no END_STREAM received, and it leaves the map exactly if it ends with its read side closed |
| `StreamSteps.WriteKeeps` | h2mux/muxedstream.go:131-174 | writing keeps both directions' invariants |
| `StreamSteps.WakeKeeps` | h2mux/muxedstream.go:155-160 | so does a waiting Write that takes the token |
| `StreamSteps.CloseWriteKeeps` | h2mux/muxedstream.go:198-213 | so does closing the write side |
| `StreamSteps.ReadKeeps` | h2mux/muxedstream.go:116-128 | so does reading |
| `StreamSteps.FetchKeeps` | h2mux/muxedstream.go:383-426 | taking a chunk conserves credit, bytes and END_STREAM |
| `StreamSteps.EmitKeeps` | h2mux/muxwriter.go:186-228 | so does putting one frame on the wire |
| `StreamSteps.ReceiveDataKeeps` | h2mux/muxreader.go:274-301 | so does receiving a data frame, kept, dropped or refused |
| `StreamSteps.ChargeExact` | h2mux/muxedstream.go:301-322 | charging and doubling never wrap: what the current maximum gains, the pending window update gains |
| `StreamSteps.UpdateCredit` | h2mux/muxedstream.go:293-298 | the credit of an arriving WINDOW_UPDATE moves from the wire into the send window without wrap-around, so the credit law is kept |
| `StreamSteps.ReceiveUpdateKeeps` | h2mux/muxreader.go:468-480 | so does receiving a WINDOW_UPDATE |
| `StreamSteps.ReceiveResetKeeps` | h2mux/muxreader.go:125-133 | so does receiving a reset |
| `StreamSteps.StepKeeps` | h2mux/muxreader.go:120-153 | every step of either end keeps the invariant |
| `StreamSteps.RunInv` | h2mux/muxedstream.go:131-457 | the invariant holds after every run from the start |
| `StreamTheorems.EitherEnd` | h2mux/muxedstream.go:131-457 | runs come in mirrored pairs, so what holds of one end in every run holds of the other |
| `StreamTheorems.BytesArriveInOrder` | h2mux/muxedstream.go:131-174 | what one end has read or can read is always a prefix of what the other accepted; unless something was discarded, every accepted byte is in exactly one place |
| `StreamTheorems.EndSentOnce` | h2mux/muxwriter.go:200-228 | END_STREAM is sent at most once, after all accepted bytes, and nothing follows it |
| `StreamTheorems.ResetSentExactly` | h2mux/muxwriter.go:211-227 | a step sends a reset exactly if it reports a stream error or puts END_STREAM on the wire with the read side closed and no END_STREAM received, once and last; after END_STREAM the stream stays in the map exactly if its read side is open |
| `StreamTheorems.ResetCloses` | h2mux/muxreader.go:125-133 | once a reset has been received, in every continuation the stream is out of the map with both sides closed |
| `StreamTheorems.LeavesForGood` | h2mux/muxwriter.go:151-155 | streams only ever leave the map, and with both sides closed |
| `StreamTheorems.FailsExactly` | h2mux/muxreader.go:274-298 | in every run a data frame is a stream error exactly if its stream is gone and it does not end it, or it carries data for a closed read side; and exactly the data of those and of gone streams is dropped |
| `StreamTheorems.EndMeansAll` | h2mux/muxedstream.go:335-341 | an end told of END_STREAM that discarded nothing has everything the other end accepted, also across read closes and resets |
| `StreamTheorems.EofMeansAllRead` | h2mux/muxedstream.go:116-128 | in every run without a read close, nothing is ever discarded, and Read reports the end only when all the other end accepted has been read |
| `StreamTheorems.WindowsNeverOverflow` | h2mux/muxedstream.go:301-331 | a frame never exceeds the receive window, the window identity holds, no 32-bit counter wraps, every increment lies in 1..2^31-1 |
| `StreamTheorems.WindowGrowsExactly` | h2mux/muxedstream.go:308-320 | in every run a step changes an end's current maximum exactly if that end receives a kept DATA frame without END_STREAM that leaves less than half of a window that may grow; then it doubles up to the limit, the difference is owed and the stream signalled |
| `StreamTheorems.CreditConserved` | h2mux/muxedstream.go:293-331 | sender's window plus data and credit on their way plus what was charged to nobody equals the receiver's window, in every state |
| `StreamTheorems.QuiescentMeansDone` | h2mux/muxedstream.go:383-426 | with nothing in flight, unread or unflushed, the sender's window is the receiver's current maximum and positive, every accepted byte was read, and a waiting Write can go on |
| `StreamTheorems.NoLostWakeup` | h2mux/muxedstream.go:257-272 | a waiting Write that could go on has a token; the buffer stays within its limit; a sent END_STREAM means a closed, empty write side; a stream with something to send is signalled |
| `StreamTheorems.EndStreamLostExactly` | h2mux/muxreader.go:287-295 | in every run END_STREAM is lost exactly if, before it was sent, the peer's END_STREAM met a closed and empty write side, a reset arrived, CloseStreamRead met a closed write side, or a stream out of the map was fetched with too small a window |
| `StreamTheorems.StepLosesEnd` | h2mux/muxedstream.go:335-341 | the same for one step, whichever end takes it |
| `StreamTheorems.CloseStreamReadLosesBytes` | h2mux/h2mux.go:473-478 | after Write, CloseWrite and CloseStreamRead the other end never reads any of the accepted bytes, however the run goes on |
| `StreamTheorems.ForgottenForever` | h2mux/muxreader.go:287-295 | then no continuation ever tells the peer that the stream ended, nor sends what is left in the write buffer |
| `StreamTheorems.EndStreamCanBeLost` | h2mux/muxreader.go:287-295 | both ends closing at the same time reach that state |
| `ReadyLists.ServedInOrder` | h2mux/readylist.go:45-73 | an ID at position k is delivered after exactly k other deliveries, whatever is signalled meanwhile |
| `ReadyLists.SignalIsServed` | h2mux/readylist.go:126-144 | a signalled ID is among the next deliveries, one more than the queue was long |
| `ReadyLists.Run` | h2mux/readylist.go:45-73 | the loop with its linked list, map and free list delivers exactly what the duplicate-free FIFO delivers, and its panic is unreachable |
| `ReadyLists.ReadyDescriptorQueue.Enqueue` | h2mux/readylist.go:91-102 | appends an unlinked descriptor, also over a stale Tail |
| `ReadyLists.ReadyDescriptorQueue.Dequeue` | h2mux/readylist.go:105-113 | takes the first descriptor and unlinks it |
| `ReadyLists.ReadyDescriptorMap.SetIfMissing` | h2mux/readylist.go:128-144 | nil exactly for a known key, otherwise an unlinked descriptor with that key, new or reused |
| `ReadyLists.ReadyDescriptorMap.Delete` | h2mux/readylist.go:146-151 | the key is forgotten and its descriptor becomes free |
| `ReadyLists.ReadyLoop.OnFirstSignal` | h2mux/readylist.go:51-58 | with nothing on offer a signal always yields a descriptor |
| `ReadyLists.ReadyLoop.OnSignal` | h2mux/readylist.go:63-68 | a signal appends the ID unless it is already listed |
| `ReadyLists.ReadyLoop.OnTake` | h2mux/readylist.go:60-62 | the ID taken is the first, and the rest stay in order |
| `ActiveStreams.ActiveStreamMap.constructor` | h2mux/activestreammap.go:45-57 | client IDs start at 1, server IDs at 2 |
| `ActiveStreams.ActiveStreamMap.NotifyStreamsEmpty` | h2mux/activestreammap.go:60-64 | closes the done channel once |
| `ActiveStreams.ActiveStreamMap.SetStream` | h2mux/activestreammap.go:82-94 | refuses a known ID and anything during shutdown |
| `ActiveStreams.ActiveStreamMap.DeleteStream` | h2mux/activestreammap.go:97-109 | removes the ID, and during shutdown closes done when none is left |
| `ActiveStreams.ActiveStreamMap.ShutdownStreams` | h2mux/activestreammap.go:114-127 | starts shutdown once, with done closed if there is nothing to wait for |
| `ActiveStreams.ActiveStreamMap.AcquireLocal` | h2mux/activestreammap.go:130-136 | the next ID, advancing by two with wrap-around |
| `ActiveStreams.ActiveStreamMap.AcquirePeer` | h2mux/activestreammap.go:140-152 | accepts exactly IDs above all earlier ones, outside shutdown |
| `ActiveStreams.ActiveStreamMap.AbortStreams` | h2mux/activestreammap.go:187-195 | closes every stream in the map, shuts down and closes done at once |
| `ActiveStreams.DoneClosedOnce` | h2mux/activestreammap.go:60-127 | in every run done is closed at most once; an empty map in shutdown means closed; closed means an empty map or an abort, after which every stream left was closed |
| `ActiveStreams.NeverGrowsAfterShutdown` | h2mux/activestreammap.go:82-94 | once shutting down the map never gains a stream |
| `ActiveStreams.RunIds` | h2mux/muxreader.go:214-229 | below wrap-around, the IDs handed out and admitted keep their invariants in every run |
| `ActiveStreams.SetFailsOnlyInShutdown` | h2mux/muxwriter.go:133-142 | below wrap-around local IDs are consecutive with fixed parity, admitted peer IDs strictly increase with the other, and Set fails exactly in shutdown |
| `ActiveStreams.GoneExactly` | h2mux/muxreader.go:178-195 | below wrap-around a frame finds its stream gone exactly if it is not in the map and was opened here or lies below the last peer ID; local IDs are exactly those handed out |
| `ActiveStreams.LocalIDValue` | h2mux/activestreammap.go:130-136 | the n-th local ID in closed form, with wrap-around |
| `ActiveStreams.LocalIDsCoincide` | h2mux/activestreammap.go:130-136 | two local IDs are equal exactly when a multiple of 2^31 others lies between |
| `Supervisors.Supervisor.constructor` | supervisor/supervisor.go:205-245 | each of the four things initialize can hear first: whether Run goes on, the state its loop starts from, and which goroutine is left behind otherwise |
| `Supervisors.Supervisor.StartRest` | supervisor/supervisor.go:235-244 | the loop starts tunnels 1 to HAConnections - 1, each recorded as connecting |
| `Supervisors.Supervisor.StartWaiting` | supervisor/supervisor.go:185-187 | the loop starts every waiting tunnel |
| `Supervisors.Supervisor.Postpone` | supervisor/supervisor.go:171-176 | the tunnel is queued, its connecting signal dropped, and the timer armed |
| `Supervisors.Supervisor.ReceiveAll` | supervisor/supervisor.go:149-152 | the drain loop takes one outstanding goroutine per count and ends with none |
| `Supervisors.Supervisor.Launch` | supervisor/supervisor.go:317-323 | a started tunnel is recorded as connecting and is the one waited for |
| `Supervisors.Supervisor.WaitForNextTunnel` | supervisor/supervisor.go:325-334 | forgets the tunnel and waits for any other that is connecting, if there is one |
| `Supervisors.Supervisor.TunnelError` | supervisor/supervisor.go:156-181 | in fields, by kind of error: no error or shutdown ends the tunnel and the loop with the last one, a reconnect starts it again at once, an ordinary error waits for the timer, or after cancellation is the end; the invariant is kept |
| `Supervisors.Supervisor.Restart` | supervisor/supervisor.go:160-164 | a tunnel told to reconnect is started and counted again at once |
| `Supervisors.Supervisor.Retire` | supervisor/supervisor.go:177-181 | the tunnel is finished, and the loop returns exactly if no goroutine is counted any more |
| `Supervisors.Supervisor.TimerExpired` | supervisor/supervisor.go:183-189 | all waiting tunnels are started and counted, with the invariant kept |
| `Supervisors.Supervisor.SignalFired` | supervisor/supervisor.go:191-195 | the next signal is chosen and the grace period restarted only if nothing is connecting or waiting |
| `Supervisors.Supervisor.Drain` | supervisor/supervisor.go:148-153 | the drain loop ends having received every outstanding goroutine |
| `Supervisors.CountersMatchGoroutines` | supervisor/supervisor.go:138-200 | for at least one connection, in every run each tunnel is in exactly one of outstanding, waiting and finished, the counter is the number outstanding, waiting tunnels have a timer and only they do, the connecting signal is right, the loop can always be woken, and it returns with nothing outstanding |
| `Supervisors.ReportExactly` | supervisor/supervisor.go:156-181 | the same for the step of the state machine |
| `Supervisors.BackoffBeforeRestart` | supervisor/supervisor.go:159-189 | in every run a tunnel that reports an ordinary error is not running again before the timer, which is armed, fires, and then is; one that reports a reconnect is running again at once |
| `Supervisors.ShutdownReturns` | supervisor/supervisor.go:158-181 | after a graceful shutdown with none waiting, the running tunnels only become fewer, and once the last has reported the loop has returned |
| `Supervisors.GraceOnlyWhenSettled` | supervisor/supervisor.go:191-195 | in every run the grace period is restarted exactly when the only tunnel recorded as connecting has connected and none waits |
| `Supervisors.InitializedInv` | supervisor/supervisor.go:235-245 | the invariant holds when the main loop starts |
| `Supervisors.StartsRightExactly` | supervisor/supervisor.go:224-232 | an early return leaves a goroutine unreceived exactly on a graceful shutdown, and the loop starts with the invariant exactly if the first tunnel connected and there is at least one connection |
| `Supervisors.NilReportStarves` | supervisor/supervisor.go:227-228 | after a first tunnel that reported no error, in every run short of the drain the loop counts tunnels of which none is outstanding, and does not return |
| `Supervisors.NoConnectionsMiscounts` | supervisor/supervisor.go:138-139 | with no connections the first tunnel's goroutine is not counted |
| `Backoff.BackoffHandler.BackoffTimer` | retry/backoffhandler.go:60-75 | the timer and the new state, with overflow and the generator's panic written out |
| `Backoff.BackoffHandler.SetGracePeriod` | retry/backoffhandler.go:94-98 | the new reset deadline, or the generator's panic |
| `Backoff.ShlExact` | retry/backoffhandler.go:72-73 | the shifted duration is exact exactly below 2^63 |
| `Backoff.RetriesAreCapped` | retry/backoffhandler.go:60-71 | in every run the retries are the timers asked for since the last reset, capped at the maximum |
| `Backoff.WaitsAreBounded` | retry/backoffhandler.go:60-75 | if base * 2^maxRetries fits 63 bits, then after any run the timer does not panic, waits are below base * 2^retries, and a timer is refused exactly when retries are used up |
| `Backoff.TimerPanicsExactly` | retry/backoffhandler.go:60-75 | some run, free of earlier panics, makes BackoffTimer panic exactly when base * 2^maxRetries does not fit an int64 |
| `Backoff.GracePanicsExactly` | retry/backoffhandler.go:94-98 | some run makes SetGracePeriod panic exactly when base * 2^(maxRetries+2) does not fit an int64, for a base that fits when doubled twice |
| `Backoff.GraceBounds` | retry/backoffhandler.go:94-98 | a grace period ends within base * 2^(retries+2), and any moment up to then can be its end |
| `Backoff.PredictionExact` | retry/backoffhandler.go:39-56 | exactly when GetMaxBackoffDuration bounds the next timer and agrees on exhaustion, for every random draw |
| `Backoff.PredictionFails` | retry/backoffhandler.go:47-50 | a reached state in which the next wait can exceed the prediction |
| `Backoff.ThirtyFourRetriesPanic` | retry/backoffhandler.go:72-74 | with a base of one second some run panics exactly from 34 retries on, namely 33 timers that do not panic and then one that does |
| `Backoff.IpAddrFallback.ShouldGetNewAddress` | supervisor/tunnel.go:178-200 | the verdict and the counters for each kind of error |
| `Backoff.RetriesAreModulo` | supervisor/tunnel.go:190-196 | a connection's counter is its number of dial errors modulo maxRetries + 1 |
| `Backoff.MaximumEverySoOften` | supervisor/tunnel.go:190-196 | the k-th dial error of a connection reports the maximum exactly when k is a multiple of maxRetries + 1, whatever happens in between |
| `Backoff.ProtocolFallback.SelectNextProtocol` | supervisor/tunnel.go:340-377 | in fields: with retries used up, or QUIC broken and a fallback, it switches to another fallback or gives up; otherwise it follows the current protocol unless in fallback |
| `Backoff.SwitchesWhenUsedUp` | supervisor/tunnel.go:349-376 | by the events alone: before maxRetries waits and with QUIC not broken no selection switches or gives up; from then on one told of another fallback moves there, and any other gives up |
| `Backoff.StartsOver` | supervisor/tunnel.go:327-336 | after connecting or switching, the next wait starts the retries over |
| `Backoff.FallbackSticks` | supervisor/tunnel.go:327-377 | however the selector changes, a connection in fallback stays in fallback until it has connected, and only another fallback it is told of replaces its protocol |
| `Backoff.InFallbackExactly` | supervisor/tunnel.go:327-336 | a connection is in fallback exactly if it switched and has not connected since |
| `Backoff.OnlyKnownProtocols` | supervisor/tunnel.go:340-377 | however the selector changes, a connection is on the current protocol or the fallback it was told of by the attempt that last moved it |
| `Backoff.LastMoveIsLast` | supervisor/tunnel.go:340-377 | the attempt OnlyKnownProtocols speaks of is the last that moved the connection |
| `Headers.DecodeEncode` | connection/header.go:43 | base64 decoding inverts encoding for all bytes, and both length formulas are exact |
| `Headers.KnownEncodings` | connection/header.go:43 | the encodings section 10 of RFC 4648 lists, without padding, and one with the last two letters |
| `Headers.DigitExactly` | connection/header.go:43 | a byte is a digit exactly if it is the letter of that value |
| `Headers.DecodeRefusesExactly` | connection/header.go:126-131 | a field is refused exactly if it has a byte that is neither a letter nor a line end, or one letter left over |
| `Headers.DecodedFits` | connection/header.go:123-131 | whatever decodes fits the buffer made for it |
| `Headers.SplitJoin` | connection/header.go:111-116 | splitting cuts at every separator and nowhere else |
| `Headers.Serialize` | connection/header.go:61-104 | for any two iteration orders, the output is the joined pairs in the second, and neither the builder nor the temporary buffer sized in the first has to grow |
| `Headers.Measure` | connection/header.go:63-78 | the first pass sums the sizes and finds a bound for every piece |
| `Headers.WritePair` | connection/header.go:83-100 | one pair is appended, with a semicolon exactly if something precedes it |
| `Headers.SerializedAppend` | connection/header.go:93-101 | writing a semicolon when the buffer is not empty joins all pairs, also those with empty names and values |
| `Headers.SizeIsEnough` | connection/header.go:63-80 | the computed length is one more than needed |
| `Headers.Deserialize` | connection/header.go:107-140 | the loop computes the reference parser, errors included |
| `Headers.RefusedExactly` | connection/header.go:112-131 | the whole is refused exactly if some non-empty piece is not two decodable fields |
| `Headers.HeaderRoundTrip` | connection/header.go:61-140 | every list of headers comes back exactly, in order |
| `Headers.KnownSerialization` | connection/header.go:92-101 | two headers on the wire, byte by byte |
| `Headers.MapRoundTrip` | connection/header.go:61-140 | for every header map and iteration order, exactly the map's pairs come back with multiplicity |
| `Headers.SerializedInjective` | connection/header.go:61-104 | no two header lists serialize alike |
| `Headers.FieldExact` | connection/header.go:123-136 | a field is exactly its decoded bytes unless line ends in it shorten the decoded length, and then zero bytes follow |
| `Headers.LineEndAddsZero` | connection/header.go:123-136 | a concrete field with a zero byte too many |
| `Orchestration.Orchestrator.constructor` | orchestration/orchestrator.go:44-61 | version -1 and the initial configuration applied, unless it cannot be |
| `Orchestration.Orchestrator.UpdateIngress` | orchestration/orchestrator.go:112-151 | refused after shutdown or if the origins do not start; otherwise proxy, configuration and flag change together and the previous proxy's channel is closed |
| `Orchestration.Orchestrator.UpdateConfig` | orchestration/orchestrator.go:64-109 | in fields: applied exactly if newer, parsed, before shutdown and startable; the response has the version now in force and an error exactly if a newer update was refused; nothing changes otherwise |
| `Orchestration.Orchestrator.WaitToCloseLastProxy` | orchestration/orchestrator.go:216-225 | the last channel is closed and forgotten |
| `Orchestration.SameUpdate` | orchestration/orchestrator.go:64-151 | in every run version, proxy, configuration and warp flag come from the same, last applied update |
| `Orchestration.VersionMonotone` | orchestration/orchestrator.go:64-109 | the version never decreases, and is unchanged over a stretch of a run exactly if nothing was applied in it |
| `Orchestration.ChannelsClosedOnce` | orchestration/orchestrator.go:145-149 | every channel but the last was closed exactly once; the last is open until shutdown is handled and then closed exactly once |
| `Orchestration.OneChannelPerUpdate` | orchestration/orchestrator.go:131-149 | one channel is installed per applied update |
| `Orchestration.NothingAfterShutdown` | orchestration/orchestrator.go:113-117 | after shutdown no run changes version, configuration or proxy |
| `Orchestration.NewestIsFirstGreatest` | orchestration/orchestrator.go:68-76 | the update that wins is the first with the greatest version, provided that is above the current one |
| `Orchestration.Converges` | orchestration/orchestrator.go:64-109 | applicable updates in any order, repeated or late, end with the configuration of that update |
| `DatagramSessions.Session.Close` | datagramsession/session.go:147-149 | one reason is sent, and there is room for it |
| `DatagramSessions.DeliveredStep` | datagramsession/session.go:129-136 | a datagram adds its payload to what the tracked session handed to its destination, and no other step adds anything to any session |
| `DatagramSessions.Session.ReadOnce` | datagramsession/session.go:58-126 | the reader sends and stops exactly when a read failed that no failed send hides, and there is room for the send |
| `DatagramSessions.WaitForCloseCondition` | datagramsession/session.go:83-111 | the wait ends at the first wake-up that cancels, closes, or comes longer than the idle time after the last activity |
| `DatagramSessions.Manager.RegisterSession` | datagramsession/manager.go:117-139 | the new session is tracked under its ID, in place of any other |
| `DatagramSessions.Manager.UnregisterSession` | datagramsession/manager.go:162-169 | the tracked session, if any, is forgotten and closed once |
| `DatagramSessions.Manager.SendToSession` | datagramsession/manager.go:171-180 | the datagram goes to the tracked session or nowhere |
| `DatagramSessions.Manager.ShutdownSessions` | datagramsession/manager.go:85-97 | every tracked session is closed exactly once, in any order |
| `DatagramSessions.RunInv` | datagramsession/manager.go:67-83 | the table and the channel accounting hold in every run |
| `DatagramSessions.CloseNeverBlocks` | datagramsession/manager.go:134-136 | at most one close from the manager and one send from the reader, so there is always room for both |
| `DatagramSessions.TableIsOwner` | datagramsession/manager.go:117-122 | the table records the most recent registration of each ID not unregistered since |
| `DatagramSessions.DatagramsReachTheOwner` | datagramsession/manager.go:171-180 | a session is given exactly the datagrams that came while it owned their ID |
| `DatagramSessions.DisplacedIsNeverClosed` | datagramsession/manager.go:117-122 | from any state, a session displaced by another registration is never closed by the manager, whatever follows |
| `DatagramSessions.ClosedExactly` | datagramsession/manager.go:85-122 | in every run the manager has not closed a session exactly if it was displaced, or is tracked and the manager still runs; no session is closed twice |
| `DatagramSessions.FirstReasonWins` | datagramsession/session.go:95-108 | in every run the reason a session ends with is the first one sent to it, by the manager or by its reader, and the others are still queued in order |
| `DatagramSessions.RegisteredTwice` | datagramsession/manager.go:85-122 | a run that registers an ID twice and shuts down leaves the first session open and closes the second once |
| `EchoIds.EchoIDTracker.constructor` | ingress/icmp_darwin.go:51-55 | nothing assigned |
| `EchoIds.EchoIDTracker.Get` | ingress/icmp_darwin.go:58-85 | the held ID, or the first free one, or a refusal, with the invariant kept |
| `EchoIds.EchoIDTracker.FindFree` | ingress/icmp_darwin.go:70-83 | a scanning loop finds the first free ID of its range |
| `EchoIds.EchoIDTracker.Assign` | ingress/icmp_darwin.go:88-92 | the ID is marked, mapped, and the next search starts after it |
| `EchoIds.EchoIDTracker.ReleaseID` | ingress/icmp_darwin.go:94-105 | releases exactly a held key with its own ID, with the invariant kept |
| `EchoIds.FirstFreeIsCyclic` | ingress/icmp_darwin.go:66-84 | the ID found is free and every ID the cyclic search meets before it is taken; none exactly when all are taken |
| `EchoIds.RefusedOnlyWhenFull` | ingress/icmp_darwin.go:58-85 | a flow is refused exactly when it holds no ID and 65535 flows do |
| `EchoIds.Run` | ingress/icmp_darwin.go:40-105 | in every run the mapping is injective and its range is exactly the IDs marked |
| `EchoIds.StableUntilReleased` | ingress/icmp_darwin.go:58-64 | a flow keeps its ID until it is released with that ID, whatever others do |
| `EchoIds.ReleasedComesLast` | ingress/icmp_darwin.go:37-49 | an ID just given and released is given next only if no other is free |
| `Funnels.FunnelTracker.GetOrRegisterFunnel` | packet/funnel.go:114-135 | keep, replace or register; a failure leaves the ID unregistered |
| `Funnels.FunnelTracker.UnregisterFunnel` | packet/funnel.go:138-151 | exactly an equal funnel is closed and forgotten, and the answer says whether the ID is free |
| `Funnels.FunnelTracker.CleanUp` | packet/funnel.go:90-102 | the loop, in any order, drops exactly the idle IDs |
| `Funnels.FunnelTracker.CloseAndDelete` | packet/funnel.go:126-127 | the funnel is closed once and forgotten, with the invariant kept |
| `Funnels.Run` | packet/funnel.go:90-151 | in every run each open funnel is registered under one ID and none is closed twice |
| `Funnels.OpenAreTracked` | packet/funnel.go:90-151 | the funnels made and not closed are exactly the map's values |
| `Funnels.CleanupExact` | packet/funnel.go:90-102 | cleaning up closes and forgets exactly the funnels idle for longer than the timeout and touches no other |

## Left out

- HTTP/2 framing, HPACK, header frames and the header chopping of the writer: frames are a datatype here.
- Brotli itself: the compressor is an arbitrary pair of functions with `LinkModel.Codec`; decompression errors do not occur in it.
- Pings, round-trip times, idle timers, metrics and logging; GOAWAY and the connection-wide abort as seen by a stream.
- The QUIC, TLS, RPC, DNS and ICMP sockets around the state machines; their outcomes are parameters of the steps.
- Time and randomness: parameters of the steps that use them.
- The stream protocol is for two ends with the same DefaultWindowSize, 0 < DefaultWindowSize <= MaxWindowSize <= 2^31-1, a write buffer limit below 2^32, one Write call at a time, and without compression, because Read gives back decompressed bytes.
- Appending to the read buffer and charging the receive window is one step of the stream protocol.
- The receiving side of the dictionaries refers to updates and readers by position and stream ID instead of by object reference, so aliasing is not captured there; the ready list, sessions, funnels and streams are objects.
- The application closing the read side of a compressed stream early, which runs concurrently with the receiver's frame loop, is not modelled.
- ReadDictionaries.H2ReadDictionaries.ReceiveUse: the frame on a connection without dictionaries, which the source refuses, is outside an object that has them.
- ReadDictionaries.H2ReadDictionaries.ReceiveSet: assumes a frame that describes the stream's first write before any of its data, as the writer sends it.
- The way startFirstTunnel keeps restarting the first tunnel is inside what initialize hears from it; the supervisor's own backoff delay is just an armed timer.
- ReadDictionaries.H2ReadDictionaries.Deliver: for data that decompresses to a part of the announced first write, as `CompressedLink` shows a compressing peer sends it; from any other peer the two ends' dictionaries differ and there is nothing to agree on.
- ReadDictionaries.H2ReadDictionaries.Decompress: the decompressor returns data or nothing, never an error.
- Whether a stream is compressed at all (method and content type) is decided by its caller here.
- The address pool (edgediscovery), the protocol selector's remote lookup and the decision which errors break QUIC: what one call hears of them is an input of that step, and may differ from step to step.
- Orchestration: a channel whose origins failed to start is never installed and not counted; parsing of the JSON document is an input.
- DatagramSessions: Serve is called once per session by its owner, and a lost activity mark when activeAtChan is full is a missing wake-up.
- The echo ID allocator and the funnel tracker are proved separately: replacing a funnel releases its echo ID, so their combination does not keep the two tables in step.
- Management log sessions, the SOCKS and carrier code, ingress rule matching, the command line and the API clients: easy members or plumbing.
