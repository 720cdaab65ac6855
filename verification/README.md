# A verified model of the LAN file transfer tool

The tool sends files and directories between machines in a local network. This project models the parts on which the
correctness of a transfer rests, in Dafny, and proves what they are for.

- **Delta engine** (`Checksum`, `BlockSignatures`, `Delta`, `DeltaTheorems`, `DeltaMatching`, `DeltaCopies`). The
  receiver signs the blocks of the file it has; the sender slides a window with an O(1) checksum over the new file and
  emits copies and literals; replaying them rebuilds the new file. A manifest carries no file hashes (`src/transfer/manifest.cpp:90`), so in a directory
  synchronisation nothing but the algorithm itself guarantees this.
- **Wire formats** (`Wire`, `Frames`, `FramedChannels`, `SyncCodec`, `SyncCodecTheorems`, `SyncCodecExactness`,
  `DeltaPlanCodec`, `WireLayout`, `SafePaths`, `Numbers`, `FileMetadata`, `FileMetadataMeaning`).
- **Directory synchronisation** (`Trees`, `SyncPlanning`, `FileStreams`, `FileSending`, `FileReceiving`, `Network`,
  `SyncSession`, `SyncSafety`, `SyncHosts`, `SyncTheorems`, `SyncLiveness`, `SyncFailure`, `SyncRuns`, `SyncOutcome`,
  `SyncTranscript`, `SyncReadiness`, `SyncExamples`, `LocalSync`). Both hosts are step machines over two FIFO channels of
  any capacity. The machines are deterministic and their moves commute, so one schedule that ends decides all of them.
  `SyncLiveness` and `SyncFailure`
  construct it, for sessions that succeed and for those that cannot. `SyncHosts` holds the two functions as they loop, each
  proved to make the moves of its machine; `SyncRuns` shows that in a session they end where the machines do. What holds
  against any sender at all is in `SyncSafety`; `LocalSync` is the same plan run on one host.
- **Send scheduler** (`SchedulerState`, `SchedulerConservation`, `SchedulerTheorems`, `SchedulerRuns`,
  `SchedulerOrder`, `SchedulerEffects`, `Scheduler`). Every section under the mutex is one step; runner threads report at
  any time.
  The methods of `Scheduler.TransferScheduler` are those steps, so the theorems about runs hold of every sequence of
  calls and reports.
- **Single-file transfer with resume** (`SingleFile`, `SingleFileTransfer`, `SingleFileSession`, `SingleFileRuns`): the
  two functions with their loops, the two hosts as step machines over the same channels, and what connects them.
- **Debounced record writer** (`RecordRepositoryState`, `RecordRepositoryTheorems`, `RecordRepositoryDebounce`,
  `RecordRepository`): a monitor with a condition variable, asleep and notified waiters included.

## How to read the model

- SHA-256 (section 6.2 of FIPS 180-4) is a parameter: any function from contents to text. Where a result needs that it
  tells two contents apart, this is said for the contents in play (`NoCollision`, `TellsApart`).
- Integers are unbounded and the program's widths are written out: checksums and counts modulo 2^32, 16-bit halves,
  sizes and offsets below 2^64, signed nanoseconds from unsigned ones.
- A file or connection marked faulty may fail at any call; one that is not never fails. Short reads cut a file anywhere.
- A directory is a map from path to contents, time and mode. The file clock's conversions may be off by any amount in
  either direction (`Platform`).
- "Honest hosts" (`SyncTheorems.Ready`) are a sender whose manifest describes its files, with distinct safe paths, and a
  receiver, such that frames and counts fit. A part file may take the file of another entry. That is not assumed away: it
  is shown to decide whether the session succeeds (`SyncFailure.SucceedsIffBlocksUnused`) and whether every file is right
  after a successful one (`SyncOutcome.SessionHoldsIffNoClash`).

## Where code and documentation, or code and expectation, differ

The model follows the code.

- `docs/protocol.md:193` says that a directory synchronisation verifies hashes before committing. The code verifies a
  hash only when the header carries one, and manifests carry none.
- `docs/protocol.md:141` lets a transfer continue from a part file. The guard around the part file removes it whenever
  a transfer fails, a dropped connection included, so only a part file left by a crash is ever continued
  (`SingleFileTransfer.ReceiveSingleFile`, `SingleFile.RetryStartsOver`).
- The guard on the block size before a streamed delta (`src/transfer/sync_session.cpp:427`) does not bound the last
  literal (`SyncOutcome.GuardIsTooWeak`; `OpsFitFrames` has the bound that suffices).
- A manifest with files `x` and `x.part` can lose the second, with success reported on both sides, or fail on both
  (`SyncExamples.PartFileIsLost`, `SyncTheorems.ClashLosesFile`, `SyncFailure.EveryScheduleFails`).
- A file that grew since the manifest was made is cut to its old size by a session and refused by a local run
  (`LocalSync.FullRunsAgreeIffNotGrown`).
- A file name with a newline arrives under another name (`FileMetadata.NewlineCutsName`).
- The count stored in a whole delta must be the number of its operations for it to be readable
  (`DeltaPlanCodec.DeltaPlanRoundTrip`).

## Model

| member | source | states |
|---|---|---|
| Checksum.WeakChecksum | src/transfer/block_signature.cpp:53-65 | The loop over wrapping 32-bit accumulators returns the checksum defined on unbounded sums modulo 2^16, of as many bytes as a 32-bit length counts. |
| Checksum.WeakOfIs | src/transfer/block_signature.cpp:53-65 | The low half is the sum of the bytes, the high half their sum weighted by how many follow; with numbers for three windows. |
| Checksum.SlideHalves | src/transfer/delta.cpp:88-93 | One slide in wrapping 32-bit arithmetic gives both halves of the checksum of the moved window, although the product of window length and byte may wrap. |
| Checksum.CutOfSum | src/transfer/delta.cpp:88-102 | Adding a product that wrapped at 2^32 and cutting to 16 bits is addition modulo 2^16: the wrap is invisible. |
| Checksum.RollingChecksum.FromWindow | src/transfer/delta.cpp:71-82 | A fresh rolling checksum tracks the window it is made from. |
| Checksum.RollingChecksum.Value | src/transfer/delta.cpp:84-86 | For every window the object tracks, the value is the weak checksum of that window computed from scratch. |
| Checksum.RollingChecksum.Slide | src/transfer/delta.cpp:88-93 | Dropping the first byte and adding one keeps the object tracking the moved window, for every window length and content. |
| BlockSignatures.BuildBlockSignatures | src/transfer/block_signature.cpp:96-149 | Whatever short reads do, the result signs consecutive blocks from the start to the end of the file with right index, offset, size and both checksums, all but the last of them whole when no read comes up short; it fails only for block size zero or a read error. |
| BlockSignatures.SignedBlocksRebuildBasis | src/transfer/block_signature.cpp:113-146 | The signed blocks one after the other are the basis: no gap, no overlap, right order. |
| Delta.BuildLookup | src/transfer/delta.cpp:26-32 | The index holds exactly the given signatures under their weak checksums, each key's in an arbitrary order. |
| Delta.DeltaStream.FindMatch | src/transfer/delta.cpp:38-67 | The lookup returns the first signature in iteration order with equal checksum, size and strong hash, or none when there is none. |
| Delta.DeltaStream.FillWindow | src/transfer/delta.cpp:132-148 | Filling keeps window, literal, sent operations and unread input together the same greedy result; the window ends full or the input is at its end. |
| Delta.DeltaStream.EmitOp | src/transfer/delta.cpp:217-233 | One operation is appended exactly when the callback takes it; a 33rd bit in the count, an error or a refusal sends nothing. |
| Delta.DeltaStream.FlushLiteral | src/transfer/delta.cpp:235-246 | The waiting literal becomes one operation if it is not empty, and nothing otherwise. |
| Delta.DeltaStream.SlideUntilMatch | src/transfer/delta.cpp:253-308 | One pass over a full window that slides a byte at a time, with the checksum updated and never recomputed, leaves the overall result unchanged and consumes input. |
| Delta.DeltaStream.Finish | src/transfer/delta.cpp:310-345 | The last short window and the waiting literal complete the greedy result. |
| Delta.StreamDeltaOps | src/transfer/delta.cpp:193-348 | The streaming matcher sends exactly the operations of a naive greedy matcher that recomputes every checksum; it stops early, after a prefix of them, only for a read error, a refusing callback or more than 2^32-1 operations, and without read errors exactly then. |
| Delta.BuildDelta | src/transfer/delta.cpp:152-191 | The collected delta has the source's size and hash and the naive matcher's operations with their count; without faults it fails exactly for block size zero, an unreadable source or too many operations. |
| Delta.ApplyDeltaOp | src/transfer/delta.cpp:370-398 | One operation appends its bytes, a literal's data or the range of the basis; without output faults it fails exactly when the basis is missing, the offset leaves 63 bits, or the range is not there. |
| Delta.ApplyDelta | src/transfer/delta.cpp:350-368 | Applying a list of operations produces its replay; without faults it succeeds exactly when the replay is defined. |
| Delta.ReplayNeedsEveryOp | src/transfer/delta.cpp:360-365 | One operation that cannot be applied makes the whole replay fail. |
| DeltaTheorems.NeverMissed | src/transfer/delta.cpp:38-67 | A window equal to a signed block is always matched, for every digest function. |
| DeltaTheorems.FoundIffBlock | src/transfer/delta.cpp:38-67 | Without a hash collision among the blocks and windows in play, a window is matched exactly when a signed block has the same bytes. |
| DeltaTheorems.DeltaRebuildsSource | src/transfer/delta.cpp:193-398 | For every basis, source, block size, cut of the basis by short reads and iteration order of the index, replaying the emitted operations over the basis gives the source, when the digest does not confuse a block with a window. |
| DeltaTheorems.CollisionCorrupts | src/transfer/delta.cpp:61-63 | The condition on the digest is needed: with a colliding one there are a basis and a source of the same size for which the rebuilt file is the basis. |
| DeltaTheorems.DeltaOpsShape | src/transfer/delta.cpp:235-345 | Operation sizes add up to the source, copies lie inside the basis, no literal is empty, all but the last literal are at most one block and the last at most max(block, 2*block-2). |
| DeltaTheorems.LiteralBoundReached | src/transfer/delta.cpp:331-345 | The bound on the last literal is reached: over an empty basis a source of 2*block-2 bytes is one literal. |
| DeltaTheorems.UnchangedFileSendsNoLiteral | src/transfer/delta.cpp:253-283 | A source equal to a basis signed in full blocks is sent as copies only. |
| DeltaMatching.DeltaFollowsMatches | src/transfer/delta.cpp:193-348 | From match to match, for every digest and index: block-sized literals up to the first window that is found anywhere, a copy of what it is found to be, and then exactly the operations of the bytes behind it as a source of their own; when nothing is found any more, literals up to the last, shorter window, which is copied if it is found. |
| DeltaMatching.EveryPosition | src/transfer/delta.cpp:253-345 | Over the whole list: no whole window is found at any position that a literal covers, and every copy is of what the window at its position is found to be. |
| DeltaCopies.CopiesIffWindowFound | src/transfer/delta.cpp:253-345 | For every digest and index, a delta copies from its basis if and only if some whole-block window of the source is found, or the last, shorter window is. |
| DeltaCopies.CopiesIffBlockOccurs | src/transfer/delta.cpp:193-348 | Without a collision, a delta copies if and only if a signed block of the basis occurs in the new file, a whole one anywhere, a shorter one as its last window. |
| Wire.BigEndianRoundTrip | src/protocol/frame.cpp:20-43 | Reading a big-endian number gives back what was written, for every width. |
| Wire.BigEndianCanonical | src/protocol/frame.cpp:20-43 | Writing a number that was read gives back its bytes, and it fits its width. |
| WireLayout.SomeNumbers | src/protocol/frame.cpp:20-43 | The most significant byte comes first. |
| Wire.ReadsText | src/transfer/sync_codec.cpp:38-93 | A length-prefixed string is read back, with whatever follows left over, exactly when its length fits 32 bits. |
| Frames.WriteFrame | src/protocol/frame.cpp:66-92 | A frame is written as header and body; a body over 64 MiB is refused before anything is written. |
| Frames.ReadFrame | src/protocol/frame.cpp:95-139 | What is read is the first frame of the stream and the rest stays; without connection errors it fails exactly when the stream does not begin with a frame. |
| Frames.CheckHeader | src/protocol/frame.cpp:101-124 | A header is accepted exactly with bytes 76, 70, 84, 80, version 1, a type from 1 to 11 and a size up to 67108864, and read field by field. |
| Frames.FramesRoundTrip | src/protocol/frame.cpp:66-139 | Writing any list of frames with bodies up to 64 MiB and reading as many gives the same types, flags and bodies and leaves the following bytes untouched. |
| Frames.TruncatedFrameRejected | src/protocol/frame.cpp:95-139 | No strict prefix of a frame is read as a frame. |
| WireLayout.FrameLayout | src/protocol/frame.cpp:66-92 | Which bytes of a frame hold magic, version, type number, flags, size and body. |
| FramedChannels.CutStream | src/protocol/frame.cpp:95-139 | A stream of frames cut off anywhere is read as the frames before the cut, with no frame left in what follows. |
| FramedChannels.ReadsWhatWasSent | src/protocol/frame.cpp:66-139 | However bytes are split into frames by a reader, what one end wrote is read at the other as the first of those frames, and as all of them when nothing is cut off. |
| FramedChannels.FramedChannel.Write | src/protocol/frame.cpp:66-92 | Writing frames to a byte channel has the contract of a connection of whole frames. |
| FramedChannels.FramedChannel.Read | src/protocol/frame.cpp:95-139 | So has reading: without faults it gives the next frame, and fails exactly when no complete frame is left. |
| SyncCodec.EncodeSyncPlan | src/transfer/sync_codec.cpp:305-320 | The encoder appends exactly the bytes of the plan's wire format. |
| SyncCodec.DecodeSyncPlan | src/transfer/sync_codec.cpp:322-378 | The decoder accepts exactly the bodies the format's grammar accepts as a whole, with the same value. |
| SyncCodec.EncodeManifest | src/transfer/sync_codec.cpp:257-266 | The encoder appends exactly the bytes of the manifest's wire format. |
| SyncCodec.DecodeManifest | src/transfer/sync_codec.cpp:268-303 | The decoder accepts exactly the manifests of both format versions, with safe paths, and nothing after them. |
| SyncCodec.DecodeDeltaOp | src/transfer/sync_codec.cpp:518-552 | The decoder accepts exactly the bodies of one operation. |
| SyncCodec.DecodeDeltaHeader | src/transfer/sync_codec.cpp:463-483 | The decoder accepts exactly the bodies of one header. |
| SyncCodec.DecodeDeltaEnd | src/transfer/sync_codec.cpp:491-506 | The decoder accepts exactly the bodies of one count. |
| SyncCodec.EncodeDeltaOp | src/transfer/sync_codec.cpp:508-516 | The encoder appends exactly the bytes of an operation's format. |
| SyncCodec.EncodeDeltaHeader | src/transfer/sync_codec.cpp:456-461 | The same for a header. |
| SyncCodec.EncodeDeltaEnd | src/transfer/sync_codec.cpp:485-489 | The same for an end with its count. |
| WireLayout.EntryLayout | src/transfer/sync_codec.cpp:143-149 | Where path, size, hash, time and mode of an entry stand. |
| WireLayout.SignatureLayout | src/transfer/sync_codec.cpp:207-213 | Where index, offset, size and both checksums of a signature stand. |
| WireLayout.PlanEntryLayout | src/transfer/sync_codec.cpp:305-320 | The action's number 0, 1 or 2, the entry, the number of signatures and the signatures. |
| WireLayout.PlanLayout | src/transfer/sync_codec.cpp:305-320 | Block size, number of entries and the entries. |
| WireLayout.ManifestLayout | src/transfer/sync_codec.cpp:257-266 | Magic, root name, number of files and the files. |
| WireLayout.ManyLayout | src/transfer/sync_codec.cpp:257-320 | The items of a list stand one after the other in order. |
| WireLayout.OpLayout | src/transfer/sync_codec.cpp:508-516 | The kind's number 0 or 1, offset, size, length and data of an operation. |
| WireLayout.HeaderLayout | src/transfer/sync_codec.cpp:456-461 | Size and hash of a header. |
| WireLayout.EndLayout | src/transfer/sync_codec.cpp:485-489 | The count of an end. |
| WireLayout.DeltaPlanLayout | src/transfer/sync_codec.cpp:380-395 | Size, hash, count and operations of a whole delta, with the number of operations for a count of zero. |
| WireLayout.OldManifestIsRead | src/transfer/sync_codec.cpp:268-303 | A manifest of the first version is read as its files. |
| WireLayout.EntryIsRead | src/transfer/sync_codec.cpp:170-203 | An entry is read back with its path normalised if that is safe, and refused otherwise. |
| WireLayout.UnknownCodesRefused | src/transfer/sync_codec.cpp:322-378 | Action numbers above two and operation numbers above one are refused. |
| SafePaths.SafeIff | src/transfer/sync_codec.cpp:129-141 | A path is safe exactly when it is not empty, does not begin with a slash, and nowhere between slashes holds one dot or two. |
| SafePaths.NormalisedIsSingle | src/transfer/sync_codec.cpp:167-167 | Normalising leaves no two slashes together and leaves a path without them as it is. |
| SafePaths.DoubleCountsOnce | src/transfer/sync_codec.cpp:167-167 | Two slashes together count as one. |
| SyncCodecTheorems.PlanRoundTrip | src/transfer/sync_codec.cpp:305-378 | A plan with nested entries and signatures, safe normalised paths and 32-bit lengths decodes to itself; every strict prefix and every extension of its body is rejected. |
| SyncCodecTheorems.ManifestRoundTrip | src/transfer/sync_codec.cpp:257-303 | The same for manifests. |
| SyncCodecTheorems.OpRoundTrip | src/transfer/sync_codec.cpp:508-552 | The same for delta operations. |
| SyncCodecTheorems.HeaderRoundTrip | src/transfer/sync_codec.cpp:456-483 | The same round trip for delta headers. |
| SyncCodecTheorems.EndRoundTrip | src/transfer/sync_codec.cpp:485-506 | The same round trip for delta ends. |
| SyncCodecTheorems.OpCanonical | src/transfer/sync_codec.cpp:508-552 | Encoding an accepted operation again gives the very bytes that were accepted. |
| SyncCodecExactness.PlanSurvivesIffEncodable | src/transfer/sync_codec.cpp:305-378 | A plan decodes to itself exactly when all its paths are safe and normalised and all its lengths and counts fit 32 bits. |
| SyncCodecExactness.ManifestSurvivesIffEncodable | src/transfer/sync_codec.cpp:257-303 | The same for manifests and their root names. |
| DeltaPlanCodec.EncodeDeltaPlan | src/transfer/sync_codec.cpp:380-395 | The encoder appends exactly the bytes of a whole delta's format. |
| DeltaPlanCodec.DecodeDeltaPlan | src/transfer/sync_codec.cpp:397-454 | The decoder accepts exactly the bodies of one whole delta. |
| DeltaPlanCodec.DeltaPlanRoundTrip | src/transfer/sync_codec.cpp:380-454 | A whole delta decodes to itself exactly when its stored count is the number of its operations; a count of zero comes back filled in, and any other count, or more than 2^32-1 operations, is rejected. |
| SyncPlanning.BuildSyncPlan | src/transfer/sync_plan.cpp:105-160 | The plan has, per manifest entry in order, the action the files call for and, for a delta, signatures of the file there; without faults it fails exactly for block size zero or an unsafe path. |
| SyncPlanning.SkipIs | src/transfer/sync_plan.cpp:53-98 | A file is skipped, with a manifest hash, exactly when size and hash are its own, and without one exactly when the size is and the time lies within 1,000,000 ns and not before the epoch. |
| FileSending.SendChunks | src/transfer/sync_session.cpp:353-391 | Reading chunk by chunk, with reads that may fail or come up short, sends the chunks of the first manifest-size bytes; without faults it fails exactly when the source is too short or the count too large, with all chunks before that on the wire. |
| FileSending.SendFullStream | src/transfer/sync_session.cpp:318-414 | Success means begin, chunk and end frames of exactly the first manifest-size bytes were sent; without faults it succeeds exactly when source, chunk size, count and frames allow, and on failure what precedes the break is on the wire and nothing else. |
| FileSending.SendStreamingDelta | src/transfer/sync_session.cpp:416-493 | Success means the frames of the naive matcher's operations with their count were sent; without faults it succeeds exactly when source, block size, count and every frame allow, and on failure the frames before the first that cannot be sent are on the wire and nothing else. |
| FileReceiving.AcceptedStreamsCarryFiles | src/transfer/sync_session.cpp:195-316 | For any incoming frames, a stream is accepted only if it carries a file: matching header, operations that replay over the basis, their exact number in the end frame, manifest size, and the announced hash if any. |
| FileReceiving.AcceptedHasItsHashes | src/transfer/sync_session.cpp:132-167 | What is accepted has the manifest's size, the manifest's hash if any, and the header's hash if any. |
| FileReceiving.FileStreamsAreAccepted | src/transfer/sync_session.cpp:195-316 | Every stream that carries a file is accepted with the data it carries. |
| FileReceiving.ApplyDeltaStreamToTarget | src/transfer/sync_session.cpp:195-316 | For any incoming frames: without a commit the target and all other files are as before and no part file is left; a commit replaces only the target, with the accepted data; after it only the metadata step can fail. |
| FileReceiving.CommitPart | src/transfer/sync_session.cpp:132-193 | The part file is renamed over the target only with the manifest's size and the announced hash; on success the target has the data, the manifest's time through the file clock, and its low twelve mode bits if there are any, and otherwise the mode of a new file. |
| Network.Diamond | src/transfer/sync_session.cpp:690-1015 | When both hosts can move, the order of the two moves does not matter, whatever the channel capacity. |
| Network.AnySchedule | src/transfer/sync_session.cpp:690-1015 | If one schedule ends, every schedule can be completed to the same end in the same number of moves: no other deadlock, no endless run, no other result. |
| SyncLiveness.SomeScheduleSucceeds | src/transfer/sync_session.cpp:690-1015 | From the start of a session of honest hosts in which every stream finds the basis it copies from, some schedule ends with success on both sides. |
| SyncLiveness.EveryScheduleSucceeds | src/transfer/sync_session.cpp:690-1015 | However the hosts of such a session are interleaved, over channels of any capacity from one frame up, it can always go on to success on both sides, stops nowhere else, ends with the directory that committing the sender's bytes entry by entry gives, and with reports that agree. |
| SyncTranscript.SenderAlwaysSays | src/transfer/sync_session.cpp:690-834 | Against any peer and under every schedule, what the sender has written so far is determined by where it is and the plan it has read. |
| SyncTranscript.ReceiverAlwaysSays | src/transfer/sync_session.cpp:902-1015 | The same of the receiver and the manifest it has read. |
| SyncTranscript.Transcript | src/transfer/sync_session.cpp:690-1015 | Frame by frame what both hosts say in a successful session, and that both payload counts are the bytes of the streams' bodies. |
| Network.FirstInFirstOut | src/transfer/sync_session.cpp:690-1015 | What has been said is what has been heard, in order, and what is still in the channel. |
| SyncFailure.SenderRunsOut | src/transfer/sync_session.cpp:769-834 | Against a receiver that has complained and stopped, the sender writes what the channel holds and then fails: on the complaint if the rest of the stream fits the channel, else on a write. |
| SyncFailure.EveryScheduleFails | src/transfer/sync_session.cpp:690-1015 | When some stream copies from a basis that a part file has taken, then under every schedule and capacity the session ends at the first such entry: both hosts failed, the files before it done, the directory otherwise as it was, its part file gone. |
| SyncFailure.SucceedsIffBasesServe | src/transfer/sync_session.cpp:690-1015 | A session of honest hosts that has come to rest has succeeded on the sender, and on the receiver, if and only if every stream finds the basis it copies from; otherwise both have failed. |
| SyncFailure.SucceedsIffBlocksUnused | src/transfer/sync_session.cpp:690-1015 | The same as a condition on names and contents that can be checked before the session: no file whose copy is taken for an earlier file's part file has a signed block of that copy in it. |
| SyncFailure.SchedulesAreBounded | src/transfer/sync_session.cpp:690-1015 | No schedule of honest hosts runs forever, whether the session succeeds or fails. |
| SyncExamples.PartFileIsLost | src/transfer/sync_session.cpp:957-1014 | A concrete pair of files: with x and x.part on the sender and the same x.part on the receiver, every schedule loses x.part; both hosts report success when its time there is recent, and both fail when it is not. |
| SyncHosts.SyncReceiver | src/transfer/sync_session.cpp:902-1015 | The receiving function, with its loops over entries and frames, makes exactly the moves of the receiver's step machine and leaves its directory, on success and on every failure that is not one of its own connection or disk. Whatever arrives and whatever fails, without a manifest nothing changes, and with one only complete files with its size and hash appear at its paths and only part files of its paths vanish. |
| SyncHosts.ReceiveManifestAndSendPlan | src/transfer/sync_session.cpp:541-598 | The receiver's half of the negotiation runs the planner and goes through the machine's states from the manifest to the first entry, or to its complaint; the plan is about the entries of the manifest received. |
| SyncHosts.ReceiveFile | src/transfer/sync_session.cpp:973-991 | Receiving one file goes through the machine's states frame by frame, to the acknowledgement or the complaint; whatever fails, the directory is unchanged, has lost the part file, or has the complete file. |
| SyncHosts.SendFile | src/transfer/sync_session.cpp:769-806 | Sending one file writes the frames of the machine's transmission, all of them or up to where it breaks off. |
| SyncHosts.SyncSender | src/transfer/sync_session.cpp:690-834 | The sending function makes exactly the moves of the sender's step machine and writes exactly its frames, on success and on every failure that is not one of its own connection or files. |
| SyncHosts.SendManifestAndReceivePlan | src/transfer/sync_session.cpp:495-539 | The sender's half of the negotiation goes through the machine's states from the hello to the first entry, or to failure. |
| SyncHosts.PlannerIsMachine | src/transfer/sync_session.cpp:579-598 | Whatever plan the planner builds for safe paths is the plan of the machine whose reads cut the bases the same way. |
| SyncHosts.EarlyMovesAgree | src/transfer/sync_session.cpp:541-580 | Until the plan is made, a receiver's moves do not depend on how its reads will cut the bases. |
| Network.LeftView | src/transfer/sync_session.cpp:690-834 | A host's part in any run, unless a write to a stopped peer stopped it, is what it does on its own when all it will ever be sent is there from the start. |
| SyncRuns.ReceiverEndsSession | src/transfer/sync_session.cpp:902-1015 | Given the frames the sender says in a session, the receiving function ends in the session's end, with its directory, having written what the receiver says there. |
| SyncRuns.SenderEndsSession | src/transfer/sync_session.cpp:690-834 | The same of the sending function, unless the session stopped it at a write to a receiver that had given up. |
| SyncSafety.NoSenderCanHarm | src/transfer/sync_session.cpp:902-1015 | Whatever machine is at the other end and however the two are interleaved: while no manifest has been read the directory is as it was; after that every move keeps it safe with respect to that one manifest. |
| SyncSafety.SessionIsSafe | src/transfer/sync_session.cpp:902-1015 | From the start of a session: without a manifest among the frames read nothing has changed; with one, every file is as it was or is what an entry of that manifest promises at its own path, with size, hash if any, time and mode, and what is gone is the part file of one of its entries. |
| SyncTheorems.BasisIntact | src/transfer/sync_session.cpp:957-1001 | Unless an earlier transfer takes it for its part file, the basis of a delta entry is still what was signed when its turn comes. |
| SyncTheorems.BasisGone | src/transfer/sync_session.cpp:220-308 | Once taken it is gone, and still gone when the entry's turn comes. |
| SyncTheorems.BystandersUntouched | src/transfer/sync_session.cpp:957-1001 | A path that is neither a transferred entry nor the part file of one is left as it was. |
| SyncTheorems.AllHeldIffNoClash | src/transfer/sync_session.cpp:114-118 | After all entries every file of the manifest is right exactly when no transferred entry's part name is the name of a file skipped or written before it. |
| SyncTheorems.ClashLosesFile | src/transfer/sync_session.cpp:301-308 | After such a clash the file is gone from the directory. |
| SyncTheorems.CopyIsRefused | src/transfer/sync_session.cpp:254-282 | Over a basis that is gone a stream is taken up to its first copy and refused exactly there. |
| SyncTheorems.LostBasisIsRefused | src/transfer/sync_session.cpp:254-282 | A stream that copies from a basis that is gone ends refused, whatever else it holds. |
| SyncTheorems.EntryStreamAccepted | src/transfer/sync_session.cpp:781-806 | The frames an honest sender makes for an entry carry the sender's file and are accepted with it, over the basis that was signed or, without copies, over any. |
| Trees.SignedNsIsTwosComplement | src/transfer/sync_session.cpp:169-175 | The time that is set is the manifest's 64 bits read as a signed number. |
| SyncReadiness.SyncIsReady | src/transfer/sync_plan.cpp:37-51 | Into any directory: hosts meet all conditions of a session as soon as the manifest describes files below 4 GiB under distinct clean paths, the frames of the negotiation fit, and each file that needs a delta is signed as it is with a block size whose largest literal fits a frame. |
| SyncReadiness.FirstSyncIsReady | src/transfer/sync_plan.cpp:37-51 | Into an empty directory every file is sent whole, every stream serves, and the conditions are those on manifest and frames alone. |
| SyncOutcome.SessionHoldsIffNoClash | src/transfer/sync_session.cpp:957-1014 | After any successful session, however scheduled, every file of the manifest is right exactly when no part name clashes with a file of the plan. |
| SyncOutcome.SentFilesAsPromised | src/transfer/sync_session.cpp:957-1014 | Under every schedule a successful session leaves each sent file that no part name takes with the sender's bytes, the manifest's time through the file clock and the manifest's mode bits. |
| SyncOutcome.ResyncSkipsIffSettled | src/transfer/sync_plan.cpp:81-98 | The plan made right after a session, with clock readings of its own, skips everything exactly when no file was lost to a part name and every file is recognised: those sent by set plus second reading error, those skipped by their old time and the second reading error. |
| SyncOutcome.ResyncIsSilent | src/transfer/sync_session.cpp:690-1015 | Under every schedule a second session then ends well, sends no file, counts everything as skipped and leaves the directory as it is. |
| SyncOutcome.ReportsAddUp | src/transfer/sync_session.cpp:754-834 | After any successful session, however scheduled, skipped, full and delta files add up to the manifest in both reports, which agree; frames sent equal files written; payload sent equals payload received. |
| SyncOutcome.OpsFitFrames | src/transfer/sync_session.cpp:48-49 | When the largest possible literal fits a frame, every operation of every delta does. |
| SyncOutcome.GuardIsTooWeak | src/transfer/sync_session.cpp:427-430 | The sender's guard on the block size is weaker: for every digest and every block size it lets through beyond that, some source is one literal that no frame can carry. |
| SyncOutcome.SmallDeltaSendable | src/transfer/sync_session.cpp:416-493 | Any source below 4 GiB can be sent as a delta when the largest literal fits a frame. |
| LocalSync.ExecuteLocalSync | src/transfer/sync_executor.cpp:278-312 | Success leaves the tree and the report of the specified run over all entries, and each file written and not disturbed later has the manifest's size, hash, time and mode bits; an error means a fault or an entry that cannot be written, and leaves the tree of the entries before it without its part file or, after a fault of the last step, with its file in place. |
| LocalSync.WriteFullFile | src/transfer/sync_executor.cpp:209-237 | A full copy is committed with the manifest's size and hash, or, whatever fails, nothing but the part file changes and that is gone; after the commit only setting times and mode can fail. |
| LocalSync.WriteDeltaFile | src/transfer/sync_executor.cpp:239-274 | The same for a file rebuilt from its own basis. |
| LocalSync.LocalAfterIsTreeAfter | src/transfer/sync_executor.cpp:278-312 | As long as every stream finds its basis, a local run of the plan writes the sender's files entry by entry. |
| LocalSync.LocalStopsAtMissing | src/transfer/sync_executor.cpp:289-307 | It fails at the first entry whose delta copies from a basis that is gone. |
| LocalSync.LocalAgreesWithNetwork | src/transfer/sync_executor.cpp:278-312 | From the same manifest and plan the local run succeeds if and only if the networked session does, under any schedule, and then leaves the same tree and reports the same skip, full and delta counts. |
| LocalSync.LocalFailsLikeNetwork | src/transfer/sync_executor.cpp:278-312 | When they fail they fail at the same entry and leave the same tree. |
| LocalSync.FullRunsAgreeIffNotGrown | src/transfer/sync_executor.cpp:132-146 | Outside those conditions they differ: for a file that may have grown since the manifest, both write the same exactly when it has not. |
| SchedulerConservation.StepConserves | src/app/transfer_scheduler.cpp:203-477 | No call and no report loses, duplicates or reuses a task id. |
| SchedulerRuns.TasksAreConserved | src/app/transfer_scheduler.cpp:240-477 | In every reachable state every id below the next one is in exactly one of queue, paused, running and retired, once; no other id is anywhere. |
| SchedulerRuns.LimitsHoldAndNothingIdles | src/app/transfer_scheduler.cpp:598-624 | In every reachable state at most 8 tasks run, 4 per machine; no start was ever made at or above the limits of its moment, lowered limits included; and no queued task is startable unless the global limit is reached. |
| SchedulerRuns.NoReportIsLost | src/app/transfer_scheduler.cpp:681-709 | A runner thread that reports finds its entry unless everything was stopped; the entry stays marked until it is reaped or stopped, and the next pump removes it. |
| SchedulerRuns.ReachableKeeps | src/app/transfer_scheduler.cpp:598-780 | Every reachable state is conserved, its reports tracked, its attempts recorded once each, its limits kept, and its queue not waiting needlessly; only threads that have reported are ever joined under the mutex. |
| SchedulerRuns.StepNeverIdle | src/app/transfer_scheduler.cpp:598-624 | Every locked section, also those that start nothing, leaves no startable task waiting. |
| SchedulerRuns.CancelledIsGone | src/app/transfer_scheduler.cpp:389-400 | A waiting task that is cancelled is neither queued nor paused afterwards and is retired as cancelled. |
| SchedulerRuns.CancelledPeerIsGone | src/app/transfer_scheduler.cpp:402-445 | After a machine is cancelled nothing waits for it. |
| SchedulerRuns.MovedIsReaddressed | src/app/transfer_scheduler.cpp:296-336 | A waiting task that is moved is for its new machine wherever it is afterwards, even if it was started at once. |
| SchedulerEffects.EnqueuedEffect | src/app/transfer_scheduler.cpp:240-261 | A new task has the next id, the machine and the path given, and every other task keeps its record. |
| SchedulerEffects.EnqueuedManyEffect | src/app/transfer_scheduler.cpp:263-294 | The k-th distinct non-empty machine gets the k-th new id with the path given, and every other task keeps its record. |
| SchedulerEffects.FirstNamesAre | src/app/transfer_scheduler.cpp:263-294 | The machines counted are the non-empty ones named, each once. |
| SchedulerEffects.MovedEffect | src/app/transfer_scheduler.cpp:296-336 | A moved task keeps its path and is for its new machine, and every other task keeps its record. |
| SchedulerEffects.PausedEffect | src/app/transfer_scheduler.cpp:338-364 | A paused task is held as it was and queued no more, and every other task keeps its record. |
| SchedulerEffects.ResumedEffect | src/app/transfer_scheduler.cpp:366-387 | A resumed task waits again as it was or has been tried, and every other task keeps its record. |
| SchedulerEffects.CancelledEffect | src/app/transfer_scheduler.cpp:389-400 | Cancelling one task leaves every other one, and running ones that have not reported. |
| SchedulerEffects.CancelledPeerEffect | src/app/transfer_scheduler.cpp:402-445 | Cancelling a machine leaves every task of the others. |
| SchedulerEffects.StoppedEffect | src/app/transfer_scheduler.cpp:447-467 | After stopping everything nothing waits, is paused or runs, and all of it is retired as stopped. |
| SchedulerEffects.PumpedEffect | src/app/transfer_scheduler.cpp:469-477 | A pump takes every report and leaves every other task its record. |
| SchedulerEffects.ReportedEffect | src/app/transfer_scheduler.cpp:771-780 | A report marks its entry and nothing else. |
| SchedulerEffects.LimitsEffect | src/app/transfer_scheduler.cpp:203-212 | The limits are the numbers given, kept between 1 and 8 and between 1 and 4. |
| SchedulerEffects.UpsertedEffect | src/app/transfer_scheduler.cpp:224-232 | A machine is known as it was last described, and the others as before. |
| SchedulerEffects.ErasedEffect | src/app/transfer_scheduler.cpp:234-238 | An erased machine is not known, and nothing else changes. |
| SchedulerEffects.StepStartsRightly | src/app/transfer_scheduler.cpp:598-624 | Whatever a call starts was waiting, for a machine that is there, linked and online, and could be started. |
| SchedulerEffects.WaitsForAReason | src/app/transfer_scheduler.cpp:598-624 | In every reachable state below the global limit, a waiting task's machine is not there, not linked, not online, or has as many running as one machine may. |
| SchedulerOrder.StartedInQueueOrder | src/app/transfer_scheduler.cpp:598-624 | Over whole runs, of two tasks queued for one machine the later is never tried before the earlier, unless one is moved, paused or cancelled or all is stopped. |
| SchedulerOrder.AlwaysDrains | src/app/transfer_scheduler.cpp:469-477 | From every reachable state, reports and pumps alone lead to a state in which no task of a ready machine waits. |
| SchedulerOrder.FairUpkeepDrains | src/app/transfer_scheduler.cpp:469-477 | However reports and pumps are mixed and whatever can be started: after as many pumps at which all started threads have reported as tasks were waiting, no task of a ready machine waits. |
| SchedulerOrder.EveryRoundsDrain | src/app/transfer_scheduler.cpp:469-477 | From every reachable state, as many rounds of reports of all live threads and a pump as tasks are waiting leave no such task waiting. |
| SchedulerOrder.PumpMakesProgress | src/app/transfer_scheduler.cpp:469-477 | Once all threads have reported, a pump shortens a queue that holds a task of a ready machine. |
| Scheduler.TransferScheduler.StartNextLocked | src/app/transfer_scheduler.cpp:598-624 | The loop, whose queue shrinks each time, performs the specified sequence of starts. |
| Scheduler.TransferScheduler.StartSenderLocked | src/app/transfer_scheduler.cpp:626-695 | A task that has left the queue becomes running with a live thread when its machine is there and linked and it can be started, and otherwise retires as failed. |
| Scheduler.TransferScheduler.ReapCompletedLocked | src/app/transfer_scheduler.cpp:697-709 | The loop removes exactly the running entries marked completed. |
| Scheduler.TransferScheduler.RunningCountForPeerLocked | src/app/transfer_scheduler.cpp:751-759 | The loop counts the running tasks of a machine. |
| Scheduler.TransferScheduler.EraseQueued | src/app/transfer_scheduler.cpp:721-734 | The in-place erasing loop leaves the other tasks in their order. |
| Scheduler.TransferScheduler.EnqueueSendToPeers | src/app/transfer_scheduler.cpp:263-294 | One consecutive new id for each distinct non-empty machine named, in the order of first mention, and each task is for its machine with the path given; the call is one step of the machine. |
| Scheduler.TransferScheduler.MoveQueuedTask | src/app/transfer_scheduler.cpp:296-336 | The call is one step of the machine and answers whether a waiting task was found for a non-empty target. |
| Scheduler.TransferScheduler.PauseTask | src/app/transfer_scheduler.cpp:338-364 | The call answers whether the task was queued, and then holds it with its record; it is one step of the machine. |
| Scheduler.TransferScheduler.ResumeTask | src/app/transfer_scheduler.cpp:366-387 | The call answers whether the task was paused, and then it waits or has been tried with its machine and path; it is one step of the machine. |
| Scheduler.TransferScheduler.CancelTask | src/app/transfer_scheduler.cpp:389-400 | The call is one step of the machine and keeps the invariant. |
| Scheduler.TransferScheduler.CancelPeer | src/app/transfer_scheduler.cpp:402-445 | The call is one step of the machine and keeps the invariant. |
| Scheduler.TransferScheduler.MarkCompleted | src/app/transfer_scheduler.cpp:771-780 | The report of a live thread is one step of the machine and keeps the invariant. |
| Scheduler.TransferScheduler.SetLimits | src/app/transfer_scheduler.cpp:203-212 | The call clamps both limits, is one step of the machine and keeps the invariant. |
| Scheduler.TransferScheduler.UpsertPeer | src/app/transfer_scheduler.cpp:224-232 | The call is one step of the machine and keeps the invariant. |
| Scheduler.TransferScheduler.ErasePeer | src/app/transfer_scheduler.cpp:234-238 | The second half of removing a machine is one step and keeps the invariant. |
| Scheduler.TransferScheduler.EnqueueSend | src/app/transfer_scheduler.cpp:240-261 | The call issues the next id; a task with that id, the machine and the path given then waits, runs, or could not be started; the call is one step of the machine. |
| Scheduler.TransferScheduler.Pump | src/app/transfer_scheduler.cpp:469-477 | The call is one step of the machine and keeps the invariant. |
| Numbers.ParseSize | src/common/parse.cpp:63-107 | The parser returns digits times unit exactly when that fits 64 bits and the text has that form, and fails otherwise. |
| Numbers.GuardIsExact | src/common/parse.cpp:101-104 | The overflow guard, which divides, refuses exactly the products that would not fit 64 bits. |
| Numbers.SizeOfPrinted | src/common/parse.cpp:63-107 | A printed number followed by a unit in any letter case means that many units, or is refused when they do not fit. |
| Numbers.SizeOfDigits | src/common/parse.cpp:63-107 | Any digits with a unit mean their value times the unit, or are refused. |
| Numbers.UnitsAre | src/common/parse.cpp:63-107 | The units are 1, 1024, 1048576 and 1073741824, written b, k, m and g, or kb, kib and so on, in any case. |
| Numbers.SomeSizes | src/common/parse.cpp:63-107 | 1KiB, 20MB, 3g and 7t as numbers. |
| Numbers.SizeRoundTrip | src/common/parse.cpp:63-107 | Every 64-bit number survives printing and parsing. |
| FileMetadata.DecodeFileBegin | src/transfer/file_metadata.cpp:37-107 | The loop over lines reads the text as specified, line by line, later fields over earlier ones. |
| FileMetadata.DecodeBeginAck | src/transfer/file_metadata.cpp:114-163 | The same for acknowledgements, with the two short forms. |
| FileMetadata.FileBeginRoundTrip | src/transfer/file_metadata.cpp:29-107 | What is announced is what is read, for every 64-bit size, exactly when name and hash are non-empty and hold no newline; names may hold the separator. |
| FileMetadata.NewlineCutsName | src/transfer/file_metadata.cpp:29-107 | A file named with a newline is announced under one name and read under another. |
| FileMetadata.BeginAckRoundTrip | src/transfer/file_metadata.cpp:109-163 | Every acknowledgement is read as it was written. |
| FileMetadataMeaning.AnnouncementMeans | src/transfer/file_metadata.cpp:37-107 | An announcement is read exactly when every size, resume and source line is allowed and name, size and hash are there; the last line of each key counts, unknown keys do not, and resume is on and the source plain when not said. |
| FileMetadataMeaning.AckMeans | src/transfer/file_metadata.cpp:114-163 | The same of an acknowledgement, with its two short forms. |
| FileMetadataMeaning.AnnouncementIsWritten | src/transfer/file_metadata.cpp:29-35 | The lines of an announcement byte by byte. |
| FileMetadataMeaning.AckIsWritten | src/transfer/file_metadata.cpp:109-112 | The lines of an acknowledgement byte by byte. |
| SingleFile.ChunkRoundTrip | src/transfer/chunk_codec.cpp:32-50 | A chunk body gives back its offset and its data. |
| WireLayout.ChunkLayout | src/transfer/chunk_codec.cpp:32-50 | Eight bytes of offset, then the data. |
| SingleFile.PartStaysInBounds | src/transfer/single_file.cpp:650-692 | For any incoming frames the part file holds what it started with and then the chunks in order, and never more than the declared size, so the subtraction in the size check never underflows. |
| SingleFile.EndedIffInOrder | src/transfer/single_file.cpp:650-692 | Exactly an end frame behind chunks that follow each other from where the part file ends, each at its own offset and within the size, is taken, and then the part file holds what it started with and their data. |
| SingleFile.OpeningIs | src/transfer/single_file.cpp:193-298 | In terms of the directory: which names are refused, when a file counts as held, and from which offset any other is wanted, which is the size of the part file when it may be resumed and is shorter than the file, and zero otherwise. |
| SingleFile.ResumeSucceedsIffPrefix | src/transfer/single_file.cpp:270-298 | With an honest sender only what the part file next to the target lacks is sent, and the target becomes the source exactly when that part file is a prefix of it; any other part file makes the transfer fail, provided the digest tells the two results apart. |
| SingleFile.FreshTransferSucceeds | src/transfer/single_file.cpp:439-483 | From offset zero the source is always delivered, however reads cut it. |
| SingleFile.RetryStartsOver | src/transfer/single_file.cpp:620-730 | After a failed resume the part file is gone and the next attempt delivers the source. |
| SingleFile.HeldFileIsSkipped | src/transfer/single_file.cpp:569-607 | A file the receiver already has is announced and ended with nothing sent, and accepted. |
| SingleFileTransfer.TakeChunks | src/transfer/single_file.cpp:650-692 | At every moment the part file's length is the byte count; the loop computes the specified reading of the frames and touches no other file. |
| SingleFileTransfer.CommitReceived | src/transfer/single_file.cpp:694-730 | The rename happens only with the announced size and hash; otherwise nothing changes. |
| SingleFileTransfer.ReceiveSingleFile | src/transfer/single_file.cpp:529-746 | For any incoming frames: success stores exactly the accepted file, or finds it there, after answering with the size of the part file that may be resumed and is shorter than the file, with zero when there is none, and as complete when the file is held; what is stored has the announced name, size and hash, and replaces an existing file only with leave; without a commit nothing but the part file of the announced target changes; only the last acknowledgement can fail after the commit; without faults it succeeds exactly when the frames are acceptable. |
| SingleFileTransfer.SendSingleFile | src/transfer/single_file.cpp:349-494 | Success means an honest transfer of the source from the acknowledged offset was sent; without faults and oversized frames it succeeds exactly when the receiver's answers allow. |
| SingleFileTransfer.AnswersAreUnderstood | src/transfer/single_file.cpp:160-180 | The receiver's answers are read by the sender as they were meant. |
| SingleFileTransfer.TransferMeets | src/transfer/single_file.cpp:349-746 | Both sides together: the sender goes on from the offset the receiver chose, what it sends leads to the same answer, and it is accepted as the source exactly when the part file kept is a prefix of it, or as what is held already. |
| SingleFileSession.EveryScheduleEnds | src/transfer/single_file.cpp:349-746 | Both hosts as machines over channels of any capacity: under every schedule a transfer can always go on to its end and rests only there; it succeeds on both sides exactly when the file is held or the part file kept is a prefix of it, and then the receiver has exactly the source, while otherwise both fail and the target is untouched. |
| SingleFileSession.TransfersAreBounded | src/transfer/single_file.cpp:349-746 | No schedule of a transfer runs forever. |
| SingleFileSession.SecondTransfer | src/transfer/single_file.cpp:529-746 | The next transfer of the same file sends nothing after a success, and delivers the source after a failure because of the part file; two attempts always suffice. |
| SingleFileRuns.ReceiverAlone | src/transfer/single_file.cpp:529-746 | For any incoming frames the receiving machine stores exactly the accepted file and answers as the receiving function does, or fails with the tree that function leaves. |
| SingleFileRuns.SenderAlone | src/transfer/single_file.cpp:349-494 | For any answers the sending machine succeeds exactly when the sending function can, having sent an honest transfer from the acknowledged offset. |
| SingleFileRuns.FunctionsMeet | src/transfer/single_file.cpp:349-746 | In a transfer at rest, each function run on what the other host has said ends as its host did. |
| RecordRepositoryTheorems.FlushTellsTheTruth | src/gui/transfer_record_repository.cpp:65-75 | In every interleaving, when a flush answers yes the last write attempted was of the latest records, and if no error is reported then the file holds them. |
| RecordRepositoryTheorems.NothingLeftBehind | src/gui/transfer_record_repository.cpp:82-121 | When the worker has exited, everything ever requested has been attempted. |
| RecordRepositoryTheorems.PendingFlushIsDirty | src/gui/transfer_record_repository.cpp:65-70 | Before the stop a pending flush request means that there is something to write. |
| RecordRepositoryTheorems.NeverStuck | src/gui/transfer_record_repository.cpp:82-121 | No wake-up is lost: whoever sleeps although its condition holds is about to be notified, and when the worker has nothing to do the flush condition holds or, after a stop, it has exited. |
| RecordRepositoryTheorems.FewStepsLeft | src/gui/transfer_record_repository.cpp:82-121 | As long as nothing new is requested, at most ten productive steps of the worker are ever left, whatever else happens. |
| RecordRepositoryTheorems.ShutdownEnds | src/gui/transfer_record_repository.cpp:20-31 | Under any schedule the worker exits after a bounded number of its own steps once stopped, with the latest records attempted, and in the file if no error is reported. |
| RecordRepositoryDebounce.BatchesAreDebounced | src/gui/transfer_record_repository.cpp:94-108 | In every interleaving a batch is taken only for a stop, for a flush, or when a wait is over during which nothing has been requested, as far as the 64-bit counter shows. |
| RecordRepositoryDebounce.RequestsRestartTheWait | src/gui/transfer_record_repository.cpp:94-102 | A request during the wait makes it begin again at the worker's next look, and nothing is taken. |
| RecordRepositoryDebounce.DirtyBeginsTheWait | src/gui/transfer_record_repository.cpp:94-102 | With something to write and neither stop nor flush the worker begins to wait and takes nothing. |
| RecordRepository.TransferRecordRepository.StartFlush | src/gui/transfer_record_repository.cpp:65-75 | The first look of a flush is one step of the monitor; it answers yes exactly when nothing is pending or being written, and then all is saved. |
| RecordRepository.TransferRecordRepository.WakeFromDebounce | src/gui/transfer_record_repository.cpp:94-108 | Each wake-up in the debounce wait is one step of the monitor and takes a batch of the latest records exactly when it should. |
| RecordRepository.TransferRecordRepository.RequestSave | src/gui/transfer_record_repository.cpp:55-63 | The locked part of a request is one step of the monitor. |
| RecordRepository.TransferRecordRepository.NotifyAfterwards | src/gui/transfer_record_repository.cpp:62-62 | The notification outside the mutex is one step of the monitor. |
| RecordRepository.TransferRecordRepository.CheckFlushAgain | src/gui/transfer_record_repository.cpp:72-74 | Each later look of a flush is one step; a yes means that all is saved. |
| RecordRepository.TransferRecordRepository.TimeOutFlush | src/gui/transfer_record_repository.cpp:72-74 | The look at the deadline likewise, with the exact answer. |
| RecordRepository.TransferRecordRepository.WakeFromIdle | src/gui/transfer_record_repository.cpp:86-96 | Each wake-up in the first wait is one step; it takes the latest records, waits on, or exits exactly as the flags say. |
| RecordRepository.TransferRecordRepository.WriteRecords | src/gui/transfer_record_repository.cpp:110-110 | The write outside the mutex is one step: the file holds the batch or an error is noted. |
| RecordRepository.TransferRecordRepository.FinishWrite | src/gui/transfer_record_repository.cpp:112-118 | The section after a write is one step of the monitor. |
| RecordRepository.TransferRecordRepository.Announce | src/gui/transfer_record_repository.cpp:119-119 | The notification after a write is one step of the monitor. |

## Left out

- Sockets, listeners, `EINTR`, `fsync`, descriptors and OpenSSL calls: replaced by channels, byte sequences and faults.
- Running out of memory, for instance on a copy operation of enormous size (`src/transfer/delta.cpp:388`).
- Cancellation tokens, progress callbacks, elapsed time, log lines and the texts of acknowledgements and error frames,
  which are empty in the model except for the one that is compared (`sync done`) and the final `stored`.
- The body of a hello: which bodies announce a synchronisation is a parameter; the single-file receiver starts after it.
- Directory scanning and path resolution: a manifest is given; directories, symbolic links and the creation of parent
  directories are not in the tree, and the receive root is the tree's root. In single-file transfers the names that are
  directories are given.
- Failure to delete a part file: the guard's removal is taken to succeed.
- SyncSession: the part file of a stream becomes visible in the machine's tree only when it is committed or removed. In
  the methods of `FileReceiving` it is in the tree from its creation, empty until it is closed; the bytes written so far are
  the output file's.
- SyncHosts.SyncReceiver: after a fault of its own connection or disk the moves made are not stated, only what the
  directory can have become.
- SyncHosts.SyncSender: after a fault of its own connection or files the frames written are not stated.
- SyncRuns.SenderEndsSession: a sender stopped by a write to a receiver that has given up is not related to its session;
  the session itself is (`SyncFailure.SenderRunsOut`).
- Frames that one host has written and a stopped peer never reads stay in the channel; resets of the connection are faults.
- Concurrent changes of files during a transfer, except growth between manifest and transfer.
- Network.AnySchedule: frames are the unit of interleaving; a channel's capacity is counted in frames.
- SingleFileSession: as in `SyncSession`, the part file shows in the machine's tree when it is committed or removed.
- FramedChannels: bytes that are no frame end a connection there as if the peer had stopped, with another error code; after
  a fault the bytes written are not related to frames.
- Scheduler: snapshots, logs and their delivery order, configuration validation (its outcome is the argument `can`),
  host addresses, source kinds, wrap-around of 64-bit task ids, the joins of `stop_all` outside the mutex, and the
  read-only queries. Calling a public method from inside a wake-up callback is not modelled.
- SchedulerState.State: where tasks went and the attempts to start them are history kept for the proofs.
- Record writer: JSON, `load` beyond its effect on the error text, and clocks; a wait with a deadline may end at any
  time. Nothing is requested after the stop, as the object is being destroyed.
- Delta progress, rates, argument parsing, discovery, peer linking, user interface, settings and packaging.
