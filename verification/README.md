# Verified core of elastic-stream

Elastic-stream stores append-only streams. A stream is cut into ranges, a range is replicated on several range servers, and one of them offloads the range to object storage, after which the local copies may be deleted. This project models the parts of the system where data could be lost, duplicated or misread, and proves what they promise:

- **Deletion safety** (`ObjectChain`, `OffloadProgress`, `ArrivedPieces`, `ObjectManager`, `ObjectFeed`, `MetadataManager`, `RangeEvents`, `DeletionSafety`): the walk over committed objects, the offload offset, what the object manager reports of any feed, the two feeds that are merged into deletion events, and the theorems that in every interleaving only trimmed or offloaded offsets become deletable, and that the last event of a range says exactly how far.
- **Replication and sealing** (`AppendWindow`, `RangeManager`, `SealQuorum`): the append window of a replica, the range manager, what exactly a writer confirms, and the theorem that a seal never ends below an offset the writer has confirmed.
- **Transport** (`Frame`, `Transport`): the frame format with exactly the bytes it accepts, partial writes and chunked reads, and end-to-end delivery of whole and of damaged streams.
- **List and watch** (`ListWatch`): the client of the placement driver, and the theorem that replaying its events gives the driver's state.
- **Offload** (`RecordFormat`, `SparseIndex`, `RangeOffload`, `OwnerRun`, `OffloadCache`): the record-batch format with its readers, the sparse index and its search, the objects an owner produces, their way back through the feed to the reported offset, and the byte accounting of what waits.
- **Cache** (`HierarchicalCache`): the two-list cache.

`dafny verify dfyconfig.toml` checks everything; the files need no library. Every lemma switches automatic induction off, so each proof is the one written down.

## How to read it

State that the source updates in place is a class. Each of its methods equates the new state with a function of the old one, and the lemmas are about those functions. A struct that its owner alone holds is stored by value. Protocols are state machines whose runs are sequences of steps; statements about runs hold for every sequence.

- Arithmetic is that of the release profile (Cargo.toml:152-158), in which overflow checks are on and a panic ends the process. A 32-bit addition, subtraction or negation that overflows therefore has no result: the outcome is `Abort` or `Panic`, a writer returns nothing, a run ends there. Casts truncate and are written out: `AsU32`, `AsI32`, `AsU64`, `AsUsize`. Offsets and versions are natural numbers; only the end of a record batch is checked against 64 bits.
- The clock, the order of a hash set, failures, timeouts and the sizes of partial reads and writes are arguments or free choices.
- The decoder of the FlatBuffers batch metadata is a parameter. Every statement holds for all decoders.
- No buffer is longer than the largest signed machine size (`ISIZE_MAX`), as the language guarantees, and one read from a socket returns less than 2 GiB, as the operating system guarantees.

Where documentation and code differ, the code is modelled:

- The uploading tasks never copy the sparse index into the metadata they commit, although the metadata has a field for it (components/object-storage/src/range_offload.rs:287-290, 390-393).
- A position written by a later part of a multi-part object is relative to that part (components/object-storage/src/range_offload.rs:197-204); `SplitPayloads` states by how much.
- `get_continuous_objects` counts only the objects after the first against the size hint (components/object-storage/src/object_manager.rs:106-132).

Statements that turned out false of the code, each with a failing input and the exact condition:

- A new object never lowers the offload offset: `OffloadProgress.OlderEpochCanLower`; lowered exactly as `OffloadProgress.OffloadLoweredIff` says.
- The offload offset is the end of the longest arrived prefix: `ArrivedPieces.MaximumHidesPiece` and `ArrivedPieces.LargeRangeAborts`; `ArrivedPieces.OffloadIsArrivedPrefix`.
- The stored offset is the maximum of its sources: `MetadataManager.AddBackwardsNotExact`; `MetadataManager.AddExactIff`, and for the event `RangeEvents.AddTellsIff`.
- Committed objects tile the range: `RangeOffload.TruncatedSpan`; `RangeOffload.TilingIff`.
- The cache size covers what waits: `OffloadCache.LargeObjectsMiscount`; `OffloadCache.CacheAccounting`.

## Model

| member | source | states |
|---|---|---|
| `ObjectChain.GetContinuousObjects` | components/object-storage/src/object_manager.rs:80-140 | terminates by epochs left, then offsets left; aborts exactly when the objects after the first hold more than 32 bits of bytes; otherwise returns the metadata of the chain, and `cover_all` exactly when the chain reaches the end offset or the objects after the first reach the size hint |
| `ObjectChain.ChainCharacterised` | components/object-storage/src/object_manager.rs:68-140 | a sequence is the returned chain if and only if its first object is the first-epoch cover of the start, neighbours meet exactly with epochs never decreasing, and it stops at the limit, at the hint, or where no epoch from the last on has an object starting at its end |
| `ObjectChain.ChainEmptyIffUncovered` | components/object-storage/src/object_manager.rs:93-118 | when objects of one epoch do not overlap, the chain is empty exactly when no object covers the start |
| `OffloadProgress.OffloadedIsCovered` | components/object-storage/src/object_manager.rs:160-167 | every offset from the range start to the end of the walk, which is the offload offset, lies in an object |
| `OffloadProgress.OffloadNeverLowered` | components/object-storage/src/object_manager.rs:200-217 | with disjoint objects per epoch, a new object whose epoch is not below any on the chain never moves the end of the walk back |
| `OffloadProgress.OffloadLoweredIff` | components/object-storage/src/object_manager.rs:93-135 | with disjoint objects per epoch, a new object moves the end of the walk back if and only if it diverts the walk, by covering the start in an earlier epoch or by starting where a chain object starts in an earlier epoch the walk visits, and the existing objects after it end below the old end |
| `OffloadProgress.DivertedChain` | components/object-storage/src/object_manager.rs:93-135 | a diverted walk is the old chain up to there, the new object, and what follows it among the existing objects |
| `OffloadProgress.OlderEpochCanLower` | components/object-storage/src/object_manager.rs:93-118 | an object of an older epoch can: a concrete pair of indexes |
| `ArrivedPieces.OffloadIsArrivedPrefix` | components/object-storage/src/object_manager.rs:160-167 | for pieces of one epoch that arrived in any order, the offload offset is reported and is the end of the longest arrived prefix if and only if the bytes behind its first piece fit 32 bits and no shorter prefix has reached the 32-bit maximum |
| `ArrivedPieces.MaximumHidesPiece` | components/object-storage/src/object_manager.rs:121-135 | three arrived pieces whose count reads its maximum after two: the third is not seen |
| `ArrivedPieces.LargeRangeAborts` | components/object-storage/src/object_manager.rs:121-135 | four arrived pieces with more than 4 GiB behind the first: the walk aborts |
| `ArrivedPieces.OffloadGoesOn` | components/object-storage/src/object_manager.rs:93-167 | with pieces of a newer epoch arriving in any order behind the objects there were, the offload offset is the end of the longest arrived prefix if and only if the bytes the walk counts fit 32 bits and do not reach the maximum before its last object; the walk then takes exactly the objects it took before and the prefix |
| `ObjectManager.Metadata.OffloadOffsetOf` | components/object-storage/src/object_manager.rs:160-167 | the end of the walk, the range start without objects, or the abort of the walk |
| `ObjectManager.Metadata.AddObject` | components/object-storage/src/object_manager.rs:200-217 | adds an object and returns the offset to announce, if the range is managed; aborts exactly when the walk does |
| `ObjectManager.Metadata.OwnerOf` | components/object-storage/src/object_manager.rs:169-178 | none unless this server is the owner; otherwise the end of the walk and the epoch, or the abort of the walk |
| `ObjectManager.Metadata.AddRange` | components/object-storage/src/object_manager.rs:317-347 | a held range with an offload owner becomes managed, keeping its objects, and the owner is told; a held range without an owner is skipped; any other range is only remembered |
| `ObjectManager.Metadata.GetObjects` | components/object-storage/src/object_manager.rs:219-239 | the objects of the chain with the range's ids filled in, from the managed index first, and whether they cover the request |
| `ObjectManager.FeedManages` | components/object-storage/src/object_manager.rs:283-376 | after any feed, a range is managed exactly if, since the last reset, the server was told to keep its offload progress |
| `ObjectManager.FeedHolds` | components/object-storage/src/object_manager.rs:283-376 | after any feed, a managed range holds an object exactly if it was delivered after the range came under management since the last reset, with the value delivered last; modified and deleted resources change nothing |
| `ObjectManager.FeedLeaves` | components/object-storage/src/object_manager.rs:200-217 | after any feed, an object of a range that was not managed at the time is held exactly if it was delivered since the last reset, with the value so delivered last |
| `ObjectFeed.FeedFields` | components/object-storage/src/object_manager.rs:317-345 | after any feed, the start, ownership and epoch of a managed range are those of the last event that managed it |
| `ObjectFeed.SentExactly` | components/object-storage/src/object_manager.rs:317-367 | an object of a managed range, and nothing else, makes the manager report where the walk over the range now ends; a range put under management, and nothing else, makes it tell the owner: one exactly if the named server is this one, with the named epoch and the end of the walk |
| `ObjectFeed.SnapshotExactly` | components/object-storage/src/object_manager.rs:431-449 | a new listener is told of each managed range where the walk over it ends |
| `ObjectFeed.ReachedIsDelivered` | components/object-storage/src/object_manager.rs:160-178 | after any feed, every offset from the range start to a reported or told offset lies in an object delivered for that range and held since |
| `ObjectFeed.ReturnedWereDelivered` | components/object-storage/src/object_manager.rs:25-62 | after any feed, an object returned for a range is, in every field, one that was delivered for that range |
| `MetadataManager.RemoveForgets` | range-server/src/metadata/manager.rs:293-299 | removing a range leaves no trace of what was received for it: adding or progress before the removal makes no difference after it |
| `MetadataManager.Stream.UpdateStream` | range-server/src/metadata/manager.rs:301-320 | the loop over all ranges refreshes each deletable offset and returns the events in index order |
| `MetadataManager.OffloadedExact` | range-server/src/metadata/manager.rs:322-341 | progress keeps every stored offset equal to the maximum of its sources |
| `MetadataManager.Stream.NewStartOffset` | range-server/src/metadata/manager.rs:352-363 | at least the stream start, the range start and the offload progress, and equal to one of them, or zero |
| `MetadataManager.Stream.GenEvent` | range-server/src/metadata/manager.rs:369-384 | Offloaded exactly when progress has reached a known end, otherwise a move to the start |
| `MetadataManager.ListingHoldsBack` | range-server/src/metadata/manager.rs:45-125 | over every run of both channels, what was sent and what is held back together are the events of the run in order; everything is held back until a listing finishes, nothing after |
| `MetadataManager.DefaultMetadataManager.OnProgress` | range-server/src/metadata/manager.rs:181-214 | one turn of the progress loop: an event for each entry, in order |
| `MetadataManager.AddExactIff` | range-server/src/metadata/manager.rs:279-291 | adding a range keeps the stored offset equal to the maximum of stream start, range start and progress if and only if the replaced start does not exceed all three |
| `MetadataManager.AddBackwardsNotExact` | range-server/src/metadata/manager.rs:128-179 | a held range whose start moves back: after both events the old start is still stored |
| `MetadataManager.EventExact` | range-server/src/metadata/manager.rs:128-179 | every metadata event that does not move a start back keeps all stored offsets exact |
| `MetadataManager.MergeIndependent` | range-server/src/metadata/manager.rs:128-214 | with starts never moving back and no deletions, every merge of the two channels ends in the same state, with all stored offsets exact |
| `MetadataManager.OffloadedAnnounced` | range-server/src/metadata/manager.rs:369-384 | over every run, Offloaded has been emitted for each range whose end and whose progress up to it are known |
| `RangeEvents.EmitsExactly` | range-server/src/metadata/manager.rs:128-214 | from what was received, without the code's maximum: progress and an added range make the one event called for; new stream metadata one for each range whose offset changes, in index order; a removed range its Del; a deleted stream one Del for each range it holds; anything else none |
| `RangeEvents.AddTellsIff` | range-server/src/metadata/manager.rs:279-291 | the event of an added range is the one called for if and only if the replaced start does not exceed all that is known now, or the range is complete |
| `RangeEvents.LastEventTells` | range-server/src/metadata/manager.rs:128-384 | over every run of both channels in which no range is added behind what is known of it, the last event sent for every held range is Offloaded if progress has reached its known end, and otherwise a move to exactly the largest of the stream start, range start and progress received |
| `DeletionSafety.StepKeeps` | range-server/src/metadata/manager.rs:128-214 | every publication, feed event, subscription and delivery keeps the safety invariant |
| `DeletionSafety.DeletionIsSafe` | range-server/src/metadata/manager.rs:343-384 | in every interleaving of both feeds and the progress channel, each event sent to the store was emitted with every offset it makes deletable below a published stream or range start or inside a committed object: all below the start it moves to, or all below the end of the range metadata the manager held at that moment |
| `DeletionSafety.SystemFollows` | range-server/src/metadata/manager.rs:45-214 | in every run of the system, the metadata manager is what its inputs make of it, and the progress it was handed is what the object manager sent, in order, up to what is still in the channel |
| `AppendWindow.Window.CheckBarrier` | range-server/src/range_manager/window.rs:57-99 | accepts exactly a request at `next` that is not committed, moves `next` by its length and nothing else, and tells committed, in-flight and out-of-order offsets apart |
| `AppendWindow.Window.Commit` | range-server/src/range_manager/window.rs:108-113 | the committed offset never moves back, is never behind the value, and is one of the two |
| `AppendWindow.Range.constructor` | range-server/src/range_manager/range.rs:22-34 | a range without an end accepts appends from its start on, one with an end has no window |
| `AppendWindow.Range.Commit` | range-server/src/range_manager/range.rs:45-64 | fails exactly on a sealed range, changing nothing; otherwise the committed offset covers the new one once it has reached the start, and never moves back |
| `AppendWindow.SealedForGood` | range-server/src/range_manager/range.rs:66-84 | a sealed replica takes over the end it is told and no other metadata, reports what it had committed, or its start, refuses every append and commit, and reports the same end to every later seal |
| `AppendWindow.WindowTiling` | range-server/src/range_manager/window.rs:57-113 | over every run, accepted batches tile the range from its start to `next`, `start <= committed <= next`, a set committed offset is the window's, without trims a sealed end is the start or the end of an accepted batch, and the replica has a window exactly as long as it was not sealed |
| `AppendWindow.AcceptedDisjoint` | range-server/src/range_manager/window.rs:57-99 | accepted batches never share an offset |
| `AppendWindow.AcceptedCover` | range-server/src/range_manager/window.rs:57-99 | accepted batches leave no offset out |
| `RangeManager.Stream.Find` | range-server/src/range_manager/stream.rs:133-149 | the position of the first range with an index, or that there is none |
| `RangeManager.Stream.CreateRange` | range-server/src/range_manager/stream.rs:65-99 | inserts a range with a new index in index order; a known index or another stream's range changes nothing |
| `RangeManager.Stream.RemoveRange` | range-server/src/range_manager/stream.rs:101-110 | removes the ranges with that index |
| `RangeManager.Stream.TrimRanges` | range-server/src/range_manager/stream.rs:38-52 | drops or shortens every range to the offset |
| `RangeManager.Stream.UpdateMetadata` | range-server/src/range_manager/stream.rs:28-32 | stores the metadata and trims to its start offset |
| `RangeManager.Stream.Seal` | range-server/src/range_manager/stream.rs:118-131 | seals the range or fails as not found |
| `RangeManager.TrimExact` | range-server/src/range_manager/stream.rs:38-52 | trimming keeps, of every range, exactly the offsets from the trim offset on; a range goes exactly if it ends there or before, and of one that stays only the start changes |
| `RangeManager.RangeEventApplied` | range-server/src/range_manager/manager.rs:83-111 | a range event stores the metadata without touching what was appended, creates the range, or removes it; a create request leaves a known range as it was |
| `RangeManager.StreamEventApplied` | range-server/src/range_manager/manager.rs:113-133 | of a stream's ranges a stream event keeps exactly the offsets from the new start on and what was appended to them; a deleted stream has no range |
| `RangeManager.OnlyItsRange` | range-server/src/range_manager/manager.rs:83-246 | no request and no event touches a range it is not about |
| `RangeManager.CommitAccepted` | range-server/src/range_manager/manager.rs:172-191 | a commit gets through exactly on an unsealed range, and is told otherwise whether there is none or it is sealed; from then on the range reports at least that offset, and never less than before |
| `RangeManager.SealAccepted` | range-server/src/range_manager/manager.rs:193-220 | a seal always succeeds, creating what is missing; it reports what the range had committed, or its start, and the range is sealed with that |
| `RangeManager.AppendAccepted` | range-server/src/range_manager/manager.rs:222-246 | an append gets through exactly at the next offset of an unsealed range, and moves that offset alone; otherwise nothing changes and the reason is the one its place among the committed and the next offset calls for |
| `RangeManager.SealIsPermanent` | range-server/src/range_manager/manager.rs:83-246 | once a range's window is gone, no run that leaves the range in place accepts an append or commit for it or changes its committed offset |
| `RangeManager.RangesStaySorted` | range-server/src/range_manager/stream.rs:65-116 | every run keeps the ranges strictly sorted by index |
| `SealQuorum.NthIff` | components/replication/src/stream/replication_range.rs:138-149 | the k-th smallest offset is at least c exactly when at most k offsets are below c |
| `SealQuorum.ConfirmMeansAckCount` | components/replication/src/stream/replication_range.rs:119-150 | succeeds exactly with `ack_count` usable replicas; an offset is at most the confirmed one if and only if at least `ack_count` usable replicas have reached it |
| `SealQuorum.SealedDataIsHeld` | components/replication/src/stream/replication_range.rs:226-255 | succeeds exactly with `replica_count - ack_count + 1` replies, and seals at one of them, the largest offset that at most `replica_count - ack_count` replies end below |
| `SealQuorum.TryAckExact` | components/replication/src/stream/replication_range.rs:460-490 | an offset is confirmed exactly if it was before, or the writer was confirming and `ack_count` usable replicas have reached it; the writer breaks exactly with fewer usable replicas |
| `SealQuorum.ConfirmedExactly` | components/replication/src/stream/replication_range.rs:460-490 | in every run, an offset is confirmed exactly if at some point, with no seal under way, `ack_count` servers that had not failed had acknowledged everything below it; the writer is broken exactly if at some such point fewer were left |
| `SealQuorum.StepKeeps` | components/replication/src/stream/replication_range.rs:460-490 | every server step, acknowledgement, replica failure, begin and failure of a seal keeps the quorum invariant |
| `SealQuorum.SealAnswered` | range-server/src/range_manager/range.rs:66-84 | every seal request is answered with what the server had committed, or its start |
| `SealQuorum.SealNeverLosesConfirmed` | components/model/src/range/mod.rs:65-71 | in every run, enough seal replies of distinct servers, and only those, give an end offset, and it is never below an offset the writer confirmed, before or after the seal |
| `SealQuorum.SealedWasCommitted` | components/replication/src/stream/replication_range.rs:241-255 | in every run, a sealed offset was committed on a server that replied, where nothing beyond it was, or is no more than that server's range start |
| `Frame.Crc32Vectored` | components/util/src/crc32.rs:12-22 | the checksum of several buffers is the checksum of their concatenation |
| `Frame.CrcTestVector` | components/util/src/crc32.rs:43-48 | the checksum of the repository's test input |
| `Frame.OneByteDetected` | components/util/src/crc32.rs:12-22 | byte strings that differ in exactly one byte have different checksums |
| `Frame.Encode` | components/codec/src/frame.rs:298-354 | succeeds exactly for frames whose lengths fit, and writes the wire format |
| `Frame.CheckCursor` | components/codec/src/frame.rs:108-234 | the cursor form computes the verdict of `Check` and on success stops at the end of the frame, except that a buffer whose length loses its high bits in the cast can look too short |
| `Frame.SmallIsExact` | components/codec/src/frame.rs:197-204 | that exception never concerns a buffer below 4 GiB |
| `Frame.ParseCursor` | components/codec/src/frame.rs:241-296 | the cursor form never reads past the buffer on checked bytes and returns the same frame |
| `Frame.WireRoundTrip` | components/codec/src/frame.rs:108-354 | an encoded frame followed by anything is recognised with its exact length and parsed as the reader's view of it |
| `Frame.PrefixIncomplete` | components/codec/src/frame.rs:108-234 | a proper prefix of a frame is incomplete, never an error |
| `Frame.CheckGuardsParse` | components/codec/src/frame.rs:108-296 | on arbitrary bytes, if `check` accepts, `parse` consumes exactly that length, its result is encodable, and parsing that encoding gives the same frame |
| `Frame.CheckStable` | components/codec/src/frame.rs:108-234 | more bytes never change a verdict other than incomplete, nor the frame that is parsed |
| `Frame.AcceptsExactly` | components/codec/src/frame.rs:108-296 | a buffer is accepted and read as a frame if and only if it starts with the wire form of that frame; free are only the format byte, within what reads as the same format, and the checksum bytes of a frame without payload |
| `Frame.ChecksumDecides` | components/codec/src/frame.rs:206-230 | with any payload and checksum bytes in place of a frame's, it is accepted exactly if the one is the checksum of the other, and otherwise refused as a checksum mismatch |
| `Frame.DamagedPayload` | components/codec/src/frame.rs:206-230 | a frame with one payload byte changed is refused as a checksum mismatch |
| `Frame.DamagedFixed` | components/codec/src/frame.rs:108-190 | another magic byte is refused as such, and a header length beyond the frame as a bad frame |
| `Frame.LengthDecides` | components/codec/src/frame.rs:108-150 | lengths no frame has are refused, too short as bad and too long as too long; otherwise a buffer is incomplete exactly if it holds fewer bytes than its length says |
| `Frame.GetResponsePayload` | components/codec/src/frame.rs:356-371 | the joined payload of a response |
| `Transport.Write` | components/transport/src/connection.rs:232-293 | whatever the partial writes, the socket gets all bytes of the frame, or exactly those it takes before it fails; the error says which |
| `Transport.WriteLoop` | components/transport/src/connection.rs:56-106 | the bytes of the encodable frames of the queue in order, all of them or exactly those the socket takes |
| `Transport.Connection.ReadFrame` | components/transport/src/connection.rs:323-444 | reads until a frame, an error or the end, keeping what is left in the buffer, which stays below 4 GiB |
| `Transport.TransportDelivers` | components/transport/src/connection.rs:232-444 | for any frames, any partial writes, any chunking and any place where the stream ends, the reader gets exactly the encodable frames that arrived whole, in order, and a clean end exactly on a frame boundary |
| `Transport.EncodableExactly` | components/transport/src/connection.rs:56-106 | the frames that are sent are the encodable ones; if all are, they are all of them in order |
| `Transport.WholeExactly` | components/transport/src/connection.rs:323-444 | the frames that arrived whole are those that end within the cut, which is a boundary exactly if the last of them ends there |
| `Transport.DamageIsReported` | components/transport/src/connection.rs:323-444 | behind any number of frames comes something that is refused: however the stream is cut, the reader gets exactly those frames and then the reason |
| `ListWatch.Client.ListResource` | components/pd-client/src/pd_client.rs:114-164 | pages until the end, an error, cancellation or want of answers; what it sent and the trace of the answers left make up the whole trace, and a cancelled one sent exactly what the receiver takes |
| `ListWatch.Client.WatchResource` | components/pd-client/src/pd_client.rs:167-207 | watches from a version, following each answer, until an error, cancellation or want of answers, with the same account of what was sent |
| `ListWatch.Client.ListAndWatch` | components/pd-client/src/pd_client.rs:48-101 | consumes all answers and sends exactly their trace, unless the receiver goes away, and then exactly what it took |
| `ListWatch.TraceInRounds` | components/pd-client/src/lib.rs:20-27 | every trace is made of rounds: listed resources then a reset, or listed resources, the finish, changes, then a reset |
| `ListWatch.TraceIsRound` | pd/pkg/server/cluster/resource.go:17-34 | under the driver's paging and version contract, the events since the last reset are the enumerated resources, each once, the finish, and the changes up to the version reached |
| `ListWatch.ReplayMatchesDriver` | components/pd-client/src/pd_client.rs:48-207 | replaying the trace gives the driver's state at the version reached |
| `ListWatch.StateIsLastChange` | pd/pkg/server/cluster/resource.go:17-34 | the driver's state holds a resource exactly if the last change about it is not its deletion, and holds what that change says |
| `ListWatch.TimeoutsAreInvisible` | components/pd-client/src/pd_client.rs:114-207 | timeouts neither lose nor repeat an event |
| `RecordFormat.Encode` | components/model/src/record/flat_record.rs:120-148 | four buffers of the length of the batch, and that length as a signed 32-bit integer; they are read back as the batch exactly when both lengths fit their fields |
| `RecordFormat.SplitIff` | components/model/src/record/flat_record.rs:65-148 | bytes are read as a list of records if and only if they are its encoding |
| `RecordFormat.InitFromBuf` | components/model/src/record/flat_record.rs:65-109 | succeeds exactly when a record stands at the head, consumes exactly it, consumes nothing on an error, and when each error arises |
| `RecordFormat.DecodeAll` | components/model/src/record/flat_record.rs:65-109 | decoding until the buffer is empty reads the list of records |
| `RecordFormat.ParseAppendEntry` | components/model/src/payload.rs:30-79 | the entry and the length of the record at the head, and when it fails |
| `RecordFormat.ParseAppendEntries` | components/model/src/payload.rs:20-28 | succeeds exactly on encodings of records with readable metadata, one entry per record |
| `RecordFormat.EntriesAt` | components/model/src/payload.rs:60-79 | each entry names the stream, range, offset and length its record's metadata name, and no offset if that is negative |
| `RecordFormat.BuildStoreRequests` | range-server/src/handler/append.rs:204-229 | succeeds exactly when every record also names its offset; one request per record, carrying its bytes |
| `RecordFormat.RequestsAt` | range-server/src/handler/append.rs:204-229 | each request carries the bytes of its record and what its metadata name |
| `RecordFormat.RequestsPartition` | range-server/src/handler/append.rs:204-229 | the request slices partition the payload |
| `SparseIndex.GenSparseIndex` | components/object-storage/src/range_offload.rs:444-507 | however the payload is cut into buffers: succeeds exactly when it is whole records that can be taken in turn, no 32-bit counter overflows and an end can be read at the last position; returns the index, that end and the remaining pass-through size |
| `SparseIndex.ShortEnd` | components/object-storage/src/range_offload.rs:497-505 | with records below 4 GiB, the end read at the last position is the end of the last record |
| `SparseIndex.EntriesAreRecords` | components/object-storage/src/range_offload.rs:473-497 | every entry names the true start and relative end of a record, and only records that passed the sparse size are indexed |
| `SparseIndex.RecordsAreIndexed` | components/object-storage/src/range_offload.rs:473-497 | every record that has passed the sparse size has an entry |
| `SparseIndex.EntriesSpaced` | components/object-storage/src/range_offload.rs:473-497 | entries lie at least the sparse size apart |
| `SparseIndex.SplitIndexing` | components/object-storage/src/range_offload.rs:192-212 | indexing two parts with the carried size selects the records one pass selects, with the second positions short by the first bytes |
| `SparseIndex.SplitPayloads` | components/object-storage/src/range_offload.rs:192-212 | the same for payload bytes: the same payloads are accepted as long as one position counter can go through both, with the same end offset and remainder |
| `SparseIndex.ObjectIndex.FindBound` | components/model/src/object.rs:34-101 | none exactly outside the object; aborts exactly when the size hint overflows; otherwise the start position, searched or given, and the position of the first entry that ends the read |
| `SparseIndex.SeekStart` | components/model/src/object.rs:52-76 | the start never passes the record that holds the offset and lies less than the sparse size plus two records before it |
| `SparseIndex.SeekRecord` | components/model/src/object.rs:52-76 | for records that end one behind the other within 2^32 offsets, a read starts at or before the first byte of the first record that ends beyond the offset, and less than the sparse size and two records before it |
| `SparseIndex.BatchEnd` | components/object-storage/src/range_offload.rs:497-505 | a batch that names its offset ends there plus its number of offsets |
| `SparseIndex.SeekEnd` | components/model/src/object.rs:77-100 | start, end and data length are in order when the offsets are, and the bytes are as many as the hint asks for unless they reach the end offset or the end of the object |
| `SparseIndex.SeekAborts` | components/model/src/object.rs:59-74 | for an object indexed in one pass, the search aborts exactly when the size hint and the distances of all entries behind the start exceed 32 bits; otherwise their sum is the size looked for, or the whole object without an entry before the offset |
| `RangeOffload.WriteLoop` | components/object-storage/src/range_offload.rs:223-309 | commits at the first message without data, with the owner's ids and epoch, the largest end offset, all data and all index entries before it, and never earlier |
| `RangeOffload.WriteWhole` | components/object-storage/src/range_offload.rs:376-413 | one payload, one object, with the owner's ids and epoch, its end, length and index; aborts exactly on an unreadable payload or one that ends before the start |
| `RangeOffload.MultiPartObject.Write` | components/object-storage/src/range_offload.rs:192-212 | aborts exactly on an unreadable part or when the object size overflows; otherwise sends the part with its index entries and end offset, carries the pass-through size and says whether the object is full |
| `RangeOffload.CloseFollows` | components/object-storage/src/range_offload.rs:214-221 | closing the object in flight adds an upload that holds exactly its records and follows the others without a gap |
| `RangeOffload.RangeOffload.Write` | components/object-storage/src/range_offload.rs:89-141 | joins the object in flight, or writes a large payload on its own, or opens an object; the returned offset is the end of the payload |
| `RangeOffload.RangeOffload.Flush` | components/object-storage/src/range_offload.rs:144-156 | closes the object in flight, if any |
| `RangeOffload.OffloadTiles` | components/object-storage/src/range_accumulator.rs:122-190 | over every run of fetches, full closes and flushes, finished objects take the range from the owner's start without gap or overlap up to the object in flight, their data followed by the data in flight is exactly what was fetched, and the committed metadata tile the range if and only if no object spans more than 2^32 - 1 offsets |
| `RangeOffload.TilingIff` | components/object-storage/src/range_offload.rs:287-290 | contiguous uploads commit a tiling up to their end if and only if every span fits the 32-bit length field |
| `RangeOffload.TruncatedSpan` | components/object-storage/src/range_offload.rs:287-290 | a run that fetches three batches over 2^32 offsets: the length committed for their object is zero |
| `RangeOffload.CommitExact` | components/object-storage/src/range_offload.rs:114-129 | the committed object carries the owner's stream, range and epoch, and has the end and the length of the uploaded data, each if and only if it fits its 32-bit field |
| `RangeOffload.FetchCloses` | components/object-storage/src/range_offload.rs:89-141 | a fetch that makes the bytes in flight reach the object size leaves nothing in flight and one more upload; any other adds its bytes to the object in flight |
| `RangeOffload.InFlightStaysSmall` | components/object-storage/src/range_offload.rs:105-109 | over every run, the object in flight is smaller than the object size |
| `RangeOffload.StopEnds` | components/object-storage/src/range_accumulator.rs:136-150 | a stop closes the object in flight, and nothing is fetched after it |
| `RangeOffload.PayloadEndIsLast` | components/object-storage/src/range_offload.rs:497-505 | with records below 4 GiB, the end of a payload is the end of its last record |
| `RangeOffload.ObjectsIndexed` | components/object-storage/src/range_offload.rs:192-212 | over every run, the index of every object names, in order, the records that one pass over its data would index, however the data came in |
| `OwnerRun.ToldWalkEnd` | components/object-storage/src/object_manager.rs:169-178 | an owner is told the end of the walk over the objects delivered for its range, and the epoch it was given |
| `OwnerRun.OffloadOfOwner` | components/object-storage/src/object_manager.rs:160-217 | the owner uploads from where it was told to start and its commits come back in any order, in any feed: the range is reported offloaded up to the end of the longest prefix that has arrived, if and only if the counted bytes fit; the walk goes from the objects of earlier owners on to the new ones without gap or overlap |
| `OwnerRun.CommitStaysHome` | components/object-storage/src/object_manager.rs:200-217 | a commit that comes back changes nothing that is held for another range, and reports nothing about one |
| `OffloadCache.DefaultRangeAccumulator.Accumulate` | components/object-storage/src/range_accumulator.rs:37-52 | takes the records or starts again, stays below the object size, says that a part is full exactly if it now holds one, and reports by how much the size changed, as long as sizes keep their sign; aborts exactly when the addition or the negation overflows |
| `OffloadCache.DefaultRangeAccumulator.TryFlush` | components/object-storage/src/range_accumulator.rs:58-72 | an expired accumulator is emptied and its size reported negative |
| `OffloadCache.DefaultRangeAccumulator.TryOffloadPart` | components/object-storage/src/range_accumulator.rs:78-90 | leaves no full part and reports by how much the size changed, as long as it keeps its sign |
| `OffloadCache.DefaultObjectStorage.NewCommit` | components/object-storage/src/object_storage.rs:241-282 | effect of a commit, with the walk over part-full ranges in whatever order, and exactly when it aborts |
| `OffloadCache.DefaultObjectStorage.AddRange` | components/object-storage/src/object_storage.rs:191-224 | a fresh accumulator; what an earlier one held stays counted |
| `OffloadCache.DefaultObjectStorage.RemoveRange` | components/object-storage/src/object_storage.rs:226-233 | the accumulator goes; what it held stays counted |
| `OffloadCache.DefaultObjectStorage.ForceFlush` | components/object-storage/src/object_storage.rs:399-420 | empties the expired accumulators without touching the cache size |
| `OffloadCache.CacheAccounting` | components/object-storage/src/object_storage.rs:191-282 | over every run and for every part size and limit, each accumulator stays below the object size and the cache size is at least the sum of all, if and only if the object size is at most 2^31 |
| `OffloadCache.CacheConserves` | components/object-storage/src/object_storage.rs:191-282 | over every run with an object size of at most 2^31, the cache size is exactly the bytes in all accumulators and those that accumulators held when they were flushed, replaced or removed |
| `OffloadCache.CommitAbortsIff` | components/object-storage/src/object_storage.rs:241-282 | with an object size of at most 2^31, a commit aborts exactly when the records do not fit the 32-bit size |
| `OffloadCache.AbortsExactly` | components/object-storage/src/range_accumulator.rs:37-90 | without that bound, taking aborts exactly when the 32-bit sum has no value, handing on exactly when the negated size has none |
| `OffloadCache.LargeObjectsMiscount` | components/object-storage/src/range_accumulator.rs:37-52 | beyond 2^31 a commit is counted as negative |
| `OffloadCache.UnderLimitCommit` | components/object-storage/src/object_storage.rs:241-257 | a commit that leaves the cache under its limit takes the records or starts the range again, and marks the range exactly if it now holds a full part |
| `OffloadCache.OverLimitCommit` | components/object-storage/src/object_storage.rs:258-279 | after an over-limit commit the cache is under the low watermark or every range still marked part-full has no accumulator; the ranges handed on, and no others, start again |
| `HierarchicalCache.HierarchicalCache.PushActive` | components/cache/src/lib.rs:93-115 | a cached key only gets the new value; otherwise room is made and the item is the most recently used active one |
| `HierarchicalCache.HierarchicalCache.PushInactive` | components/cache/src/lib.rs:134-156 | the same for the inactive list |
| `HierarchicalCache.HierarchicalCache.ReclaimActiveList` | components/cache/src/lib.rs:158-188 | the demotion loop followed by the reclaim of the inactive list |
| `HierarchicalCache.HierarchicalCache.ReclaimInactiveList` | components/cache/src/lib.rs:190-205 | the eviction loop |
| `HierarchicalCache.HierarchicalCache.Get` | components/cache/src/lib.rs:213-228 | the value in the map; the key moves to the head of its list |
| `HierarchicalCache.HierarchicalCache.Search` | components/cache/src/lib.rs:250-267 | exactly the cached pairs in the key range, in ascending order |
| `HierarchicalCache.GetRefreshes` | components/cache/src/lib.rs:213-228 | a looked-up key becomes the most recently used of its list; no other item, value or counter changes, and the others keep their order |
| `HierarchicalCache.EvictTakesLeast` | components/cache/src/lib.rs:190-205 | eviction drops the least recently used items, and the least number of them that makes room |
| `HierarchicalCache.DemoteTakesLeast` | components/cache/src/lib.rs:158-188 | demotion moves the least recently used active items, in order, and the least number of them that makes room |
| `HierarchicalCache.PushActiveExact` | components/cache/src/lib.rs:93-188 | a new active item is the last of its list; with room nothing moves, otherwise the least number of active items is demoted, and of the inactive ones as many are dropped as it takes to hold them |
| `HierarchicalCache.PushInactiveExact` | components/cache/src/lib.rs:134-205 | a new inactive item is the last of its list; with room nothing is dropped, otherwise the least number of items that makes room |
| `HierarchicalCache.CacheRun` | components/cache/src/lib.rs:93-267 | over every run, the map keys are the disjoint union of the lists, each counter is the sum of its list, the size is at most the two limits or the largest value instead of either, and a cached value is the last one pushed for its key |

## Left out

- Tasks, channels, timers, semaphores, retries and shutdown of the runtime: they appear only as free choices of the state machines.
- Object store, write-ahead log, RocksDB and store internals: input and output.
- FlatBuffers packing, RPC tables, client sessions and heartbeats: generated code or field copying.
- The rest of the replication stream (append batching, fetch, object reads) and everything in the placement driver but its paging and version contract.
- The byte layout of the index and footer blocks inside an uploaded object: `RangeOffload` follows offsets, lengths, the data and the index entries.
- RangeOffload.ObjectsIndexed: says nothing of the positions in the entries, because those of a later part are relative to it.
- OwnerRun.OffloadOfOwner: the owner's epoch is newer than that of every object held, because an object of an older epoch can divert the walk.
- Cache weights above zero, hit counts and access times: a weighted item is popped from its list without being put back, so the accounting is stated for weight zero, which is what the plain pushes use.
- Object keys, display text, metrics, configuration, command line, benches and examples: only easy members.
- SparseIndex.ObjectIndex.FindBound: no claim that the bytes reach the end offset, because the code cuts at the start of the record that reaches it.
- SparseIndex.SplitPayloads: the records of the first payload are below 4 GiB each, because a longer one falsifies the position counter.
- HierarchicalCache.HierarchicalCache.Search: requires an ordered key range, because the source aborts on another one; keys are integers.
- Persistence below the committed offset: a failed append does not move `next` back, so it would need an assumption about the store.
