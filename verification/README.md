# Verified model of zfsbackup-rs

A Dafny model of the two parts of zfsbackup-rs where its promises live, with proofs of what they
promise:

* the push parser for `zfs send` streams and its incremental fletcher4 checksum;
* the archive protocol over a bucket: `send`, `receive`, `verify`, `retention`, `clean`.

`dafny verify dfyconfig.toml` checks everything.

## How it is organised

| file | what it holds |
|---|---|
| `Bytes.dfy` | bytes, machine words, byte orders |
| `Fletcher.dfy` | the checksum, its closed form, and the errors it cannot miss |
| `StreamFormat.dfy` | what one 312-byte record header says and what accepting it does |
| `StreamReference.dfy` | the meaning of a whole stream, by recursion, without buffers or phases |
| `StreamParser.dfy` | the parser class, each method proved against that meaning |
| `StreamIntegrity.dfy` | what acceptance means: checksums, truncation, corruption |
| `StreamRecords.dfy` | the record format as a table in numbers, and its round trip through the parser |
| `StreamBuilder.dfy` | the stream builder, and its round trip through the parser |
| `Manifests.dfy`, `Keys.dfy`, `Storage.dfy` | manifests, markers, bucket keys, the bucket |
| `Chunking.dfy` | cutting a stream into chunks, describing it, verifying it |
| `Protocol.dfy` | every command as atomic steps on one snapshot directory, and the invariant of all runs |
| `Send.dfy` | `send` as a program, each of whose writes is a step of the protocol |
| `Lease.dfy` | several sends at once: what keeps them apart |
| `Overlap.dfy` | sends that overlap under those rules do what one after another could |
| `Chains.dfy` | the walk along `from` links |
| `Retention.dfy`, `RetentionLaws.dfy` | the keep set and its laws |
| `Listing.dfy` | the order manifests are listed in, and what it means for a retention run |
| `Expire.dfy` | a retention run that deletes, and what holds at every moment of it |
| `Archive.dfy` | choosing a base; histories of commits, retention, cleans and pins; from the choice to the commit |
| `Receive.dfy` | the prefetch window, and restoring a chain |
| `Clean.dfy` | garbage collection |
| `Deletions.dfy` | what retention and cleaning delete, key by key, are steps of the protocol |
| `EndToEnd.dfy` | the whole bucket over its whole life, and what a restore brings back |

## What the model assumes

* The bytes of a stream are a function of the snapshot, the base GUID and the send flags. `zfs send`
  exits well only if all of them came out of the pipe.
* PUT, GET and DELETE of one key are atomic, on an unversioned bucket. A reported failure may or may
  not have taken effect. Nothing is written on behalf of a run after the run has ended.
* The digest is an arbitrary function. It is injective only where a lemma says so.
* A snapshot GUID occurs once in the archive where a lemma says so (`Keyed`, `Unique`, `Lists`).
* Commands on one snapshot directory come one after another in `Protocol.dfy`, and commands on
  different directories interleave freely. `Lease.dfy` says what that takes for sends, and
  `Overlap.dfy` derives it from those rules.
* A resume marker may be damaged at any time (`Protocol.dfy`); it then counts as unreadable.
* There is one clock. Reading it, fetching, the readiness of fetches and the outcome of writes are
  arbitrary choices or parameters.

## Where the code and a naive reading of it differ

* `finish` accepts an empty stream, and a stream cut exactly between two records. `FinishAcceptsCuts`
  says that these are all the cuts it accepts.
* A marker does not promise that every stored chunk is a whole piece of the stream: if `zfs send`
  dies inside a chunk, its beginning is uploaded under the full chunk's number before the run fails
  (`src/cmd/send.rs:374-439`). `ShortChunkHappens` builds that run. Resuming by size is sound all the
  same: `ResumeBySize` says that a stored chunk is the piece exactly when it has its length.
* The claim (manifest check, marker read, marker write) is three separate steps
  (`src/cmd/send.rs:83`, `302`, `344`), and the lease is only refreshed between chunks.
  `ExclusionExactly` says that exclusion needs the claim to be indivisible and every lease kept, and
  that this is enough.
* The comment at `src/cmd/receive.rs:20-21` says that prefetch never buffers more than its budget.
  Two chunks may exceed it (`CeilingExactly`). Also, a chunk just written is still held when
  the window is filled again, so for that moment the chunks in memory can be one more than the
  ceiling. `ExceedsExactly` says for which streams some timing makes that happen.
* The comment at `src/cmd/retention.rs:39-41` says that narrowing a run by `--dataset` cannot orphan a
  base. It selects by name while chains follow GUIDs, so it can: `RenamedDatasetOrphaned` is such a
  run, and `ScopedRunExactly` gives the condition.
* During a run, a doomed incremental can be listed without its base, because deletion follows the
  listing, oldest first (`OldestFirst`): `DoomedMayDangle` is such a run, and `ListingOrderExactly` says when there is
  none.
* A base chosen by `send` can be expired before the commit: `BaseExpiredBetween` is such a history.
  `SendSoundExactly` says that the archive stays sound exactly when every retention run between needs
  it.
* `send` only looks whether the base is listed (`src/cmd/send.rs:102-105`, `531-549`), not whether it
  can be restored. After a retention run that stopped half-way it can be listed and dangle, and a
  send based on it reports success: `StrandedHappens` is such a life of a bucket.
  `CommitReachesExactly` says for any archive when what is committed can be restored.
* `clean` computes the protected chunk keys from the GUIDs inside the manifest, so a manifest stored
  elsewhere protects nothing (`MisfiledProtectsNothing`). A live marker that cannot be read
  counts as abandoned (`LiveSendSpared`).
* The 256-byte name field of BEGIN, as parsed, runs into the trailing checksum field
  (`src/stream.rs:393`); names that long survive because BEGIN carries no checksum there.

## Model

| member | source | states |
|---|---|---|
| Fletcher.Update | src/fletcher.rs:30-51 | the loop computes the fold of the wrapping four-sum step over the buffer's words, in either byte order; `ClosedForm` and `HigherClosedForm` say what that is |
| Fletcher.ClosedForm | src/fletcher.rs:35-50 | from zero, `a` is the sum of the words and `b` the sum weighted by distance from the end, both modulo 2^64 |
| Fletcher.HigherClosedForm | src/fletcher.rs:35-50 | from zero, the i-th of n words weighs k(k+1)/2 in `c` and k(k+1)(k+2)/6 in `d`, with k = n - i, both modulo 2^64 |
| Fletcher.ChecksumOfNumbers | src/fletcher.rs:28-51 | of the bytes that spell these words, low byte first or high byte first, all four sums are those of the numbers |
| Fletcher.SumConcat | src/fletcher.rs:28-51 | checksumming two buffers one after the other is checksumming their concatenation |
| Fletcher.ToBytes | src/fletcher.rs:84-91 | the 32 bytes written read back as the same checksum |
| Fletcher.DetectsTwoWords | src/fletcher.rs:36-45 | changing one or two words less than 2^32 words apart always changes the checksum |
| StreamReference.RecordsSplit | src/stream.rs:248-285 | the meaning of `a + b` is the meaning of `a` continued with `b`, wherever the cut falls |
| StreamReference.SlicingIndependence | src/stream.rs:248-320 | however a stream is sliced: same final state and events; or the same error with the same offset and index, after a prefix of the events |
| StreamParsing.StreamParser.Feed | src/stream.rs:248-285 | feeding a slice has the result, state and position of the reference parser resumed where the earlier slices stopped, errors included |
| StreamParsing.StreamParser.Finish | src/stream.rs:288-293 | an error unless nothing of a header or payload is pending |
| StreamParsing.StreamParser.ChecksumRagged | src/stream.rs:297-308 | the whole words among the odd bytes and the new ones are folded in, the rest is kept |
| StreamParsing.StreamParser.FlushRagged | src/stream.rs:310-320 | odd bytes are folded in padded with zeros to a word; without any, nothing changes |
| StreamParsing.StreamParser.Record | src/stream.rs:340-478 | one header is accepted or rejected, with the state of the header's specification in either case |
| StreamParsing.StreamParser.CheckHeader | src/stream.rs:370-379 | a mismatch is reported exactly for a non-BEGIN header whose non-zero embedded checksum is not the running one |
| StreamParsing.StreamParser.RecordBody | src/stream.rs:381-477 | an accepted header changes the state, reports an event and expects a payload as its type prescribes; a wrong END checksum or an unaligned payload is refused |
| StreamRecords.HeaderAccepted | src/stream.rs:340-478 | a header laid out by the table, of any of the eleven types and in either byte order, is accepted; its fields come back, and exactly the data that may follow it is expected |
| StreamRecords.WrittenStreamAccepted | src/stream.rs:340-478 | a stream of such records is accepted; exactly the data is consumed and counted, by type; GUIDs, names, features, END checksums, nesting and completion are those of the records |
| StreamRecords.NoMagicRefused | src/stream.rs:345-354 | a first header without the magic number in either byte order is refused with the number it has |
| StreamRecords.NoBeginRefused | src/stream.rs:355-357 | a first record that is no BEGIN is refused as such |
| StreamRecords.UnknownTypeRefused | src/stream.rs:361-362 | a type number above ten is refused with that number |
| StreamRecords.WrongSealRefused | src/stream.rs:371-375 | a non-zero embedded checksum other than that of the bytes ahead of it is refused, with the bytes and records before it |
| StreamRecords.WrongEndRefused | src/stream.rs:418-426 | an END with a non-zero checksum other than that of the stream ahead of it is refused, with both |
| StreamRecords.OddLengthRefused | src/stream.rs:469-471 | a payload that is no whole number of words is refused with its length |
| StreamIntegrity.RunningChecksum | src/stream.rs:297-320 | after any accepted bytes, the checksum is fletcher4 of all of them up to the last whole word or header |
| StreamIntegrity.EmbeddedChecksumMeaning | src/stream.rs:370-376 | an accepted non-zero embedded checksum is fletcher4 of exactly the bytes before it |
| StreamIntegrity.EndChecksumMeaning | src/stream.rs:413-426 | an accepted non-zero END checksum is fletcher4 of exactly the bytes before the END record |
| StreamIntegrity.FinishAcceptsCuts | src/stream.rs:288-293 | of all the cuts of an acceptable stream, `finish` accepts exactly those at the start of a record |
| StreamIntegrity.CorruptPayloadRejected | src/stream.rs:370-375 | corrupting one or two payload words less than 2^32 apart ends in a checksum error at the latest at the next record carrying a checksum, whatever follows |
| StreamIntegrity.NotBothAccepted | src/stream.rs:340-376 | two streams that differ so cannot both be accepted |
| StreamBuilding.Builder.Record | src/stream.rs:590-600 | a record is appended with the running checksum sealed in, and the checksum advances over all of it |
| StreamBuilding.Builder.Begin | src/stream.rs:602-614 | appends a BEGIN with the given GUIDs, features and name |
| StreamBuilding.Builder.Write | src/stream.rs:616-623 | appends a WRITE followed by its data |
| StreamBuilding.Builder.End | src/stream.rs:631-638 | appends an END carrying the checksum of everything before it |
| StreamBuilding.BuiltStreamAccepted | src/stream.rs:590-638 | whatever is built from a BEGIN on is accepted, with the same GUIDs, names, features and END checksums, and statistics that count the calls and bytes |
| StreamBuilding.RoundTripAnySlicing | src/stream.rs:248-285 | the same under any slicing of the output |
| StreamBuilding.BuiltWithoutBeginRefused | src/stream.rs:345-354 | anything built from another first call is refused as not a stream |
| Chunking.CutIsPartition | src/cmd/send.rs:367-402 | the pieces join to the stream, all but the last have exactly the chunk size, none is empty |
| Chunking.CutOfPrefix | src/cmd/send.rs:373-381 | a stream that ends early has the same pieces, the last possibly shorter |
| Chunking.AdaptiveChunkCount | src/cmd/send.rs:56-60 | the size is in its bounds, is a bound or a multiple of 16 MiB, and gives at most 1001 chunks unless it is the upper bound |
| Chunking.AdaptiveSizeExactly | src/cmd/send.rs:56-60 | the smallest multiple of 16 MiB that is at least a thousandth of the stream and the lower bound, cut off at the upper bound |
| Chunking.Verify | src/cmd/verify.rs:13-42 | passes exactly the intact archives; otherwise names the first chunk at fault, or the total, or the whole-stream digest |
| Chunking.CommittedVerifies | src/cmd/verify.rs:19-42 | what a send commits passes, and its chunks in order are the stream |
| Chunking.VerifiedIsTheStream | src/cmd/verify.rs:33-42 | with an injective digest, whatever passes is that same stream |
| Protocol.NextKeepsInv | src/cmd/send.rs:286-448 | every step of send, retention or clean, and stopping after any, keeps the invariant of a directory |
| Protocol.ManifestMeansBackup | src/cmd/send.rs:433-448 | in every state of every run of the bucket, a manifest means that all its chunks are stored and verify, and that they are the stream |
| Protocol.UploadWindow | src/cmd/send.rs:404-435 | finished and in-flight uploads are exactly the chunks read so far, in flight never more than `max(parallel, 1)`, and the finished ones are stored byte for byte |
| Protocol.NothingMissing | src/cmd/send.rs:441-447 | once drained, the uploads are as many as the chunks |
| Protocol.ResumeBySize | src/cmd/send.rs:404-406 | under a marker, a stored chunk is a beginning of its piece, and is the piece exactly if it has its length |
| Protocol.ShortChunkHappens | src/cmd/send.rs:374-439 | a run that leaves a chunk which is not its whole piece under a marker |
| Sending.Claim | src/cmd/send.rs:288-344 | steps aside exactly for a live lease, touching nothing; otherwise keeps the stored chunks exactly if a readable marker says they are of this stream, clears them if it says otherwise, cannot be read or is missing, and writes its own marker; breaks off only when a deletion or the write is reported as failed, whether or not it happened |
| Sending.UploadOrSkip | src/cmd/send.rs:404-431 | every outcome is a sequence of protocol steps; on success one more chunk is accounted for; it fails only when an upload is reported as failed |
| Sending.SendStream | src/cmd/send.rs:345-455 | on success the whole stream was read, is valid, ended between records, every chunk is stored, and chunk list, size, digest and END checksum are those of the stream; a failure has a cause: a fault outside, `zfs send` ending badly, or a stream that is not valid; and if no two readings of the clock are a minute apart, the lease never runs out while chunks are read |
| Sending.KeepAlive | src/cmd/send.rs:387-393 | the lease is renewed exactly when a minute has passed since it was last done, with the time of the check |
| Sending.LastEndIs | src/cmd/send.rs:382-386 | the checksum kept is that of an END after which there is none, and there is none kept only if there is no END |
| Sending.Send | src/cmd/send.rs:82-222 | whatever happens, a visible manifest is a whole backup; success means that the valid stream is what the bucket holds, and that the manifest names dataset, snapshot, GUIDs, `createtxg`, time, base and flags of what was sent and is filed under its own GUIDs; without a fault outside, a valid stream that came out whole is archived and the marker is gone |
| Sending.Forget | src/cmd/send.rs:215-222 | unless the deletion is reported as failed, the marker is gone |
| Lease.ExclusionExactly | src/cmd/send.rs:82-92 | over all interleavings of any number of runs, at most one uploads and none into a finished directory, if and only if the claim is indivisible and no run outlives its lease |
| Lease.HistoryOwned | src/cmd/send.rs:387-393 | under those rules whoever uploads owns the marker and its lease is live |
| Overlapping.SeenAs | src/cmd/send.rs:288-345 | every step of overlapping sends is a move of the lease protocol, or none it sees |
| Overlapping.OverlapIsSerial | src/cmd/send.rs:286-448 | what any number of sends overlapping under those rules did to the directory, one command after another could have done |
| Overlapping.OverlapBacksUp | src/cmd/send.rs:309-313 | so for overlapping sends too, a manifest means that all its chunks are stored and are the stream |
| Archive.AutoBase | src/cmd/send.rs:522-552 | among the manifests of the dataset that some older local snapshot or bookmark stands for, the base is the one that ranks first, by the name of the first such local snapshot, or else bookmark; full only if there is none; the base is archived in the dataset |
| Archive.ExplicitBase | src/cmd/send.rs:98-110 | refused exactly when no manifest of the dataset has the base's GUID; otherwise that base, archived in the dataset |
| Archive.ChooseBase | src/cmd/send.rs:94-113 | a full on request; an explicit base exactly if the dataset has it archived; otherwise the first-ranked usable manifest or, if there is none, a full; the base is archived in the dataset |
| Archive.CommitSoundExactly | src/cmd/send.rs:98-113 | a commit keeps every restore chain complete exactly when its base is still archived in the same dataset |
| Archive.CommitReachesExactly | src/cmd/send.rs:98-113 | in any archive, sound or not, what is committed can be restored exactly if it is a full, or its base is archived and can itself be restored |
| Archive.BaseSurvivesExactly | src/cmd/send.rs:82-113 | a base archived when it was chosen is still the same archived backup at the commit exactly when every retention run between needs it, by its listing and policy |
| Archive.SendSoundExactly | src/cmd/send.rs:82-213 | choosing a base in one state of a history and committing in a later one keeps every chain complete exactly when every retention run between needs the base |
| Archive.BaseExpiredBetween | src/cmd/send.rs:94-213 | a history in which a run between choice and commit expires the base, so that the commit would leave a broken chain |
| Archive.CleanKeepsArchive | src/cmd/clean.rs:74-89 | after a clean, the manifests stored are those stored before |
| Archive.RetainSound | src/cmd/retention.rs:141-183 | a completed unscoped retention run keeps every restore chain complete |
| Archive.HistoryRestores | src/cmd/receive.rs:62-87 | in every state of every history of commits, retention, cleans and pins, each listed snapshot has a complete chain from a full, in its own dataset, without repetition |
| Chains.WalkChain | src/cmd/receive.rs:62-87 | the loop terminates on any links and computes the walk |
| Chains.WalkOutcome | src/cmd/receive.rs:66-87 | the walk completes, breaks or is circular exactly when the links reach a full, leave the archive or revisit a snapshot; a completed chain is duplicate-free, linked, from a full to the tip |
| Chains.WalksUnchanged | src/cmd/receive.rs:62-87 | removing manifests leaves all remaining walks as they were exactly when no remaining link loses its base |
| Retention.KeepSet | src/cmd/retention.rs:141-183 | terminates on any manifests and returns the least set with the newest of each dataset, the recent and the pinned that is closed under archived links; in plain terms: what is pinned, archived after the cutoff, or has fewer than `keep_last` of its dataset archived after it, and what those are restored from |
| Retention.KeepSetPlainly | src/cmd/retention.rs:150-182 | the least such set is exactly what is wanted for itself in those plain terms, and what lies behind it |
| Retention.KeepNewest | src/cmd/retention.rs:150-162 | keeps exactly the backups of each dataset that fewer than `keep_last` rank ahead of, by archive time and then listing order |
| RetentionLaws.KeepMonotone | src/cmd/retention.rs:150-168 | a larger count, an earlier cutoff or more pins never keep less |
| RetentionLaws.RetentionIdempotent | src/cmd/retention.rs:147-182 | the same policy on what it left deletes nothing |
| RetentionLaws.KeptChainsNeverBreak | src/cmd/retention.rs:77-127 | whatever part of the doomed has been deleted, the walk from a kept snapshot is link for link what it was |
| RetentionLaws.KeptExactly | src/cmd/retention.rs:169-182 | what is kept is exactly the seeds and whatever lies behind one by archived links |
| RetentionLaws.ScopedRunExactly | src/cmd/retention.rs:39-58 | a scoped run leaves every surviving walk as it was exactly when every base in the scope of a manifest outside it is a seed of the policy or lies behind one |
| RetentionLaws.ListingOrderExactly | src/cmd/retention.rs:77-127 | deleting in listing order leaves, at every position, every walk still listed as it was, exactly when no doomed backup is listed before a doomed one based on it and the scope keeps what the outside needs |
| Listing.List | src/cmd/mod.rs:90-138 | all manifests found, datasets together, then by `createtxg`, then by GUID; none at all exactly when one of them cannot be used |
| Listing.OrderFromKeys | src/cmd/mod.rs:129-136 | in a listing, no unneeded backup comes before an unneeded one based on it exactly if each such dependent has the smaller key |
| Listing.OldestFirst | src/cmd/mod.rs:129-136 | where bases are older than what is based on them, that is so exactly if the run dooms no backup together with its base |
| Expiring.RenamedDatasetOrphaned | src/cmd/retention.rs:44-58 | a scoped run that deletes the base of an incremental whose dataset was renamed, which can then not be restored |
| Expiring.Expire | src/cmd/retention.rs:105-125 | one backup goes manifest first, one object at a time; in every state on the way no listed backup lacks a chunk, all doomed ahead of it are erased and nothing of those after it is gone |
| Expiring.ExpireAll | src/cmd/retention.rs:86-127 | the doomed go one after another in listing order, and a failed deletion ends the run where it is |
| Expiring.Retain | src/cmd/retention.rs:30-136 | refuses to run without a policy; otherwise deletes exactly outside the least keep set, in plain terms and with one per dataset as the default, in listing order; every state of the bucket on the way is at some position of the list; stops only at a deletion reported as failed, and otherwise leaves no marker either |
| Expiring.MatchesExactly | src/cmd/retention.rs:42-50 | a pattern ending in `*` selects the names it begins, any other the name itself, and none selects all |
| Expiring.KeptBackupsHold | src/cmd/retention.rs:77-127 | at every moment and wherever it stops, each kept snapshot walks its old chain and every backup on it has all its objects |
| Expiring.ListedInOrder | src/cmd/retention.rs:87-107 | at every moment the archive as listed lacks exactly the doomed ahead of some position |
| Expiring.OrderlyRunsHold | src/cmd/retention.rs:77-127 | when no doomed backup is listed before a doomed one based on it, everything still listed restores as before at every moment |
| Expiring.DoomedMayDangle | src/cmd/retention.rs:77-107 | a run, for any doomed full listed before a doomed incremental on it, one deletion into which the incremental is listed and cannot be restored |
| Deletions.ExpiryStep | src/cmd/retention.rs:105-125 | each single deletion of a retention run is one protocol step in the directory of its key, and none in any other |
| Deletions.RetentionIsPath | src/cmd/retention.rs:87-127 | a retention run, or as much of it as was done, is a path of the protocol in the directory of every stored manifest |
| Receiving.CeilingExactly | src/cmd/receive.rs:29-38 | the ceiling is the largest depth that window and budget allow, or the floor; it breaks the budget exactly when the floor does |
| Receiving.CeilingInNumbers | src/cmd/receive.rs:22-38 | one fetch for a window of at most one; otherwise two to the window, within 512 MiB if more than two, and as many as that allows |
| Receiving.PrefetchBounds | src/cmd/receive.rs:201-240 | for every timing the target stays in its bounds and moves by at most one, and the chunk written and the fetches in flight never exceed the ceiling |
| Receiving.ExceedsExactly | src/cmd/receive.rs:205-240 | some timing has more chunks in memory than the ceiling, when the window is refilled, exactly for streams of at least the ceiling plus the larger of one and ceiling minus floor chunks |
| Receiving.TargetClimbs | src/cmd/receive.rs:208-213 | if every chunk is waited for, the target climbs one by one to the ceiling |
| Receiving.TargetSettles | src/cmd/receive.rs:208-213 | if every chunk is ready, it falls one by one to the floor |
| Receiving.WithinBudget | src/cmd/receive.rs:20-38 | while a chunk is written, it and the fetches in flight stay in the byte budget, unless the floor alone exceeds it |
| Receiving.Apply | src/cmd/receive.rs:147-246 | for every answer of the store, every readiness and every write failure, what `zfs receive` gets is at all times a prefix of the checked chunks in order, and on success all of them; after each of as many refills as chunks were written, and after the first fill, the window is full or nothing is left |
| Receiving.DeliveredIsTheStream | src/cmd/receive.rs:175-184 | with an injective digest, chunks that pass their checks are a prefix of the stream, and all of them are all of it |
| Receiving.TakesWhatVerifies | src/cmd/receive.rs:163-185 | what a restore takes from a store that returns what it holds is exactly what `verify` passes, chunk by chunk |
| Receiving.Pick | src/cmd/mod.rs:162-185 | the manifest picked is the only one of that name; none and several are told apart |
| Receiving.Receive | src/cmd/receive.rs:52-134 | success applies all streams of a duplicate-free chain from a full to the named snapshot; an interruption applies a prefix of them, has a cause (a chunk of the next stream that is not as described, or a failure of the pipe or of `zfs receive`), and leaves nothing half-received if that can be cleared; nothing is applied when the name is not that of exactly one manifest or the walk fails |
| Receiving.RestoredExactly | src/cmd/receive.rs:106-121 | what a successful restore applies is the streams the manifests describe, in order |
| Receiving.BackupRestores | src/cmd/receive.rs:147-246 | in every state of every run of the bucket, a manifest found there restores to the stream it was made from |
| Keys.GuidRoundTrip | src/types.rs:16-58 | a displayed GUID parses back, so no two share a key |
| Keys.KeysDistinct | src/manifest.rs:145-160 | chunk, manifest and marker keys of different snapshots or numbers never coincide |
| Keys.KeyShapes | src/manifest.rs:145-160 | manifest, marker and chunk keys are the two GUIDs and the file name, between slashes |
| Keys.SplitThree | src/cmd/clean.rs:26-31 | a key of three parts is the path made of them |
| Cleaning.Group | src/cmd/clean.rs:23-36 | every object of three parts outside `pins` is in exactly the group of its directory |
| Cleaning.Judge | src/cmd/clean.rs:41-90 | what goes from one directory, and that an unreadable manifest is noticed |
| Cleaning.Clean | src/cmd/clean.rs:38-121 | removes exactly the garbage, one object at a time; removes nothing when any manifest cannot be read; stops only at a deletion reported as failed, with only garbage removed |
| Cleaning.ManifestSpared | src/cmd/clean.rs:74-89 | no directory's manifest is removed, nor anything outside the directories |
| Cleaning.NamedChunkSpared | src/cmd/clean.rs:78-89 | no chunk named by a manifest stored under its own GUIDs is removed |
| Cleaning.MisfiledProtectsNothing | src/cmd/clean.rs:47-89 | a chunk of a manifest stored elsewhere stays exactly if its own directory has a manifest naming it, or none and a live marker, or one that stops the command |
| Cleaning.LiveSendSpared | src/cmd/clean.rs:47-72 | a live send loses everything exactly if its marker cannot be read, and otherwise nothing |
| Cleaning.AbandonedGoes | src/cmd/clean.rs:47-72 | in a directory without a manifest everything goes, unless its marker can be read and is less than five minutes old |
| Cleaning.CleanComplete | src/cmd/clean.rs:38-90 | what remains in a directory is its manifest, chunks it names, or a live send |
| Cleaning.CleanIdempotent | src/cmd/clean.rs:92-102 | a second run at the same time finds nothing |
| Deletions.CleanStep | src/cmd/clean.rs:106-114 | each single deletion of a clean is one protocol step in the directory of its key, and none in any other |
| Deletions.CleanIsPath | src/cmd/clean.rs:41-114 | a clean, or as much of it as was done, is a path of the protocol in every directory whose marker can be read and whose manifest is its own, and does nothing where a send is at work |
| EndToEnd.LifeGood | src/cmd/send.rs:286-448 | over any steps of sends, cleans and retention runs, interrupted or not, and commits on any base: the archive is what the directories hold, every manifest means a whole backup, and what was neither decided against nor committed on an unsafe base is sound |
| EndToEnd.LivingWalks | src/cmd/receive.rs:62-87 | at any time in that life, even in the middle of a retention run, a snapshot neither decided against nor committed on an unsafe base walks a complete chain, in its own dataset |
| EndToEnd.Restore | src/cmd/receive.rs:41-134 | at any time in that life, a successful restore by name has applied exactly the streams of the chain, from a full to the one named, and an interrupted one a prefix of them; only a snapshot decided against, or committed on an unsafe base, can fail for its chain; any other that alone has its name is restored if the store returns what it holds under each number and nothing fails |
| EndToEnd.StrandedHappens | src/cmd/send.rs:102-113 | a life in which a send passes the check of its base and commits what cannot be restored, though no retention run decided against it |

## Left out

- `src/store/`: signing, HTTP, pagination, checksum probes, multipart uploads and versioned buckets.
- `src/zfs.rs`, `src/main.rs`, `check`, `list`, `pin`: subprocesses, console and command line. Local snapshots and bookmarks are given lists; holds and bookmarks are not modelled.
- BLAKE3, CRC32C, JSON, UUIDs and tokio: a digest is any function, decoding succeeds on what was encoded, an in-flight upload is a map entry that may land at any time.
- `retry` is success or failure; the number of attempts and the waits are not modelled.
- `parse_size`, `parse_age`, feature names, the size estimate: facts of one branch only.
- `check_version`: every manifest is of the one format version.
- StreamParsing.StreamParser.Record: record, byte, object, write and free counters are unbounded where the program has 64 bits, since they count what was received; `write_bytes` and `depth` wrap as in a release build. Names are the raw bytes up to the first NUL, before lossy UTF-8 decoding.
- Sending.SendStream: chunk numbers and sizes are unbounded where the program has 32 and 64 bits. An upload joined by the program lands then at the latest; landing earlier is in the protocol's `Land` step.
- Protocol.ManifestMeansBackup: one command at a time per snapshot directory. Overlapping sends are in `Overlap.dfy`, under the rules of `Lease.dfy`; nothing is claimed where those fail, or where a clean or a retention run overlaps a send of the same snapshot.
- Sending.SendStream: the lease is renewed between chunks only, as in the program; nothing is said of it while the last uploads are waited for.
- Lease.ExclusionExactly: cleans and retention runs are not among the interleaved runs, and there is one clock.
- Archive.HistoryRestores: retention runs are unscoped and complete; partial ones are in `Expire.dfy` and `EndToEnd.dfy`, scoped ones in `Expire.dfy`. A base must still be archived when its incremental commits; `SendSoundExactly` says when it is.
- EndToEnd.LifeGood: retention runs are unscoped. A snapshot once decided against counts as such for good, even when it is sent again.
- Sending.Claim: listing the directory and reading its marker do not fail; where they do, the program ends before it has done anything.
- Deletions.CleanIsPath: directories whose marker cannot be read, or whose manifest names other GUIDs, are in `LiveSendSpared` and `MisfiledProtectsNothing`.
- Overlapping.OverlapIsSerial: no damaged markers, which the lease cannot see.
- Receiving.Receive: whether `zfs receive` accepts a stream is arbitrary; what it does with one is not modelled.
- Cleaning.Clean: the objects and their contents are read at one moment; a marker or manifest that changes during a run is not modelled. Deletions come in arbitrary order.
