# A verified model of the mod manager's update, gossip and ordering core

The manager distributes game mods. A published mod is described by a signed manifest of content-defined
chunks; an update compares the manifest on disk with the new one, takes what it can from files already there,
fetches the rest from peers straight into staging files, and swaps them in. New versions are announced by
gossip between peers. Around this stand an index of the game's own files, the life cycle of a fetch, and the
load order with its undo.

The project models these parts in Dafny and proves what they promise: `dafny verify dfyconfig.toml` checks
everything.

## How the model is built

Each component is a module. What an operation does is a function on plain values; the loop or class of the
original is a method proved to compute that function; what the component promises is then a lemma about the
function, for every input, every run or every reachable state. What a function decides is also stated a second
time, from the characters, bytes, lists or calls alone and with the limits written out, and the two are proved
to agree: these lemmas are in the modules whose names end in `Law` or `Meaning`, in `WireLayout` and
`ExtensionApproval`, or beside the function.

- **Update.** `FileStore` is the disk, a map from paths to bytes. `Chunker`, `DeltaSize`, `Manifest` and
  `DescribedManifest` cut, describe, encode and decode. `Differ` plans, `Installer` and `Assembly`
  materialise, `VerifiedStaging` says what hash-checked staging leaves, `Update` puts all this together, and
  `ScannedCatalogue` supplies what is asked of the catalogue of the game's files. `PathLaw` and `ManifestLaw`
  say which paths and documents are accepted. `Staging`, `ChunkLocator`, `RangeIo` and `FetchRun` lay out
  staging files and route downloaded blocks into them, `SeedLookup` is what a seeding torrent finds;
  `PlacedInstall` and `FetchedUpdate` show that finishing without hashing those chunks again refines the plain
  install, and `ResumedStaging` does the update over whatever an interrupted one left.
- **Gossip.** `AnnounceCodec` and `WireCodec` are the byte layouts, `Receiver` the gate, `PeerBudget`, `Wants`
  and `Exchange` what is kept about peers; `WireLayout` and `BudgetMeaning` are what bytes and budgets mean.
  `Gossip` is the protocol as a state machine over any number of nodes in which any message may arrive
  anywhere, late, twice, forged or never; `GossipJoint` adds the peer budgets to it, `GossipPeer` are the
  handlers and `GossipMeaning` says what each message brings about. `RecordGate` is what the budgets let
  through of a burst of records and what comes after its wants were dropped, `GossipRound` what an exchange of
  offer, want and records achieves given that, and `GossipSpread` what many of them achieve together.
  `PeerWitnesses` reaches the states in which the throttle gives way.
- **Indexes and life cycles.** `BaselineCatalogue` and `BaselineScheduler` index the game's own files,
  `IndexedFiles` runs the two together and `SchedulerMeaning` adds up the figures. `Fetching` and
  `TransferSession` own a fetch and its destination table, `TransferMeaning` is what the calls make of them.
  `OrderFile` and `OrderService` keep the load order, with `OrderFileLaw` and `OrderMeaning`.

The hash, the signature check, the chunk source, which extension packages are trusted, the path policy of the
manifest codec, file stamps and image checks are parameters: the theorems hold for every choice of them. No
collision-freeness is assumed anywhere. "Matches" means that each chunk's bytes hash to the digest the
manifest gives.

## Premises

- Target paths are distinct. The manifest decoder does not check this (`Manifest.RepeatedPathAccepted`), so
  `SoundManifest` asks for it where an update is concerned.
- The fast install is compared with the plain one after a fresh stage, one in which no staging file was
  resumed, and after writes that filled every wanted chunk. `ResumedUpdateInstallsTarget` covers any stage: it
  asks that fetched ranges have their digests, which the torrent library checks, and that the download left
  the ranges held in place alone. The fast form does not hash what was placed; `PlacedInstallRefinesApply`
  states exactly when that makes no difference. `FetchedUpdateInstallsTarget` asks that the written bytes hash
  to their digests, which is what the torrent library checks, and that held chunks to which the held manifest
  gives another length than the target does are there.
- The copy that seeds a staging file succeeds, and disk operations succeed or change nothing.
- Where chunk bytes are compared with the disk as it was, no catalogue file is a staging file. A scanned
  catalogue never names one (`ScannedCatalogueApart`); `UpdateInstallsTarget` does not need it.
- The torrent's own folder holds no file of the mod.
- Begin, cancel and poll are single steps. The original confirms removals and clears destinations in two
  locked steps; `SplitPollKeepsTableExactly` says exactly what that costs when a begin slips between them.
- Clocks do not run backwards, and the key registry does not change during a run.
- Each record of a round comes with the time of the last tick before it; the tick drops wants that are five
  minutes old. How far the tick may lag is a parameter where it matters (`RoundTakesFew`), and free elsewhere.
- Restoring the index is one step; a discard while it adopts is a discard right after it.
- Scanned files differ in their lower-case, forward-slash spelling.

## Where code and expectation differ

Each of these comes with an input or a run that shows it, and most with the exact condition.

- A decoded announce record may carry bytes after the name's first zero (`AnnounceCodec.SmudgedIsAccepted`);
  re-encoding drops them (`AnnounceCodec.ReencodingIsCanonical`).
- A folder name with a line feed is accepted and comes back from the load order file as two folders
  (`OrderFile.LineFeedExample`, `OrderFile.OrderRoundTrip`).
- Undo restores the list but writes the file anew: a file appears where there was none
  (`OrderService.UndoLeavesANewFile`), and comments in a hand-edited one are lost. The file is as before
  exactly when it was the printed order (`OrderService.UndoRestores`).
- A penalty is lost when 512 other peers are all blocked (`PeerWitnesses.FullOfBlockedLosesAPenalty`,
  `Exchange.PenaltyRecordedExactly`).
- An evicted peer starts again with a full bucket (`PeerWitnesses.SixteenAtOneInstant`);
  `Exchange.ThrottleBound` counts such returns, and without them the bound is 8 and one a minute.
- An honest peer, new to the taker, that answers a want for 16 or more newer announces at once gets 8 through
  and is then blocked (`GossipRound.SixteenAtOnceBlocksTheGiver`); the whole answer gets through at once
  exactly when there are tokens for it (`GossipRound.RoundAtOnceExactly`), and blocks the giver exactly when
  it is eight or more longer (`GossipRound.RoundBlocksExactly`).
- An honest peer whose answer comes after the tick has dropped the wants, five minutes or more after the
  offer, is penalised and cut off (`GossipRound.LateAtFirstMeeting`, `GossipRound.LateAnswerBlocksTheGiver`).
  With the throttle this means that one round brings 13 announces at most, 14 with a lagging tick
  (`GossipRound.RoundTakesFew`): a table that lacks more needs several rounds.
- A peer penalised before its bucket was ever looked at is refused once more when its block ends, and waits
  another minute: its minutes only count from that look (`BudgetMeaning.UnseenPeerWaitsLonger`).
- A refill starts the next minute at the look that made it; the part of a minute gone by is lost
  (`BudgetMeaning.ConsumeMeaning`).
- A record sent twice is a violation the second time (`GossipRound.TwiceAtFirstMeeting`,
  `Gossip.SecondRecordIsAViolation`).
- A description is unsound exactly when a chunk of 2^32 bytes or more was cut (`DeltaSize.DescribedSound`), as
  in `DeltaSize.WideExample`; the default sizes never do.
- A manifest that names a path twice is accepted (`Manifest.RepeatedPathAccepted`).

## Model

| member | source | states |
|---|---|---|
| FetchedUpdate.FetchedUpdateInstallsTarget | src/manager/install/ContentInstaller.cpp:154-213 | compare, stage afresh, write every wanted chunk in place, finish without hashing again and without any chunk source: if the written bytes of each wanted chunk hash to its digest the install gets through up to the approval, and then every target file matches its manifest entry, files only held are gone, files of neither manifest are as before, and the report is the plan's |
| FetchedUpdate.PlacedNeedsNoSource | src/manager/install/ContentInstaller.cpp:104-144 | the fast form never asks the chunk source: its outcome is the same for every source |
| ResumedStaging.ResumedUpdateInstallsTarget | src/manager/install/ContentInstaller.cpp:154-213 | whatever an interrupted update left behind: compare, stage, download and finish without hashing again get through up to the approval, and then the target folder matches the new manifest, files only held are gone and the rest is untouched, if every fetched range has its digest and the ranges held in place were not written |
| PlacedInstall.PlacedInstallRefinesApply | src/manager/install/ContentInstaller.cpp:82-168 | after a fresh stage filled by successful writes, the plain install succeeds exactly when the fast one does and every chunk taken on trust is intact; both then leave the same files outside the torrent's folder and the same report, and when every skipped chunk resolves they fail with the same error |
| PlacedInstall.StagedTableApart | src/manager/install/FetchPlanner.cpp:13-48 | the destination table of a fresh stage has pairwise disjoint entries, all inside staging files |
| Update.UpdateInstallsTarget | src/manager/install/ManifestDiffer.cpp:70-112 | whenever diff then apply succeeds, whatever the catalogue names, the target folder matches the manifest chunk by chunk, files only held are removed, everything else is untouched and the report carries the plan's byte totals |
| Update.PlainInstallVerifies | src/manager/install/ContentInstaller.cpp:82-160 | a hash-checked install that succeeds leaves every planned file with the digests asked for, wherever its chunks were read from |
| Update.InstallVerifies | src/manager/install/ContentInstaller.cpp:82-168 | in either form a successful install leaves every planned file with the digests asked for, if the ranges taken on trust have theirs in the staging files |
| Update.FailureRemovesNothing | src/manager/install/ContentInstaller.cpp:170-213 | whatever the plan, one that names a file twice included, a failed install has removed nothing and touched nothing but its staging files and targets |
| ExtensionApproval.ApprovedReplacement | src/manager/extensions/ExtensionInstallApproval.cpp:8-66 | a plan with one package is approved exactly when the staged package is there, is trusted, has the planned size and consists of the planned pieces, end to end, each with its digest |
| ExtensionApproval.ApprovedInPlace | src/manager/extensions/ExtensionInstallApproval.cpp:27-46 | a plan without one is approved exactly when the package is removed, is not there, or is trusted as it is |
| ExtensionApproval.ApprovedOnce | src/manager/extensions/ExtensionInstallApproval.cpp:17-26 | a plan that writes the package twice is never approved |
| Update.FailureLeavesFiles | src/manager/install/ContentInstaller.cpp:170-213 | in both forms, any error leaves every path that is not a staging name of the plan as it was |
| Update.UpdateNeedsOnlyUnbackedChunks | src/manager/install/ManifestDiffer.cpp:44-68 | with a truthful held folder and catalogue, staging succeeds exactly when every chunk that neither backs is served with the right length and digest |
| ScannedCatalogue.ScannedCatalogueApart | src/manager/baseline/BaselineFileScanner.cpp:11-22 | a catalogue of scanned pack files never names a staging file |
| ScannedCatalogue.ScannedCatalogueTruthful | src/manager/baseline/BaselineChunkCatalogue.cpp:13-22 | while the adopted records still describe their files, every place the catalogue gives holds bytes with the digest |
| Update.MaterialisedAt | src/manager/install/ContentInstaller.cpp:170-213 | the installer's outcome in both modes: the first failing chunk's error with no path but staging files touched, or every target assembled, every removal done and every other path unchanged |
| Update.DiffIsSound | src/manager/install/ManifestDiffer.cpp:70-112 | a plan from sound manifests has distinct payload paths, tiled files, no staging file as a source and removals apart from targets |
| Assembly.PlaceChunksAssembles | src/manager/install/ContentInstaller.cpp:113-144 | placing chunks in order leaves exactly the concatenation of the resolved chunks, in both modes, and reports the first chunk that does not resolve |
| Assembly.SwapFilesAt | src/manager/install/ContentInstaller.cpp:55-71 | renaming every staged file moves its bytes to its target and touches nothing else |
| Assembly.StagingNamesApart | src/manager/install/ContentInstaller.cpp:89-90 | two planned files share a staging name exactly when they share their path, and no staging name is the target of a payload path |
| Installer.ContentInstaller.Materialise | src/manager/install/ContentInstaller.cpp:170-213 | the loops over files, swaps and removals compute the specified outcome, disk and report, stopping at the first error |
| Installer.ContentInstaller.WriteStagedFile | src/manager/install/ContentInstaller.cpp:82-152 | one file's staging loop computes the specified disk, report and error |
| Installer.ContentInstaller.PlaceOne | src/manager/install/ContentInstaller.cpp:113-144 | one placement: credited unseen when skipped, otherwise resolved, checked, written at its offset and credited |
| Installer.ContentInstaller.Apply | src/manager/install/ContentInstaller.cpp:154-160 | every chunk is resolved and hash-checked |
| Installer.ContentInstaller.ApplyPlaced | src/manager/install/ContentInstaller.cpp:162-168 | remote chunks and chunks seeded in place are skipped |
| InstallPlans.CountBytes | src/domain/types/distribution/InstallPlan.cpp:22-44 | the nested loops add up the placements of one source kind |
| Differ.Diff | src/manager/install/ManifestDiffer.cpp:70-112 | the loops build the plan: changed files placed chunk by chunk, then the held paths the target lacks |
| Differ.IndexHeldChunks | src/manager/install/ManifestDiffer.cpp:11-27 | the first occurrence of a digest among the held files is the one indexed |
| Differ.PlacedExactly | src/manager/install/ManifestDiffer.cpp:44-95 | every planned file has the size of its target file and every chunk in its place, taken from the first held chunk with its digest, otherwise from the place the catalogue gives if that is as long, and otherwise from a peer |
| Differ.UnchangedExactly | src/manager/install/ManifestDiffer.cpp:29-41 | with distinct held paths a file counts as unchanged exactly when it is one of the held files, chunks and all |
| Differ.PlannedExactly | src/manager/install/ManifestDiffer.cpp:78-94 | with distinct held paths the planned files are exactly the target files that are not among the held ones, in their order, each with the placements of its own chunks |
| Differ.UpToDateExactly | src/manager/install/ManifestDiffer.cpp:70-112 | a plan is empty exactly when every target file is held as it is and every held path is in the target |
| Differ.SameIsUpToDate | src/manager/install/ManifestDiffer.cpp:70-112 | comparing a manifest with itself gives an empty plan |
| Differ.RemovalsCover | src/manager/install/ManifestDiffer.cpp:96-109 | a path is removed exactly when it is held and not in the target |
| Staging.Stage | src/manager/install/FetchPlanner.cpp:13-48 | the staging loops compute the specified request, wanted names and disk |
| Staging.StageAsksForMissing | src/manager/install/FetchPlanner.cpp:23-48 | destinations are exactly the remote placements, and the wanted names exactly the file names of their digests, each once and no other |
| Staging.DestinationsApart | src/manager/install/FetchPlanner.cpp:32-47 | two destinations that overlap are the same |
| Staging.DestinationClearOfHeld | src/manager/install/FetchPlanner.cpp:28-47 | no destination meets a range already seeded in place |
| Staging.StageAllFresh | src/manager/install/StagedFileSeeder.cpp:74-106 | when nothing resumes, each staging file is a copy of its original cut or grown to size, and nothing else changes |
| Staging.StagedFileSeeder.StagedMatchesHeldRanges | src/manager/install/StagedFileSeeder.cpp:12-48 | an existing staging file is kept exactly when every range held in place lies inside it and still hashes right |
| Staging.StagedFileSeeder.Seed | src/manager/install/StagedFileSeeder.cpp:74-106 | the seeded disk, and the resumed flag set and never cleared |
| ResumedStaging.ResumesExactly | src/manager/install/StagedFileSeeder.cpp:12-48 | a staging file is resumed exactly when it exists and every range held in place lies inside it and has its digest |
| ResumedStaging.SeededMeaning | src/manager/install/StagedFileSeeder.cpp:74-106 | over any earlier disk: a resumed file is kept, cut or grown to size, any other is the original cut or grown to size, nothing else is written, and with a truthful original every range held in place has its digest either way |
| ResumedStaging.StageAllSeeds | src/manager/install/FetchPlanner.cpp:13-48 | a whole stage over any earlier disk: each staging file seeded on its own, nothing else written, resumed exactly when one was kept |
| ResumedStaging.StagedRangesHold | src/manager/install/FetchPlanner.cpp:13-48 | after it, resumed or not, every range held in place has its digest in its staging file |
| RangeIo.ChunkRangeIo.Write | src/downloader/storage/ChunkRangeIo.cpp:150-210 | slice by slice, every destination of a chunk is written, files without destination go to the save path, a piece past a destination fails |
| RangeIo.ChunkRangeIo.Read | src/downloader/storage/ChunkRangeIo.cpp:65-148 | slice by slice from the first destination, or from the seeded location, with the outcome and the file index of the first slice that cannot be served |
| FetchRun.FreshRunMirrors | src/downloader/storage/ChunkRangeIo.cpp:150-210 | over every run of successful writes each written byte is at all its destinations, and every byte no destination covers is as staged |
| FetchRun.DestinationsAgree | src/downloader/storage/ChunkRangeIo.cpp:177-195 | all destinations of one chunk agree on every byte written so far |
| FetchRun.ReadReturnsWritten | src/downloader/storage/ChunkRangeIo.cpp:90-124 | reading a stretch back returns the last bytes written to it |
| FetchRun.SeedReadExactly | src/downloader/storage/ChunkRangeIo.cpp:126-148 | seeding reads a chunk at the first place registered for it, and faults exactly when that place does not hold it |
| FetchRun.FetchReadExactly | src/downloader/storage/ChunkRangeIo.cpp:90-124 | a fetch reads a chunk from its first destination and anything else from its own folder; it faults only past the end of a chunk and otherwise reports what is not there as absent |
| FetchRun.WriteRefusedExactly | src/downloader/storage/ChunkRangeIo.cpp:177-195 | a write to the destinations of a chunk is refused exactly when it reaches past the end of one of them |
| FetchRun.OwnFileReadBack | src/downloader/storage/ChunkRangeIo.cpp:197-207 | what has no destination goes to its own file below the save path, touches nothing else there or elsewhere, and is read back |
| FetchRun.PaddingMeaning | src/downloader/storage/ChunkRangeIo.cpp:79-83 | padding reads as zeros and is never written |
| PayloadPath.NormalisePath | src/manager/payload/PayloadPathPolicy.cpp:72-142 | the splitting and checking loops give the specified verdict |
| PathLaw.AcceptedExactly | src/manager/payload/PayloadPathPolicy.cpp:72-142 | a path is accepted exactly when it is good, stated over its characters and the stretches between separators: not empty, at most 240 long, no control character, colon or leading separator; no stretch empty, a dot, two dots, ending in a dot or space, or a device name; and the last one a payload name, or the extension's or the metadata file's standing alone |
| PathLaw.NormaliseReports | src/manager/payload/PayloadPathPolicy.cpp:72-142 | each verdict, exactly: the normalised path, or the first error in the order of the checks |
| PathLaw.AcceptedStaysInside | src/manager/payload/PayloadPathPolicy.cpp:50-70 | no accepted path has a stretch of two dots |
| PathLaw.FileInFolderAccepted | src/manager/payload/PayloadPathPolicy.cpp:72-142 | a plain payload file in a plain folder is accepted |
| PayloadPath.NormaliseIdempotent | src/manager/payload/PayloadPathPolicy.cpp:72-142 | an accepted path normalises to itself the second time |
| PayloadPath.StagingNameRefused | src/manager/payload/PayloadPathPolicy.cpp:41-48 | no name with the staging suffix is ever accepted, whatever precedes it |
| Chunker.FastCdcChunker.NextBoundary | src/downloader/chunk/FastCdcChunker.cpp:13-42 | the rolling loop returns the one boundary: the first firing position past the minimum, or the limit |
| Chunker.BoundaryUnique | src/downloader/chunk/FastCdcChunker.cpp:13-42 | at most one length satisfies the boundary condition, which is stated without the loop |
| Chunker.CutExactly | src/downloader/chunk/FastCdcChunker.cpp:13-42 | the cut, exactly, with every fingerprint written out: half the one before plus the byte's gear in 64 bits, none a multiple of the mask's period before the cut, the small mask's below the average and the large mask's from there on |
| Chunker.DefaultPeriods | src/domain/types/content/ChunkSizes.cpp:8-10 | the default sizes are 1, 4 and 16 MiB, and the masks have two bits more and two bits less than the average |
| Chunker.FastCdcChunker.Split | src/downloader/chunk/FastCdcChunker.cpp:44-55 | the splitting loop terminates and returns the specified spans |
| Chunker.SplitTiles | src/downloader/chunk/FastCdcChunker.cpp:44-55 | spans cover the data end to end, none over the maximum, only the last not above the minimum |
| Chunker.SplitPrefix | src/downloader/chunk/FastCdcChunker.cpp:13-55 | all spans but the last stay when data is appended |
| Chunker.SplitResynchronises | src/downloader/chunk/FastCdcChunker.cpp:13-55 | inputs that share an ending and both cut at its start have the same spans from there on, shifted |
| DeltaSize.Describe | src/manager/manifest/FileChunkLister.cpp:15-46 | the listing loop gives each span's digest, offset and length |
| DeltaSize.DescribedSound | src/manager/manifest/FileChunkLister.cpp:15-46 | a described file is tiled by its chunks and matches its own bytes exactly when no chunk is 2 to the 32 bytes long or longer |
| DeltaSize.WideExample | src/manager/manifest/FileChunkLister.cpp:15-46 | with valid sizes from 2 to the 32 on, that many zeros are described unsoundly |
| DeltaSize.AppendDownloadsOnlyTheTail | src/manager/install/ManifestDiffer.cpp:44-68 | appending to a described file never makes an update download more than what follows the old file's last cut |
| DeltaSize.SharedEndingIsNotDownloaded | src/manager/install/ManifestDiffer.cpp:44-68 | when old and new file cut at the start of a common ending, an update downloads at most what precedes it |
| Manifest.ManifestCodec.Encode | src/manager/manifest/ManifestCodec.cpp:32-64 | the document built by the loops is the specified one |
| Manifest.ManifestCodec.Decode | src/manager/manifest/ManifestCodec.cpp:89-261 | every branch and loop: same result, same error, checked in the same order |
| Manifest.ManifestCodec.DecodeFile | src/manager/manifest/ManifestCodec.cpp:161-250 | one file entry: fields, path, extension rule, size, chunk budget, chunks and layout, in that order |
| Manifest.ManifestCodec.ValidateChunkLayout | src/manager/manifest/ManifestCodec.cpp:66-87 | the cursor loop accepts as the specified layout check does |
| Manifest.LayoutErrorExactly | src/manager/manifest/ManifestCodec.cpp:66-87 | a layout is accepted exactly when the chunks lie end to end from zero to the file's size, none empty |
| Manifest.ManifestRoundTrip | src/manager/manifest/ManifestCodec.cpp:32-261 | a manifest survives encoding and decoding exactly when it is well formed |
| ManifestLaw.DecodedExactly | src/manager/manifest/ManifestCodec.cpp:89-261 | a document is accepted as a manifest exactly when it says that manifest, field by field, with every limit written out |
| ManifestLaw.FixedHexExactly | src/domain/types/identity/FixedBytes.h:36-90 | a text is read as so many bytes exactly when it is their lower-case spelling |
| Manifest.AcceptedWellFormed | src/manager/manifest/ManifestCodec.cpp:89-261 | whatever document is accepted, the manifest read from it is well formed |
| Manifest.ReencodingIsStable | src/manager/manifest/ManifestCodec.cpp:32-261 | an accepted document re-encoded decodes to the same manifest |
| Manifest.RunningOffsetBounded | src/manager/manifest/ManifestCodec.cpp:205-239 | the running offset never exceeds 2 to the 38, so it fits 64 bits |
| Manifest.AcceptedOffsets | src/manager/manifest/ManifestCodec.cpp:189-250 | in an accepted manifest every chunk ends inside its file and no file exceeds 64 GiB |
| Manifest.RepeatedPathAccepted | src/manager/manifest/ManifestCodec.cpp:158-251 | a document naming one path twice is accepted: distinct paths are not checked |
| DescribedManifest.PublishedManifestDecodes | src/manager/manifest/FileChunkLister.cpp:15-46 | files described with the default sizes, within the stated limits, give a manifest that decodes back to itself |
| DescribedManifest.DescribedCount | src/downloader/chunk/FastCdcChunker.cpp:44-55 | a described file has at most one chunk more than its size divided by the least chunk length |
| ChunkLocator.Locator.Register | src/downloader/storage/ChunkLocator.cpp:97-111 | the nested loops insert every chunk of every file once |
| ChunkLocator.Locator.Forget | src/downloader/storage/ChunkLocator.cpp:113-146 | the nested loops drop the folder's placements and every entry that becomes empty |
| SeedLookup.FoundAtOldestHolder | src/downloader/storage/ChunkLocator.cpp:56-157 | after any run of registering and forgetting mods in folders that do not nest, looking a chunk up under any folder name, with either separator, gives a place in the oldest mod still registered that holds the digest, and nothing exactly when none does |
| ChunkLocator.Locator.RegisterDestination | src/downloader/storage/ChunkLocator.cpp:164-181 | a destination over 32 bits long is refused, any other is entered once |
| ChunkLocator.SeedingTableIsWhatRemains | src/downloader/storage/ChunkLocator.cpp:97-146 | after any run of registering and forgetting mods in folders that do not nest, the table is what the mods still registered would build, in their order, with no empty entry |
| ChunkLocator.ForgetIsWithout | src/downloader/storage/ChunkLocator.cpp:113-146 | forgetting one mod leaves the table the others alone would have built, even with shared chunks |
| ChunkLocator.ManifestKeyAbsent | src/downloader/storage/ChunkLocator.cpp:119-121 | erasing the sealed manifest's key never hits a chunk entry |
| Receiver.AnnounceReceiver.Accept | src/manager/announce/AnnounceReceiver.cpp:48-110 | same verdict, table and rejection count as specified, checks in the same order |
| Receiver.AnnounceReceiver.Restore | src/manager/announce/AnnounceReceiver.cpp:25-39 | stored records go one by one through the same gate; the count is of those accepted, and the others are counted rejected |
| Receiver.AcceptedExactly | src/manager/announce/AnnounceReceiver.cpp:48-159 | a record is accepted exactly when it decodes, the library is ready, it verifies under its publisher's key and it would have been asked for |
| GossipMeaning.VerdictExactly | src/manager/announce/AnnounceReceiver.cpp:48-110 | each verdict, exactly: unknown, revoked, not verified over the first 156 bytes, not newer or no room among 4096, or accepted; and only an accepted announce changes the table, in its own place |
| GossipMeaning.MalformedExactly | src/manager/announce/AnnounceReceiver.cpp:48-57 | malformed is exactly what does not decode, and it changes nothing |
| GossipMeaning.RestoreRoundTrip | src/manager/announce/AnnounceReceiver.cpp:25-39 | a table stored record by record, in any order, is restored whole |
| Receiver.AcceptedSound | src/manager/announce/AnnounceReceiver.cpp:48-110 | acceptance keeps the table authentic and within 4096, and lowers no version |
| Receiver.RestoredSound | src/manager/announce/AnnounceReceiver.cpp:25-39 | restoring, whatever the files hold, gives a sound table |
| Receiver.ServedRecordDecodes | src/manager/announce/AnnounceReceiver.cpp:128-140 | what is served for a retained announce decodes to it |
| AnnounceCodec.Encode | src/manager/announce/AnnounceCodec.cpp:79-87 | the buffer holds the specified 220 bytes |
| AnnounceCodec.EncodeSignable | src/manager/announce/AnnounceCodec.cpp:49-77 | the buffer holds the specified signable bytes, field by field at its offset |
| AnnounceCodec.Decode | src/manager/announce/AnnounceCodec.cpp:89-143 | same result and error as specified, checks in the same order |
| AnnounceCodec.AnnounceRoundTrip | src/manager/announce/AnnounceCodec.cpp:49-143 | an announce survives encoding and decoding exactly when its mod name is acceptable |
| WireLayout.RecordLayout | src/manager/announce/AnnounceCodec.cpp:49-87 | where every field stands in the 220 bytes, with the bytes of the magic and the format |
| WireLayout.DecodedExactly | src/manager/announce/AnnounceCodec.cpp:89-143 | a record decodes to an announce exactly when its bytes read as that announce |
| WireLayout.AcceptableNameExactly | src/domain/rules/ModNameRule.cpp:1-22 | a mod name is acceptable exactly with 1 to 64 letters, digits, underscores and hyphens |
| WireLayout.LittleEndianMeaning | src/manager/announce/AnnounceCodec.cpp:13-47 | byte i of a number is its digit of weight 256 to the i |
| AnnounceCodec.ReencodingIsCanonical | src/manager/announce/AnnounceCodec.cpp:49-143 | re-encoding an accepted record decodes the same; it is the same record exactly when the bytes after the name's first zero are zero |
| AnnounceCodec.SmudgedIsAccepted | src/manager/announce/AnnounceCodec.cpp:89-143 | a record with a stray byte behind its name is accepted and reads the same as the clean one |
| Announces.IdentifierInjective | src/manager/announce/AnnounceReceiver.cpp:41-46 | an identifier names one publisher and one mod |
| WireCodec.EncodeList | src/downloader/announce/AnnounceWireCodec.cpp:39-86 | header, count and at most 64 entries, appended in a loop |
| WireCodec.DecodeEntries | src/downloader/announce/AnnounceWireCodec.cpp:130-199 | same entries or refusal as specified |
| WireCodec.ListRoundTrip | src/downloader/announce/AnnounceWireCodec.cpp:39-211 | an offer or want is read back as its first 64 entries and stays under 8192 bytes |
| WireLayout.ListLayout | src/downloader/announce/AnnounceWireCodec.cpp:39-86 | kind, count and the first 64 entries, entry k behind k entries of 80 bytes in an offer and 72 in a want |
| WireLayout.EntryLayout | src/downloader/announce/AnnounceWireCodec.cpp:9-62 | an entry is the publisher, the padded name and, in offers, the version |
| WireLayout.MessageMeaning | src/downloader/announce/AnnounceWireCodec.cpp:111-128 | the first byte tells the kind; nothing empty or over 8192 bytes, and no other first byte, is a message |
| WireLayout.OfferAndWantExactly | src/downloader/announce/AnnounceWireCodec.cpp:130-211 | a message is read as an offer or a want exactly when its bytes say that list |
| WireLayout.SummaryExactly | src/downloader/announce/AnnounceWireCodec.cpp:228-262 | the summary is read exactly from 220 bytes with a good name, whatever else they hold |
| WireLayout.RecordMessageExactly | src/downloader/announce/AnnounceWireCodec.cpp:88-226 | a record message is the kind and 220 bytes, and a record of another length is written as nothing |
| WireCodec.SummaryAgreesWithDecoding | src/downloader/announce/AnnounceWireCodec.cpp:228-262 | the summary read off a record agrees with its full decoding whenever that succeeds |
| WireCodec.RecordRoundTrip | src/downloader/announce/AnnounceWireCodec.cpp:88-226 | a record message carries exactly the records of 220 bytes |
| PeerBudget.PeerAnnounceBudget.Consume | src/downloader/announce/PeerAnnounceBudget.cpp:49-73 | one look at the bucket: new state and verdict as specified |
| PeerBudget.PeerAnnounceBudget.Penalise | src/downloader/announce/PeerAnnounceBudget.cpp:75-87 | block, ladder, allowance and overage as specified |
| PeerBudget.TokenBucketBound | src/downloader/announce/PeerAnnounceBudget.cpp:15-73 | in every window of every run at most 8 grants plus one for each minute begun |
| PeerBudget.BlocksOnlyExtend | src/downloader/announce/PeerAnnounceBudget.cpp:35-87 | whatever calls follow, a block never ends earlier |
| PeerBudget.NthPenaltyLength | src/downloader/announce/PeerAnnounceBudget.cpp:35-87 | with no clean hour between, the n-th penalty lasts one minute times five to the n minus one, at most a day |
| BudgetMeaning.ConsumeMeaning | src/downloader/announce/PeerAnnounceBudget.cpp:15-73 | a look at the bucket of a peer that is not blocked: one token more for each whole minute, eight at most, granted exactly when there is one, the eighth refusal in a row a penalty |
| BudgetMeaning.PenaltyMeaning | src/downloader/announce/PeerAnnounceBudget.cpp:35-87 | a penalty empties the bucket and blocks for the rung reached; the next rung is five times as long, a day at most, and the first again after a clean hour |
| BudgetMeaning.BlockedMeaning | src/downloader/announce/PeerAnnounceBudget.cpp:49-57 | a blocked peer gets nothing, and asking costs it nothing |
| BudgetMeaning.PatientIsNeverRefused | src/downloader/announce/PeerAnnounceBudget.cpp:15-73 | a peer that is provided for and sends no more than one record a minute is never refused |
| BudgetMeaning.NewPatientPeer | src/downloader/announce/PeerAnnounceBudget.cpp:6-73 | nor is a new peer |
| BudgetMeaning.ServedAfterBlock | src/downloader/announce/PeerAnnounceBudget.cpp:15-87 | after a block has ended a peer whose bucket was looked at before is served again |
| BudgetMeaning.UnseenPeerWaitsLonger | src/downloader/announce/PeerAnnounceBudget.cpp:15-87 | a peer penalised before its bucket was ever looked at is refused once more when its block ends |
| Wants.OutstandingWantTracker.TrackWant | src/downloader/announce/OutstandingWantTracker.cpp:7-21 | a known want is refreshed, a new one is entered while fewer than 128 are outstanding |
| Wants.OutstandingWantTracker.Prune | src/downloader/announce/OutstandingWantTracker.cpp:27-31 | exactly the wants of the last five minutes remain |
| Wants.RedemptionsArePaidFor | src/downloader/announce/OutstandingWantTracker.cpp:7-31 | over every run redemptions of an identifier never outnumber its successful trackings |
| Wants.TableStaysSmall | src/downloader/announce/OutstandingWantTracker.cpp:7-21 | never more than 128 wants are outstanding |
| Exchange.AnnounceExchange.ChooseVictim | src/downloader/announce/AnnounceExchange.cpp:92-122 | the scan finds an unblocked peer least by (escalated, last seen), and none only when all are blocked, in whatever order it walks |
| BudgetMeaning.VictimMeaning | src/downloader/announce/AnnounceExchange.cpp:92-122 | the victim is not blocked, is suspect only if all others not blocked are, and among its like was seen longest ago |
| Exchange.AnnounceExchange.EnsureBudget | src/downloader/announce/AnnounceExchange.cpp:83-128 | the peer's budget is found or made, at the victim's cost when 512 are tracked |
| Exchange.AnnounceExchange.Penalise | src/downloader/announce/AnnounceExchange.cpp:130-141 | the exchange's step for a penalty, recorded or not, and the violation counted |
| Exchange.AnnounceExchange.Ingest | src/downloader/announce/AnnounceExchange.cpp:143-170 | the exchange's step for a record: charged, then judged; received equals accepted plus rejected plus throttled |
| Exchange.AnnounceExchange.MissingFrom | src/downloader/announce/AnnounceExchange.cpp:35-55 | the loop asks for the first 64 offered announces that would be accepted |
| Exchange.TrackedPeersBounded | src/downloader/announce/AnnounceExchange.cpp:83-128 | in every reachable state at most 512 peers are tracked |
| Exchange.BlockHoldsUntilItsEnd | src/downloader/announce/AnnounceExchange.cpp:72-141 | a recorded block is reported until it ends, whatever any peer does |
| Exchange.PenaltyRecordedExactly | src/downloader/announce/AnnounceExchange.cpp:130-141 | a penalty takes effect exactly when the peer is tracked, there is room, or somebody unblocked can be evicted |
| PeerWitnesses.FullOfBlockedLosesAPenalty | src/downloader/announce/AnnounceExchange.cpp:83-141 | 512 peers penalised at one instant fill the table, and the penalty of the next one leaves no trace |
| Exchange.PeersAreIndependent | src/downloader/announce/AnnounceExchange.cpp:143-170 | while a peer stays tracked its budget is what its own calls alone make of it |
| Exchange.ThrottleBound | src/downloader/announce/AnnounceExchange.cpp:83-170 | in any window of any run a peer gets at most 8 records through for each budget it had or was given, plus one for each minute begun |
| Exchange.TrackedPeerIsThrottled | src/downloader/announce/AnnounceExchange.cpp:143-170 | a peer nobody evicts gets at most 8 records plus one for each minute begun through in any window |
| PeerWitnesses.SixteenAtOneInstant | src/downloader/announce/AnnounceExchange.cpp:83-170 | in a full table of clean peers a peer that is evicted and comes back gets 16 records through at one instant |
| PeerWitnesses.CleanFullReached | src/downloader/announce/AnnounceExchange.cpp:83-170 | such a table is reached: 512 strangers each send one record |
| RecordGate.WholeBurstExactly | src/downloader/announce/AnnounceExchange.cpp:143-170 | a burst at one instant gets through whole exactly when there are tokens for all of it |
| RecordGate.BurstBlocksExactly | src/downloader/announce/AnnounceExchange.cpp:143-170 | a burst at one instant leaves its sender blocked exactly when it is eight records longer than the tokens |
| RecordGate.WholeAnswerExactly | src/downloader/announce/AnnounceGossipPeerPlugin.cpp:212-240 | an answer is taken whole exactly when the bucket admits all of it and none of it is late |
| RecordGate.AnswerIsSmall | src/downloader/announce/AnnounceExchange.cpp:143-170 | whatever its length, an answer brings at most 8 records and one for each minute begun until its wants are dropped, from a peer with a budget or without |
| GossipPeer.AnnounceGossipPeerPlugin.HandleOffer | src/downloader/announce/AnnounceGossipPeerPlugin.cpp:159-193 | the handler's wants and reply are the protocol's offer step, and the peer is penalised in the exchange exactly when the offer does not decode |
| GossipPeer.AnnounceGossipPeerPlugin.HandleWant | src/downloader/announce/AnnounceGossipPeerPlugin.cpp:195-210 | the handler's records are the protocol's want step, and the peer is penalised in the exchange exactly when the want does not decode |
| GossipPeer.AnnounceGossipPeerPlugin.HandleRecord | src/downloader/announce/AnnounceGossipPeerPlugin.cpp:212-240 | the handler's table, wants and penalty are the protocol's record step, and the peer is charged or penalised exactly once |
| GossipPeer.AnnounceGossipPeerPlugin.PollWants | src/downloader/announce/AnnounceGossipPeerPlugin.cpp:288-296 | at most every two seconds the tick drops exactly the expired wants, as the joint step of the tick says |
| GossipPeer.AnnounceGossipPeerPlugin.OnExtended | src/downloader/announce/AnnounceGossipPeerPlugin.cpp:242-281 | a whole message, of any kind or size, is one joint step of protocol and peer budgets |
| GossipJoint.TableIsThrottled | src/downloader/announce/AnnounceGossipPeerPlugin.cpp:212-296 | over any run of messages and ticks at most 8 records of a peer for each budget it had or was given, plus one for each minute begun, change the table |
| GossipJoint.TrackedPeerFillsSlowly | src/downloader/announce/AnnounceGossipPeerPlugin.cpp:212-281 | a peer nobody evicts changes the table at most 8 times plus once for each minute begun |
| Gossip.GossipSafety | src/manager/announce/AnnounceReceiver.cpp:48-110 | with any interleaving, loss, duplication or forgery among any number of nodes, tables stay authentic and no version ever falls |
| Gossip.SecondRecordIsAViolation | src/downloader/announce/AnnounceGossipPeerPlugin.cpp:212-240 | a record that was taken is a violation the second time |
| GossipMeaning.ViolationExactly | src/downloader/announce/AnnounceGossipPeerPlugin.cpp:159-281 | a message is a violation exactly when it is over 8192 bytes, an offer or want that does not decode, or a record nobody on the connection was asked for; it then changes nothing and is not answered |
| GossipMeaning.OfferMeaning | src/downloader/announce/AnnounceGossipPeerPlugin.cpp:159-193 | an offer is answered with one want, for the first 64 announces worth asking for that could be put on the list of wants, after those of five minutes ago have been dropped |
| GossipMeaning.TrackAllMeaning | src/downloader/announce/OutstandingWantTracker.cpp:7-21 | nothing leaves the list, what is asked for enters or is renewed while there are less than 128, and nothing else enters |
| GossipMeaning.ServedMeaning | src/downloader/announce/AnnounceGossipPeerPlugin.cpp:195-210 | a want is answered with the records held, in the order asked |
| GossipMeaning.SolicitedMeaning | src/downloader/announce/AnnounceGossipPeerPlugin.cpp:212-240 | a solicited record uses up its want and goes to the receiver exactly when the sender has a token |
| Gossip.IngestsNeverExceedWants | src/downloader/announce/AnnounceGossipPeerPlugin.cpp:159-240 | on every connection, over every run, records taken for an identifier never outnumber the wants sent for it |
| GossipRound.RoundTakesWhatIsAdmitted | src/downloader/announce/AnnounceGossipPeerPlugin.cpp:159-240 | of the up to 64 announces offered, exactly the newer ones are taken whose records the token bucket admits and that come, like all before them, while their wants are outstanding; everything else in the table stays, and the giver's budget pays for every record or is penalised for the late one |
| GossipRound.RecordTakenExactly | src/downloader/announce/AnnounceGossipPeerPlugin.cpp:212-240 | announce by announce: the k-th one asked for is in the table afterwards exactly when the bucket admits its record and the tick has not dropped the wants before it or any earlier one |
| GossipRound.RoundReachesMaximumExactly | src/downloader/announce/AnnounceGossipPeerPlugin.cpp:159-296 | every offered identifier ends at the newer announce of both, and every other stays the taker's, exactly when the bucket admits every record asked for and none comes after the tick, five minutes or more after the offer, has dropped its want |
| GossipRound.RoundTakesFew | src/downloader/announce/AnnounceGossipPeerPlugin.cpp:159-296 | one round brings at most 8 announces and one for each minute begun until the wants are dropped: 13 while the tick is on time, 14 while it is at most a minute behind |
| GossipRound.MaximumNeedsFew | src/downloader/announce/AnnounceGossipPeerPlugin.cpp:159-296 | so a round reaches the maximum only where no more than that is missing |
| GossipRound.LateAnswerBlocksTheGiver | src/downloader/announce/AnnounceGossipPeerPlugin.cpp:225-228 | an honest answer whose first record comes after the tick has dropped the wants: nothing is taken, the giver is penalised, and blocked exactly when a budget is to be had for it |
| GossipRound.LateAtFirstMeeting | src/downloader/announce/AnnounceGossipPeerPlugin.cpp:225-228 | this happens to a node with one announce and a node with none that meet for the first time |
| GossipRound.TwiceAtFirstMeeting | src/downloader/announce/AnnounceGossipPeerPlugin.cpp:225-228 | and so does a block for sending the one record twice |
| GossipRound.RoundAtOnceExactly | src/downloader/announce/AnnounceGossipPeerPlugin.cpp:159-240 | when the records arrive at one instant the maximum is reached exactly when the newer announces are no more than the giver's tokens |
| GossipRound.RoundBlocksExactly | src/downloader/announce/AnnounceExchange.cpp:143-170 | when the records arrive at one instant the giver is left blocked exactly when the newer announces are at least its tokens and eight, or, with no tokens, what is left of its patience |
| GossipRound.SixteenAtOnceBlocksTheGiver | src/downloader/announce/AnnounceExchange.cpp:143-170 | a new node that wants 16 announces or more and gets them at one instant takes the first 8 and blocks the honest giver |
| GossipRound.RoundMergesTables | src/downloader/announce/AnnounceGossipPeerPlugin.cpp:159-296 | a table of at most 64 announces, offered whole and taken whole in time, leaves the taker the newer of both tables |
| GossipRound.RoundsBothWaysAgree | src/downloader/announce/AnnounceGossipPeerPlugin.cpp:159-296 | after a round each way, each whole table offered and all of it taken in time, both nodes hold the same versions, the pointwise maximum |
| GossipSpread.NewsArrives | src/downloader/announce/AnnounceGossipPeerPlugin.cpp:159-296 | among any rounds, whatever else they refuse or get late, every node that a chain of rounds carrying the identifier leads to holds at least the version the news started with; a round carries it when it is offered and, if the taker lacks it, its record is taken in time |
| GossipSpread.NothingInvented | src/manager/announce/AnnounceReceiver.cpp:48-110 | over any rounds, whatever is admitted, refused or late, no node holds a version nobody held before |
| GossipSpread.NothingLost | src/manager/announce/AnnounceReceiver.cpp:48-110 | over any rounds no node's version of anything falls |
| GossipSpread.EverybodyAgrees | src/downloader/announce/AnnounceGossipPeerPlugin.cpp:159-240 | once rounds carrying the identifier have led from a node with the highest version to every node, all hold exactly that version |
| BaselineCatalogue.BaselineChunkCatalogue.Locate | src/manager/baseline/BaselineChunkCatalogue.cpp:13-22 | the first chunk with the digest in the oldest record still adopted |
| BaselineCatalogue.BaselineChunkCatalogue.Adopt | src/manager/baseline/BaselineChunkCatalogue.cpp:24-47 | the three maps again say what the list of adopted records says, the record now last |
| BaselineCatalogue.BaselineChunkCatalogue.ForgetUnlocked | src/manager/baseline/BaselineChunkCatalogue.cpp:49-76 | the three maps lose exactly the record of that path |
| BaselineCatalogue.BaselineChunkCatalogue.DiscardChanged | src/manager/baseline/BaselineChunkCatalogue.cpp:90-104 | exactly the records whose file still has its stamp stay, in their order |
| BaselineCatalogue.BaselineChunkCatalogue.ChunkCount | src/manager/baseline/BaselineChunkCatalogue.cpp:106-109 | the number of distinct adopted digests |
| BaselineCatalogue.BaselineChunkCatalogue.Clear | src/manager/baseline/BaselineChunkCatalogue.cpp:83-88 | nothing is adopted any more |
| BaselineCatalogue.LocatedExactly | src/manager/baseline/BaselineChunkCatalogue.cpp:13-22 | a digest is found exactly when some adopted record has it |
| BaselineCatalogue.AdoptedExactly | src/manager/baseline/BaselineChunkCatalogue.cpp:24-104 | after any run a record counts exactly when it was adopted and nothing displaced it since |
| BaselineCatalogue.OldestFirst | src/manager/baseline/BaselineChunkCatalogue.cpp:24-104 | after any run the records stand in the order in which they were adopted |
| BaselineScheduler.NormalisePath | src/manager/baseline/BaselineIndexService.cpp:91-101 | the in-place loop gives the lower-case, forward-slash key |
| SchedulerMeaning.PathKeyExactly | src/manager/baseline/BaselineIndexService.cpp:91-101 | two paths have the same key exactly when they differ in nothing but the direction of slashes and the case of letters |
| BaselineScheduler.BaselineIndexService.Restore | src/manager/baseline/BaselineIndexService.cpp:159-203 | current records are adopted in scan order, the other files queued, leftover records removed, all counted |
| IndexedFiles.RestoreMeaning | src/manager/baseline/BaselineIndexService.cpp:159-203 | exactly the stored records whose file the scan found with the same stamp are adopted, exactly the files without such a record are queued, and exactly the records without such a file are removed |
| SchedulerMeaning.RestoredFigures | src/manager/baseline/BaselineIndexService.cpp:159-203 | every file of the scan is counted once, as indexed when its record was kept and as waiting otherwise, and so are its bytes |
| SchedulerMeaning.NoFileLost | src/manager/baseline/BaselineIndexService.cpp:205-242 | over any run each file that was queued or in hand is still queued, in hand, or finished with once, one way or the other |
| SchedulerMeaning.FiguresOverARun | src/manager/baseline/BaselineIndexService.cpp:114-242 | over any run the figures shown are the sums over the files finished with, and the waiters those that have not left |
| BaselineScheduler.BaselineIndexService.Claim | src/manager/baseline/BaselineIndexService.cpp:212-225 | the first queued file, unless stopping |
| BaselineScheduler.BaselineIndexService.Complete | src/manager/baseline/BaselineIndexService.cpp:227-242 | the file is no longer pending and is counted indexed or failed |
| BaselineScheduler.BaselineIndexService.AwaitBegin | src/manager/baseline/BaselineIndexService.cpp:114-128 | wanted keys become preferred and the queue is partitioned stably |
| BaselineScheduler.RestoreSound | src/manager/baseline/BaselineIndexService.cpp:159-203 | restoring, whoever waits already, starts from a sound state |
| BaselineScheduler.SchedulerSafety | src/manager/baseline/BaselineIndexService.cpp:103-242 | in every reachable state indexed, failed, queued and active files add up to the total, pending is exactly queued and active, and preferred files stand first |
| BaselineScheduler.AwaitTrueExactly | src/manager/baseline/BaselineIndexService.cpp:103-112 | waiting succeeds exactly when every wanted file the scan found has been finished with |
| BaselineScheduler.PreferredClaimedFirst | src/manager/baseline/BaselineIndexService.cpp:205-225 | no unpreferred file is claimed while a preferred one waits |
| BaselineScheduler.PartitionKeepsOrder | src/manager/baseline/BaselineIndexService.cpp:205-210 | within each half files keep their order |
| BaselineScheduler.WaitIsBounded | src/manager/baseline/BaselineIndexService.cpp:114-242 | a waiter is served after as many files as are preferred, and the one the worker held when it came, whatever their outcome, however long the queue |
| BaselineScheduler.BaselineIndexService.IndexNext | src/manager/baseline/BaselineIndexService.cpp:251-275 | one turn of the worker: the head of the queue is claimed, described, adopted if that worked, and completed |
| IndexedFiles.WaitTrueExactly | src/manager/baseline/BaselineIndexService.cpp:103-157 | over every joint run of worker, waiters and discards a waiter may be told true exactly when every wanted file of the scan has been described or has failed and is out of the worker's hands |
| IndexedFiles.AwaitedFilesAreLocated | src/manager/baseline/BaselineIndexService.cpp:114-275 | from then on every chunk of each wanted indexed file is located in the catalogue, and the catalogue holds nothing of a wanted file that failed or whose stamp has changed since |
| Fetching.FetchState.Reserve | src/downloader/transfer/FetchState.cpp:19-38 | refused while busy, otherwise a fresh start |
| Fetching.ReserveMeaning | src/downloader/transfer/FetchState.cpp:17-38 | a running fetch is not replaced; any other makes way for one with nothing to show, removals still awaited |
| Fetching.FetchState.Retire | src/downloader/transfer/FetchState.cpp:55-81 | the active handle joins the removals, and the clear is immediate or pending |
| Fetching.RetireMeaning | src/downloader/transfer/FetchState.cpp:55-81 | the torrent to remove is the active one while it stands, and the clear waits exactly while a removal is outstanding |
| Fetching.FetchState.ConfirmRemoval | src/downloader/transfer/FetchState.cpp:83-100 | one removal is confirmed; true exactly when it was the last and a clear waited for it |
| Fetching.FetchState.Update | src/downloader/transfer/FetchState.cpp:179-214 | progress, settling, the confirmation count and completion as specified, whether writes have settled being reported apart from how many are pending |
| Fetching.FateExactly | src/downloader/transfer/FetchState.cpp:134-214 | from a reservation on the operations alone decide the phase, and a running fetch has counted faults, settled updates and wanted bytes |
| Fetching.ShowsLatestUpdate | src/downloader/transfer/FetchState.cpp:179-214 | until the next update the status shows what the latest one brought |
| Fetching.CompletesExactly | src/downloader/transfer/FetchState.cpp:179-214 | a busy fetch becomes complete exactly at the fourth settled update in a row |
| Fetching.CompletionAfterReserve | src/downloader/transfer/FetchState.cpp:19-214 | no fetch is complete without four settled updates in a row since it was reserved |
| Fetching.BusyInStep | src/downloader/transfer/FetchState.cpp:134-214 | while busy a fetch is prioritised exactly when downloading |
| TransferSession.TorrentSession.Begin | src/downloader/transfer/TorrentSession.cpp:425-518 | result, fetch state and destination table in every outcome |
| TransferSession.TorrentSession.Cancel | src/downloader/transfer/TorrentSession.cpp:524-540 | the fetch is retired and the table cleared unless a removal is outstanding |
| TransferSession.TorrentSession.Route | src/downloader/transfer/AlertRouter.cpp:6-111 | the alert loop: every removal confirmed, faults counted only against the active fetch |
| TransferSession.TorrentSession.Poll | src/downloader/transfer/TorrentSession.cpp:651-738 | alerts, clear and progress as one step |
| TransferSession.FetchOwnership | src/downloader/transfer/TorrentSession.cpp:425-540 | over every run an active fetch's table is exactly its own destinations, and destinations outlive it only while a removal is outstanding |
| TransferMeaning.BeginMeaning | src/downloader/transfer/TorrentSession.cpp:425-518 | every outcome of a begin: the first obstacle met is reported, the first three change nothing, the later ones leave nothing behind, and without one the fetch is under way with its own table |
| TransferMeaning.CancelMeaning | src/downloader/transfer/TorrentSession.cpp:524-540 | nothing is fetched any more, and the destinations stay exactly while a removal is outstanding |
| TransferMeaning.ConfirmationsMeaning | src/downloader/transfer/AlertRouter.cpp:6-111 | each confirmation takes one outstanding removal off the list, in whatever order they come |
| TransferMeaning.ClearExactly | src/downloader/transfer/AlertRouter.cpp:6-111 | a waiting clear comes exactly with the last outstanding removal |
| TransferMeaning.FetchFate | src/downloader/transfer/TorrentSession.cpp:651-738 | from the begin on the polls alone decide the phase: complete at the fourth settled one in a row, failed by a fatal alert of its own |
| TransferMeaning.IdlePollMeaning | src/downloader/transfer/TorrentSession.cpp:651-738 | with nothing being fetched a poll only confirms removals |
| TransferSession.LateConfirmationsHarmless | src/downloader/transfer/TorrentSession.cpp:425-540 | however late earlier removals are confirmed, a started fetch keeps its table |
| TransferSession.SplitPollKeepsTableExactly | src/downloader/transfer/TorrentSession.cpp:659-675 | if a begin slips between a poll's confirmations and its clear, the new table survives exactly when no clear was due or it was empty |
| TransferSession.SplitPollCanLoseTheTable | src/downloader/transfer/TorrentSession.cpp:659-675 | and a clear can be due: cancel, then begin in between, loses the started fetch's table |
| OrderFile.Serialize | src/manager/order/OrderFileGateway.cpp:17-26 | the header, then one line for each enabled folder |
| OrderFile.Parse | src/manager/order/OrderFileGateway.cpp:28-53 | the line loop gives the specified folders or refuses the file |
| OrderFile.OrderRoundTrip | src/manager/order/OrderFileGateway.cpp:17-53 | a printed order is read back exactly when no folder name has a line feed |
| OrderFileLaw.FolderExactly | src/domain/types/order/InstallFolder.cpp:4-28 | a folder name is accepted exactly when it is not empty, begins with no comment marker, blank or dot, ends with no blank and has no separator |
| OrderFileLaw.RefusalExactly | src/domain/types/order/InstallFolder.cpp:4-28 | the reason a name is refused, in the order the reasons are looked for |
| OrderFileLaw.ParsedExactly | src/manager/order/OrderFileGateway.cpp:28-53 | a file is read line by line: it names its good folders in order, and one bad line refuses all of it |
| OrderFileLaw.LinesOf | src/manager/order/OrderFileGateway.cpp:28-53 | every text is the lines it is read by |
| OrderFileLaw.PrintedMeaning | src/manager/order/OrderFileGateway.cpp:17-26 | two comments, then a line for each folder in order, every line ended by a carriage return and a line feed |
| OrderFile.LineFeedSplitsFolder | src/manager/order/OrderFileGateway.cpp:17-53 | a folder name with one line feed is read back as two folders |
| OrderFile.LineFeedExample | src/domain/types/order/InstallFolder.cpp:4-28 | the install folder check accepts such a name |
| OrderFile.RewritingKeepsMeaning | src/manager/order/OrderFileGateway.cpp:17-53 | an accepted file, rewritten, means the same |
| OrderService.Service.Refresh | src/manager/service/OrderService.cpp:19-55 | stored folders first, then disabled entries not among them, then installed mods not listed; history kept only when the printed order is unchanged |
| OrderService.Service.Commit | src/manager/service/OrderService.cpp:133-154 | a failed write changes only the writable flag; a successful one the file, the entries and at most 64 remembered orders |
| OrderService.Service.SetFolderEnabled | src/manager/service/OrderService.cpp:57-72 | the first entry of the folder is switched and committed, or nothing happens |
| OrderService.SetEnabledMeaning | src/manager/service/OrderService.cpp:57-72 | nothing happens exactly when no entry has the folder or the first that has it is already so; otherwise that entry's flag changes and nothing else |
| OrderService.SetFolderEnabledMeaning | src/manager/service/OrderService.cpp:57-72 | with distinct folders the enabled list gains or loses that folder and the others keep their order, on screen and in the file |
| OrderService.Service.MoveEntry | src/manager/service/OrderService.cpp:74-88 | the entry is moved and committed, or nothing happens |
| OrderService.Service.Undo | src/manager/service/OrderService.cpp:160-171 | the last remembered order is committed and forgotten only when the write succeeds |
| OrderService.Service.Apply | src/manager/service/OrderService.cpp:116-122 | a whole order is committed and the history dropped only when the write succeeds |
| OrderMeaning.EditMeaning | src/manager/service/OrderService.cpp:57-88 | an edit that takes effect is listed as edited, printed, and remembered on top of at most 63 older orders, or changes the flag only |
| OrderMeaning.UndoMeaning | src/manager/service/OrderService.cpp:160-171 | undo lists and prints the last remembered order and forgets that one only, or changes the flag only |
| OrderMeaning.ApplyMeaning | src/manager/service/OrderService.cpp:116-122 | a whole order is listed and printed and leaves nothing to undo, or changes the flag only |
| OrderMeaning.RefreshMeaning | src/manager/service/OrderService.cpp:19-55 | the list after a refresh: what the file gives, enabled and in its order, then disabled entries there were, then installed mods, each once; the history is forgotten exactly when what is printed changed |
| OrderService.MoveMeaning | src/manager/service/OrderService.cpp:82-85 | the moved entry stands at its new place and the others keep their order |
| OrderService.EditKeepsFolders | src/manager/service/OrderService.cpp:57-88 | no edit loses, adds or duplicates a mod |
| OrderService.RefreshKeepsOrder | src/manager/service/OrderService.cpp:19-55 | while the file still gives what is on screen, a refresh keeps the enabled order and every undo step, whatever mods came or went |
| OrderService.RefreshIdempotent | src/manager/service/OrderService.cpp:19-55 | a second refresh changes nothing |
| OrderService.CommitReadsBackExactly | src/manager/service/OrderService.cpp:19-154 | after a commit a refresh shows the same enabled order exactly when no enabled name has a line feed |
| OrderService.RunCoherent | src/manager/service/OrderService.cpp:19-171 | file, screen and history agree after every run of edits, undos and refreshes, written or not |
| OrderService.UndoRestores | src/manager/service/OrderService.cpp:133-171 | edits, undos, refreshes and failed writes in any mixture at most 64 deep that come back to none restore the list, the preview and what the file means; the file is the same exactly when it was the printed order before |
| OrderService.UndoLeavesANewFile | src/manager/service/OrderService.cpp:133-171 | with no order file yet, enabling the only mod and undoing it leaves an order file |
| OrderService.EditsThenUndosRestore | src/manager/service/OrderService.cpp:133-171 | up to 64 edits followed by as many undos restore the list, the preview and what the file means; the file is the same exactly when it was the printed order before |

## Left out

- Integer widths: sizes, offsets and totals are unbounded naturals; `Manifest.RunningOffsetBounded` shows the decoder's running offset fits, chunk lengths are cut to 32 bits where the original does it, and announce versions are 64-bit, but 64-bit wrap-around of report totals is not modelled.
- Disk errors, retry sleeps, directory creation and file handles: the errors for an unwritable folder or a failed write do not occur in the model.
- Locks and condition variables: each locked method is one step, and waiting is a check that may be made at any time.
- Paths are strings joined with a slash; drive letters, absolute parts and case-insensitive file systems are not modelled.
- Chunk masks are modelled by their period, a power of two, and the gear table is arbitrary; validation of custom chunk sizes is left out.
- JSON text, UTF-8 checks and preview images: documents are trees, image texts are only checked as valid or not, and manifests carry no preview.
- The torrent library: blocks arrive as slices in order, handles and added torrents are given, and alerts are a list.
- Offer timing, handshakes, refresh requests and the noted-peers list of the gossip plugin; asking for an offer changes nothing in the model, and the order in which holdings are listed is arbitrary.
- Walk order of tables: the eviction scan, pruning and discarding visit keys in any order, so among equally good victims any may go.
- Starting the index service again, its worker thread's background mode and the active-bytes counter.
- Names, metadata, annotations, messages and change announcements of the order service; only entries, history, installed folders, preview, writable flag and file are kept.
- Storing announces and manifests on disk, sealing, keys and revocation certificates.
- Extension packages: which bytes are trusted is a parameter; their format, opening and signing are not modelled.
- Offers that arrive while a want for the same announce is still outstanding, and rounds that overlap on one connection: `GossipRound` takes one offer, want and answer at a time; `Gossip` and `GossipJoint` cover any interleaving.
- GUI, self-update, patching, Steam and GitHub lookup, and the remaining services: no logic of this core.
