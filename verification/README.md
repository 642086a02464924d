# A verified model of the rdrive v1 node

rdrive stores a client's files on a node and gives them back. This project models what the
version 1 protocol does with them and proves properties of the model, in these parts.

- **The concurrent file store** (`FileStore`, `Exclusion`, `Linearizability`, `AtRest`,
  `Completion`, `Harm`, `Scenarios`, `Delivery`): uploads and downloads as interleaved steps
  over shared files, metadata records and the lock table, each free to end early at any step.
  Accepted downloads are linearizable in every run. Per-id exclusion holds under a condition on
  releases; file and metadata agree up to an exactly described set of harmful actions. Runs are
  shown that break each without. Where file and metadata agree, downloads come to their end
  with all the bytes.
- **Frames and blocks** (`Aead`, `Framing`, `Files`, `Transfer`): length-prefixed encrypted
  frames through the memory pool, and the undelimited stream of sealed 64 KiB blocks.
- **The two conversations** (`Channels`, `UploadConversation`, `DownloadConversation`): client
  and server never wait for each other, never read a frame of the wrong kind, finish with
  the same outcome unless one of them gives up, and succeed if nobody refuses either.
- **The three joined** (`EndToEnd`): what comes over the wire is what the store takes in, and
  the sealed blocks are those the conversations know by their lengths.
- **The rate limiter** (`RateSpec`, `RateLimiting`, `RateTheorems`): token buckets over whole
  runs, with cleanup as a step of its own.
- **Layers** (`Layering`): chunking under short reads, reassembly, the delta of two files.
- **Around them** (`Admission`, `Rotation`, `CatalogSpec`, `CatalogFile`): the connection
  counter, key rotation over the two directory trees, the client's catalog.

Code that changes things in place is a class or a method on arrays, proved against a function on
values; the theorems are about that function. Concurrent code is a step system: a state, actions
with a guard and an effect, and runs as sequences of actions.

The steps follow the source: `FileStore.Effect` takes uploads and downloads through
src/protocol_v1.rs:984-1279 and the lock table of src/lib.rs:408-419; `UploadConversation.Step`
joins src/protocol_v1.rs:984-1121 to the client at 1757-1826, `DownloadConversation.Step`
1125-1279 to 1856-1946; `Admission.Next` is src/protocol_v1.rs:57-83, `Rotation.Next` 911-949,
`RateTheorems.CommandCost` 170-178.

## Assumptions

- SHA-256 is injective (`Digest.Sha256Of` is a constructor), and so are the names that hashing
  gives to directories and files.
- AES-256-GCM is ideal (sections 7.1 and 7.2 of NIST SP 800-38D): a string opens under a session
  key exactly if it was sealed under it, and a nonce is never drawn twice.
- `f64` is `real`; where a lemma says `ClockOrder`, each IP's requests read the clock in order, and
  a cleanup has read it before any request that comes after it.
- Identifiers drawn by the client are never drawn twice.

## What the proofs found

- Both senders hand the whole block buffer to `encrypt_into`, which copies the tag over all that
  is left of it (src/crypto.rs:81), although its comment asks for "at least" the needed size. So
  any short read, and with it the last block of every file whose size is not a multiple of
  64 KiB, panics: `Transfer.SendFile` and `Transfer.TransferFile` succeed if and only if every
  read before the end of the file gives a full block. The receivers handle every size (`Transfer.ChunkSync`).
- `release_file_lock` removes the table entry whoever else holds a handle. Exclusion holds in
  runs where nobody does (`Exclusion.ReadersAndWritersExclude`), and every other release leads
  on to a writer beside another guard (`Exclusion.DirtyReleaseBreaksExclusion`). What a client
  accepts is right all the same (`Linearizability.AcceptedDownloadIsLinearizable`).
- An upload truncates the stored file before it has received anything. That alone ends the life of
  the bytes that were there, under a record that stays, and only a commit puts that right
  (`AtRest.CommittedBytesEndIff`, `AtRest.OnlyACommitStores`): an overwrite that fails its hash
  check leaves no file (`AtRest.FailedOverwriteDeletesTheFile`,
  `Scenarios.DownloadAfterFailedOverwrite`), one that is dropped an empty or partial one
  (`Scenarios.AbortedOverwriteExists`).
- File and record agree in every run, whatever is released or dropped when, up to actions of a
  precise kind: another upload than the last to truncate spoils or removes the bytes of one that
  has committed or still can, or writes its own record over a committed one. Each such action can
  be followed to a disagreement, and no other can (`Harm.HarmIsWhatBreaks`). They come from
  blocking file calls that outlive their handlers (`Scenarios.LateSaveBreaksAgreement`) or from
  releases while others hold handles (`Scenarios.DirtyReleaseBreaksAgreement`), and from nothing
  else (`AtRest.CleanHarmIsLate`).
- A rotation tries both renames and reports failure if either failed. If the files moved and the
  owner was not told so, because the key did not move with them or because the handler was dropped
  before its answer, the key that the owner holds leads nowhere (`Rotation.OwnersFindTheirTrees`,
  `Rotation.OwnersCanBeCutOff`). The new key is not authenticated, so anybody can name any key: that
  takes over an empty directory and nothing else (`Rotation.OthersAreUntouched`,
  `Rotation.UntouchedStep`). If only the key moved, no retry is ever acknowledged
  (`Rotation.RetriesAreNeverAcknowledged`).
- In builds that unwind, a panicking handler never gives its connection slot back
  (`Admission.LostSlotsStayLost`); release builds abort instead. With more than one accept loop
  a node can refuse connections while idle (`Admission.TwoLoopsRefuseAnIdleNode`).
- A payload near 4 GiB is written with a length prefix that has wrapped around;
  `Framing.FrameReadBackIff` shows that the reader rejects it like every payload over its limit.

## Model

| member | source | states |
|---|---|---|
| FileLocks.LockTable.HoldFileLock | src/lib.rs:408-413 | in place, the returned lock and new table are those of the specification, and a lock made for an absent id is nobody else's |
| FileLocks.LockTable.ReleaseFileLock | src/lib.rs:416-419 | in place, exactly the id's entry goes |
| Linearizability.AcceptedDownloadIsLinearizable | src/protocol_v1.rs:1070-1235 | in every run an accepted download returns the name and bytes of the upload that committed last on the path before the download read the metadata |
| Linearizability.DownloadIsToldTheLast | src/protocol_v1.rs:1197-1215 | the record a download reads is that of the last commit, and that upload received bytes with its size and hash |
| Linearizability.LastCommitIsTheLast | src/protocol_v1.rs:1096 | the last commit is a completed metadata save on the path with no other after it |
| Linearizability.OnlySavesTouchRecords | src/protocol_v1.rs:1070-1096 | however long a run goes on without a metadata save on the path, the record that downloads will read, half written or whole, is the same, and so is the last commit |
| Linearizability.OnlyMatchesAreSaved | src/protocol_v1.rs:1069-1096 | an upload that begins or ends a save has received bytes of the announced size and hash, so failed overwrites never touch the record |
| Linearizability.AcceptedMatchesTold | src/protocol_v1.rs:1928-1936 | what a client accepts has the name and the hash it was told |
| Exclusion.ReadersAndWritersExclude | src/protocol_v1.rs:994-1012 | in every run with clean releases, whichever early exits are taken, a writer of an id never coexists with another guard, and all live handles of an id name one lock |
| Exclusion.LocksAreSharedByReaders | src/protocol_v1.rs:1135-1153 | after every run with clean releases a download can lock exactly if nobody with its id writes, whoever else reads, and an upload exactly if nobody with its id does either |
| Exclusion.CleanRunsKeepLocks | src/lib.rs:408-419 | the inductive invariant behind it: handles in order, one lock per id, different ids different locks, compatible guards |
| Exclusion.LocksBelongToOneId | src/lib.rs:408-419 | in every run, whatever the releases, a lock object is one id's, in the table and in all handles |
| Exclusion.DirtyReleaseBreaksExclusion | src/lib.rs:416-419 | from every state that clean releases lead to, a release that is not clean can be continued to a run that breaks exclusion |
| Scenarios.ExclusionCanFail | src/protocol_v1.rs:1115-1116 | such a run exists |
| AtRest.HarmlessRunsAgree | src/protocol_v1.rs:1042-1096 | in every run, with any releases, aborts and late file calls: while nothing harmful has happened on the path, if the upload that truncated last has committed, the file is what it received and the record has its name, length and hash |
| Harm.HarmIsWhatBreaks | src/protocol_v1.rs:1042-1096 | after a harmless run, an action is harmful if and only if a disagreement can follow it without any more harm |
| Harm.HarmBreaks | src/protocol_v1.rs:1042-1096 | that run: if the upload that truncated last has committed the disagreement is there at once, otherwise only its own steps follow and it commits over the damage |
| AtRest.LastIsTracked | src/protocol_v1.rs:1042-1096 | the invariant over harmless runs: as long as it can commit, the file holds what the last truncating upload has written and nothing it will not write over |
| AtRest.CleanHarmIsLate | src/protocol_v1.rs:1042-1116 | with clean releases only file calls that outlive their handlers do harm |
| AtRest.CleanRunsHaveOneWriter | src/protocol_v1.rs:994-1042 | with clean releases nobody but the upload that truncated last is writing, unless that one can no longer commit |
| AtRest.FileAndMetadataAgree | src/protocol_v1.rs:1042-1096 | so with clean releases and no late file calls file and record agree |
| AtRest.NodesStayOwned | src/protocol_v1.rs:1042-1072 | in every run, paths never share a file, and an upload writes to its own path's file or to one that no path names |
| AtRest.FileIsThereIff | src/protocol_v1.rs:1042-1072 | in every run a path has a file if and only if it was created and not removed since |
| AtRest.FailedOverwriteDeletesTheFile | src/protocol_v1.rs:1042-1088 | in every run, once the upload that truncated last has failed its check and removed the file, and until somebody truncates it anew, there is no file and no download can open one, while a whole record left behind is still the last commit's |
| AtRest.CommittedBytesEndIff | src/protocol_v1.rs:1042 | after a harmless run to a committed upload, of all actions that do no harm exactly a truncation of the file ends that, and exactly if the upload was not empty its bytes are lost at once, under the unchanged record; whether the overwrite then fails its check, is dropped or goes on makes no difference |
| AtRest.CommittedBytesSurvive | src/protocol_v1.rs:1042-1096 | so bytes and record stay over every harmless stretch of a run in which nobody truncates the file |
| AtRest.OnlyACommitStores | src/protocol_v1.rs:1096 | in every run, after that only the metadata save of the upload that truncated last makes the path's file a committed upload's again |
| AtRest.OpenReadersSeeTruncation | src/protocol_v1.rs:1042 | a truncation empties the file that was there, so whoever has it open reads from the empty one |
| Scenarios.AbortedOverwriteExists | src/protocol_v1.rs:1042-1067 | from every idle state an overwrite can be dropped after truncating: no failed check, an empty file under the old record, and the id idle |
| Scenarios.FailedOverwriteExists | src/protocol_v1.rs:1070-1088 | from every idle state an overwrite can fail like that and return, with the records as they were and the id idle |
| Scenarios.DownloadAfterFailedOverwrite | src/protocol_v1.rs:1197-1247 | a download that comes then is told the old record and finds no file |
| Scenarios.LateSaveBreaksAgreement | src/lib.rs:149-153 | with a late save, clean releases are not enough: the file is the second upload's, the record the first one's |
| Scenarios.DirtyReleaseBreaksAgreement | src/protocol_v1.rs:1115-1116 | with a release while another upload waits for the lock, punctual file calls are not enough either |
| Scenarios.UploadCanCommit | src/protocol_v1.rs:984-1121 | from every state with the id idle, an upload of any bytes has a run to its commit that leaves the id idle |
| Scenarios.DownloadCanBeAccepted | src/protocol_v1.rs:1125-1279 | and a download of a stored file of canonical size has a run to its acceptance with the stored name and bytes |
| Scenarios.RoundTripExists | src/protocol_v1.rs:984-1279 | so from every idle state a round trip exists: the theorems are about runs that do something |
| Delivery.TransfersAreInBlocks | src/protocol_v1.rs:1052-1066 | in every run whatever has been taken in or given out is full blocks, but for the remainder at the end of an upload, and never more than was announced |
| Delivery.ReadersStayOnTrack | src/protocol_v1.rs:1197-1247 | with clean releases and no late file calls, every download under way while the upload that truncated last has committed has that upload's record and has sent a beginning of its bytes |
| Delivery.DownloadsDeliver | src/protocol_v1.rs:1247-1268 | such a download goes on exactly as long as a full block is left, comes to its end exactly with all the bytes, and exactly then its client can accept |
| Delivery.ClientsTakeWhatTheyWereTold | src/protocol_v1.rs:1907-1936 | the client takes as many bytes as it was told exactly if their hash is right, under the name it was told |
| Delivery.AnybodyCanLeave | src/lib.rs:408-419 | an operation can end at any point, and then its guard and handle go and nothing else: the table entry stays |
| Delivery.DroppedCallsStillHappen | src/lib.rs:149-153 | a file call that was about to be made can still happen after its handler, and with it its guard and handle, is gone |
| Delivery.LateCallsAreTheLast | src/lib.rs:149-153 | and after it nothing happens in that upload's name, but for the second half of a metadata save |
| Aead.EncryptInto | src/crypto.rs:56-84 | error if the region is too short, panic if it is too long, and exactly then nonce, body and tag if it fits; nothing outside it changes |
| Aead.DecryptInto | src/crypto.rs:90-116 | the plaintext in place if and only if the input was sealed; otherwise an error and no plaintext; nothing outside the region changes |
| Framing.BigEndianRoundTrip | src/protocol_v1.rs:406-407 | four big-endian bytes give every 32-bit length back |
| Framing.MostSignificantFirst | src/protocol_v1.rs:406-407 | a digit more, to base 256, comes last: the order of the bytes on the wire |
| Framing.ReadFrameLength | src/protocol_v1.rs:320-336 | a length is returned if and only if four bytes are there and it is between 1 and 16 MiB |
| Framing.ReadEncryptDataInto | src/protocol_v1.rs:353-382 | the payload of the frame at the position, found behind its ciphertext in the pool and clear of it, with the reader just past the frame; an error in every other case; the pool grows to what the frame needs and no further |
| Framing.WriteEncryptFrameInto | src/protocol_v1.rs:386-416 | an error exactly from 4 GiB up and then nothing written; otherwise exactly the frame is appended, whatever the pool held, and nothing panics |
| Framing.FrameReadBackIff | src/protocol_v1.rs:320-416 | a written frame is read back if and only if the payload is at most 16 MiB - 28 bytes, advancing 32 bytes and the payload |
| Framing.StreamRoundTrip | src/protocol_v1.rs:353-416 | any sequence of payloads within the limit, framed and concatenated, is read back as itself |
| Framing.SendFrames | src/protocol_v1.rs:386-416 | one end's sequence of writes produces the stream of those frames, over any pool |
| Framing.ReceiveFrames | src/protocol_v1.rs:353-382 | the other end's sequence of reads returns exactly the payloads, over any pool of its own |
| Framing.PoolStaysBounded | src/protocol_v1.rs:366-371 | over any reads, successful or not, the pool never shrinks and never passes the larger of its first size and 32 MiB - 28 |
| Framing.PoolHoldsJustBoth | src/protocol_v1.rs:363-371 | a read needs room for a frame's sealed bytes and its payload and for nothing else |
| Files.FileSource.TakeToEnd | src/layer.rs:46-49 | reading to a limit gives the bytes up to it or the end, however short the reads |
| Transfer.ReceiveBlock | src/protocol_v1.rs:1053-1066 | one turn: the block at the position if it is there in full and opens, and nothing otherwise |
| Transfer.ReceiveFile | src/protocol_v1.rs:1052-1067 | the loop stores what the stream yields up to the size, hashes the same bytes, and ends in an error, never a panic, if the stream breaks off or does not open |
| Transfer.ReceivesExactly | src/protocol_v1.rs:1907-1923 | of a complete stream with blocks of any lengths the receiver stores those of the expected lengths and succeeds exactly if they make up the size |
| Transfer.PrefixSafety | src/protocol_v1.rs:1052-1066 | of any beginning of any sealed stream it stores a prefix of what was sealed, whatever the block lengths |
| Transfer.WhatArrivesIsAPrefix | src/protocol_v1.rs:1790-1811 | composed with the sender: whatever its reads gave and wherever the stream breaks off, what is stored is a prefix of its file |
| Transfer.OpensOnlyWhole | src/crypto.rs:90-116 | a read that does not end where a block ends does not open |
| Transfer.ChunkSync | src/protocol_v1.rs:1907-1923 | for every size, a canonical stream followed by anything yields exactly the file and leaves exactly what follows |
| Transfer.BlockStreamLength | src/protocol_v1.rs:1054-1055 | a stream is as long as its contents and 28 bytes per block |
| Transfer.CutKeepsContents | src/protocol_v1.rs:1790-1811 | the canonical cut of a file loses nothing and has one block per started 64 KiB |
| Transfer.CeilIsRoundedUp | src/protocol_v1.rs:1053 | that number is the size divided by 64 KiB, rounded up |
| Transfer.SendBlock | src/protocol_v1.rs:1796-1808 | a full block is sealed and sent; a shorter one panics and nothing is sent |
| Transfer.SendFile | src/protocol_v1.rs:1790-1811 | however the reads are cut short, the sender has sent exactly the full blocks before the first short one, and it ends well if and only if every read before the end of the file gives a full block |
| Transfer.ReceivedOfSent | src/protocol_v1.rs:1247-1262 | a receiver of the file's size stores that beginning, and succeeds exactly if it is the whole |
| Transfer.TransferFile | src/protocol_v1.rs:1790-1811 | a transfer is the identity if and only if every read before the end gives a full block; otherwise the sender panics and, however little of its write buffer gets through, the receiver reports an error and has stored a beginning of the file |
| EndToEnd.WireFeeds | src/protocol_v1.rs:1052-1066 | what the receiver's loop takes from any wire is what the upload in the store takes in |
| EndToEnd.WireDecides | src/protocol_v1.rs:1052-1096 | fed by any wire an upload can still commit if and only if the beginning of the announced file has come, and has all it needs if and only if that is the file |
| EndToEnd.HonestStreamCommits | src/protocol_v1.rs:1042-1096 | an honest stream of a file of any size, whatever follows it, leads to the commit: the file holds it and the record says so |
| EndToEnd.SenderPutsFullBlocks | src/protocol_v1.rs:1790-1811 | what the sender has sent is, for the conversations, that many full blocks |
| EndToEnd.ServerTakesTheStream | src/protocol_v1.rs:1052-1066 | the server of an upload conversation takes as many bytes of a sealed stream as the receiver's loop |
| EndToEnd.ClientTakesTheStream | src/protocol_v1.rs:1907-1923 | and so does the client of a download |
| UploadConversation.AlwaysAgreed | src/protocol_v1.rs:984-1121 | the invariant of every reachable state: what each inbox holds fits both program counters |
| UploadConversation.NeverStuck | src/protocol_v1.rs:984-1121 | with channels that hold as little as one item, in every reachable state, whatever the server decides and whoever gives up, the next frame is of a kind its reader expects, a refusal with a code of this handler's, and somebody can go on unless both have finished |
| UploadConversation.EveryStepCosts | src/protocol_v1.rs:1757-1826 | every step lowers a bound, so every conversation ends |
| UploadConversation.SuccessIsShared | src/protocol_v1.rs:1096-1113 | the client reports success only if the server has saved, and that only for canonical sizes from 1 MiB to the configured maximum |
| UploadConversation.SameOutcome | src/protocol_v1.rs:1814-1826 | if nobody gives up, client and server finish with the same outcome |
| UploadConversation.WillingUploadsSucceed | src/protocol_v1.rs:1067-1113 | an upload of a canonical size that nobody refuses or gives up never fails at either end, can go on until both have finished, and then the server has saved and the client knows |
| UploadConversation.NothingIsSentUnasked | src/protocol_v1.rs:1757-1784 | until the server has accepted, the client has sent its request and nothing more |
| UploadConversation.RefusedClientsAreTold | src/protocol_v1.rs:984-1035 | if neither end gives up, a refused client that has not finished finds just the code it was refused with |
| DownloadConversation.AlwaysAgreed | src/protocol_v1.rs:1125-1279 | the invariant of every reachable state |
| DownloadConversation.NeverStuck | src/protocol_v1.rs:1125-1279 | as for uploads |
| DownloadConversation.EveryStepCosts | src/protocol_v1.rs:1856-1946 | every step lowers a bound |
| DownloadConversation.SameOutcome | src/protocol_v1.rs:1247-1268 | if nobody gives up, the client accepts exactly if the server sent everything, and then the size is canonical |
| DownloadConversation.WillingDownloadsSucceed | src/protocol_v1.rs:1247-1268 | a download of a canonical size that nobody refuses or gives up never fails at either end and can go on until both have finished well |
| DownloadConversation.NothingIsSentUnasked | src/protocol_v1.rs:1197-1262 | until it has accepted, the server has sent a refusal at most |
| DownloadConversation.RefusedClientsAreTold | src/protocol_v1.rs:1125-1215 | as for uploads |
| RateLimiting.TokenBucket.constructor | src/ratelimit.rs:19-26 | a new bucket is full |
| RateLimiting.TokenBucket.Refill | src/ratelimit.rs:42-47 | the balance grows by elapsed time times rate, up to the maximum |
| RateLimiting.TokenBucket.TryConsume | src/ratelimit.rs:30-38 | refill first; then the cost is taken and the answer is yes exactly if it was there |
| RateLimiting.RateLimiter.IsAllowedCost | src/ratelimit.rs:79-85 | only the IP's own bucket changes; an unknown IP gets a full one |
| RateLimiting.RateLimiter.CleanupStale | src/ratelimit.rs:98-102 | exactly the buckets unused for the given whole seconds go |
| RateTheorems.BalanceStaysInRange | src/ratelimit.rs:30-47 | in every run the balance stays between zero and the maximum |
| RateTheorems.WindowBound | src/ratelimit.rs:30-47 | in every run and every window the cost granted is at most the maximum plus rate times the window's length |
| RateTheorems.BalanceIsTheLowestLine | src/ratelimit.rs:30-47 | the balance is the least, over all past requests and the present instant, of the maximum plus what accrued since minus what was granted since |
| RateTheorems.BalanceIsBelowEveryLine | src/ratelimit.rs:30-47 | and no instant from the start to now gives less |
| RateTheorems.GrantedIff | src/ratelimit.rs:30-38 | a request is granted if and only if its cost is no more than the maximum and, for each past request, no more than the maximum plus what has accrued since at the refill rate less what was granted since |
| RateTheorems.OldReadingsCountAsNone | src/ratelimit.rs:42-47 | for a clock reading older than the bucket's own nothing accrues, and only an age limit of zero drops the bucket |
| RateTheorems.RefillsCompose | src/ratelimit.rs:42-47 | refilling in two steps or in one makes no difference |
| RateTheorems.PerIpProjection | src/ratelimit.rs:79-85 | the answers an IP gets in an interleaved run, with cleanups of single shards anywhere in it, are those of one fresh bucket on its own requests |
| RateTheorems.ShardsMakeUpCleanup | src/ratelimit.rs:98-102 | cleaning one shard after the other is cleaning the table |
| RateTheorems.PatientCleanupsAreUnseen | src/ratelimit.rs:98-102 | cleanups anywhere in a run, shard by shard and with a clock reading older than the requests they follow, change no answer to anybody if an empty bucket is full again by the age limit |
| RateTheorems.CleanupUnobservableIff | src/ratelimit.rs:98-102 | for each age limit that holds of all runs if and only if rate times age limit reaches the maximum |
| RateTheorems.RequestIsGrantedIff | src/ratelimit.rs:79-85 | the same condition for each request of each IP in an interleaved run with such cleanups, over that IP's own past requests alone |
| RateTheorems.GrantedPerWindow | src/ratelimit.rs:79-85 | in an interleaved run with such cleanups each IP is granted at most the maximum plus rate times the window's length in any window |
| RateTheorems.TransfersPerWindow | src/protocol_v1.rs:170-178 | so the admitted uploads and downloads of one IP in a window number at most a fifth of it, at the five tokens each costs; the costs of the other commands |
| Layering.ToLayers | src/layer.rs:145-185 | however short the reads, the layers are the simple chunks of the file, each with the hash of its block |
| Layering.FillBuffer | src/layer.rs:152-165 | the inner loop fills the buffer as far as the file goes and hashes the same bytes |
| Layering.ReadFileLayer | src/layer.rs:39-64 | the same layers' metadata |
| Layering.ReadDataLayer | src/layer.rs:68-91 | at any offset the bytes from there on, up to 64 MiB, with their hash and that offset; at an offset that the metadata record the layer of that very entry; nothing exactly at or past the end of the file |
| Layering.LayerSizes | src/layer.rs:145-185 | all layers are full but perhaps the last, and none is empty |
| Layering.LayersRecordTheirOffsets | src/layer.rs:145-185 | layer i is the i-th 64 MiB of the file, or what is left there, and records their hash and i times 64 MiB |
| Layering.OffsetsLeadBack | src/layer.rs:68-91 | what is found at a recorded offset is the layer that records it |
| Layering.FromLayers | src/layer.rs:189-216 | sorts the slice in place by offset and joins the data in that order |
| Layering.SortPermutes | src/layer.rs:193 | sorting loses and adds no layer |
| Layering.SortSorts | src/layer.rs:193 | and puts the offsets in order |
| Layering.SortIsStable | src/layer.rs:193 | layers with the same offset keep their order |
| Layering.ReassemblyRestores | src/layer.rs:189-216 | whatever order a file's layers come in, reassembly gives the file |
| Layering.CompareLayers | src/layer.rs:221-238 | in order, exactly the layers for which the other file has none of the same offset and hash |
| Layering.InChanged | src/layer.rs:221-238 | a layer is among the changed ones if and only if it is the source's and the destination lacks it |
| Layering.DeltaRebuilds | src/layer.rs:145-238 | changed layers where there are any and the old file's elsewhere rebuild the new file, and bytes sent and bytes reused add up to its size |
| Layering.EditLocality | src/layer.rs:221-238 | an edit inside [a, b) changes only layers that meet it, so at most (b-1)/L - a/L + 1 |
| Admission.CounterIsExact | src/protocol_v1.rs:57-83 | for any number of loops and any interleaving the counter is live handlers, pending rejections and lost slots, handlers and lost slots stay within the limit, and no subtraction finds zero |
| Admission.RefusalMeansNearlyFull | src/protocol_v1.rs:57-64 | a connection is refused exactly if these reach the limit; with n loops fewer than n slots were left, with one none |
| Admission.TwoLoopsRefuseAnIdleNode | src/protocol_v1.rs:57-64 | with two loops that bound is met: a refusal with nobody being served |
| Admission.LostSlotsStayLost | src/protocol_v1.rs:70-83 | slots lost to panics never come back, and when all are lost nothing is served again |
| Admission.EveryCrashCostsASlot | src/protocol_v1.rs:70-83 | in every run the slots lost are as many as the handlers that panicked |
| Admission.CrashesCanUseUpANode | src/protocol_v1.rs:70-83 | with any limit, as many panics as there are slots bring a node to serve nobody ever again |
| Admission.QuietNodeCountsZero | src/protocol_v1.rs:70-83 | without panics the counter of a quiet node is zero |
| Admission.LoopsComeBack | src/protocol_v1.rs:57-64 | a loop that refused a connection takes its one back, sleeps before it listens, and listens again after at most two steps of its own, with nobody who is served disturbed |
| Rotation.KeyDirectories.RotateKeys | src/protocol_v1.rs:911-949 | in place and undisturbed, both renames are tried in order; the request is acknowledged if and only if both directories are there, the new key is free and no rename fails, the user is unknown exactly without a storage directory, and after an acknowledgement both of the old key's directories are the new key's and the old key is in neither tree |
| Rotation.FourSteps | src/protocol_v1.rs:911-949 | that is what the four steps of a request do in a row |
| Rotation.UndisturbedIsAcknowledged | src/protocol_v1.rs:911-949 | so they are acknowledged if and only if both directories are there, the new key is free and neither rename fails |
| Rotation.RenamesComeInOrder | src/protocol_v1.rs:915-941 | in every run the files are never moved before the rename of the key was tried, and nobody with files is answered before both were |
| Rotation.TreesOnlyMove | src/protocol_v1.rs:915-924 | over any requests at the same time, with renames that fail and handlers dropped anywhere, directories are only paired with different directories of the start, contents unchanged, and none with anything in it is gone |
| Rotation.EveryFileHasOneHome | src/protocol_v1.rs:879-950 | every file stored before any requests is afterwards under one key and one only, with the same content |
| Rotation.OwnersFindTheirTrees | src/protocol_v1.rs:879-950 | through fresh keys, the last key an owner was told of leads to the owner's unchanged files if and only if no rotation that was not acknowledged, for whatever reason, has taken them from it |
| Rotation.AlwaysPlaced | src/protocol_v1.rs:915-924 | the invariant behind it: each directory is under its first key's latest successor, and a key lost its directory exactly to a request that took it |
| Rotation.ChainKeepsLookups | src/protocol_v1.rs:1014-1022 | after a chain of rotations of a key with files, each asked for when the one before had been acknowledged and nothing else asked for in the name of these keys, every lookup under the last key answers as under the first, whatever keys others name |
| Rotation.ChainsExist | src/protocol_v1.rs:911-949 | from a registered user, through distinct keys, a chain of any length exists in which every rotation is acknowledged, with both directories unchanged under the last key |
| Rotation.ReachedInTurn | src/protocol_v1.rs:911-949 | and that chain is of the kind whose lookups Rotation.ChainKeepsLookups is about |
| Rotation.OthersAreUntouched | src/protocol_v1.rs:882-924 | a user who asks for no rotation keeps the directory and, if there is anything in it, every file, whatever keys others name, that user's own included |
| Rotation.UntouchedStep | src/protocol_v1.rs:915-924 | the one exception, exactly: an empty directory is replaced when a request names its key and takes a tree with something in it |
| Rotation.EmptyDirectoryIsTakenOver | src/protocol_v1.rs:882-924 | which happens |
| Rotation.TreeIsWithItsHolder | src/protocol_v1.rs:915-924 | in every run a tree with anything in it goes exactly where requests from the key it is under take it |
| Rotation.RetriesAreNeverAcknowledged | src/protocol_v1.rs:915-941 | without its authorisation directory a key can never be rotated away with success |
| Rotation.OwnersCanBeCutOff | src/protocol_v1.rs:915-949 | both unacknowledged cases exist, the failed first rename and the lost answer, and the retry finds an unknown user |
| CatalogFile.Catalog.UpdateOnPush | src/lib.rs:199-229 | in place, the identifier's entry is made or its push time set, and it is tracked under the name |
| CatalogFile.Catalog.UpdateOnPull | src/lib.rs:231-238 | in place, the pull time of a known identifier is set and nothing else |
| CatalogFile.Catalog.ChooseId | src/bin/client.rs:219-254 | the identifier of a push, by name, listing and answer, with each way it can fail: an unknown identifier in the listing, an answer that is no number or out of range |
| CatalogSpec.ChoiceFailsExactly | src/bin/client.rs:219-254 | when the program ends without a choice, and why, exactly: the unknown identifier before the answer, and for a new name the drawn identifier in every case |
| CatalogSpec.PushKeepsConsistent | src/lib.rs:199-229 | a push keeps the two maps in agreement if and only if the identifier is new or already the name's |
| CatalogSpec.AlwaysConsistent | src/bin/client.rs:219-277 | over all runs of pushes and pulls the maps agree and the listing never meets an unknown identifier |
| CatalogSpec.ListingIsPushHistory | src/bin/client.rs:219-277 | a name's listing is the identifiers drawn by its successful pushes, in order |
| CatalogSpec.AnswersPickInOrder | src/bin/client.rs:246 | answering k pushes to the k-th identifier drawn under the name, counted from the oldest |
| CatalogSpec.FilesTellHistory | src/lib.rs:199-238 | after every run of sessions the file map has exactly the identifiers pushed to, each with its name and the times of its last push and of its last pull |

## Left out

- The handshake, signatures, key exchange, randomness and the encryption itself: foreign code; each conversation starts with a shared session key, and a rotation request with a checked signature.
- Header and record encodings: library code; headers and records are datatypes. Of `validate` the size range is kept, the rest is a refusal.
- Timeouts and I/O errors: an early end that is possible at every step of a transfer, a conversation or a rotation.
- Buffering between loop and file or socket: Transfer.TransferFile lets any part of what a panicking sender had handed to its writer get lost, without its 8 MiB capacity; a download's blocks are read from the file when they are sent, where the source reads up to 128 KiB ahead.
- Directory creation, the existence checks and the unreadable record before a download: early ends of the operation in FileStore, refusals in the conversations.
- Sockets that take or give part of an item: the channels of the conversations hold whole items, at least one.
- Warnings (flag 2), which no modelled command sends.
- Transfers during a rotation, registration of keys, the whitelist, and authorisation entries that are plain files.
- Two client programs changing one catalog file at the same time, and the catalog's encoding.
- Echo, status, statistics, logging, progress bars, arguments, the server-trust prompt, and src/protocol_v2.rs, which is commented out.
- Layering.FromLayers: the stable sort itself is the library's; the model says what it yields and proves that a permutation in order is all it can be for the layers of a file.
- FileLocks.LockTable.HoldFileLock: a counter stands for allocating a lock object, and the atomicity of the shared table is assumed.
- RateLimiting.RateLimiter.TokensRemaining: not covered by the cleanup theorems, because it reads a balance without refilling and does notice a cleanup.
- Rotation.OwnersFindTheirTrees: new keys are all different and have no storage directory yet; without that, Rotation.TreeIsWithItsHolder, Rotation.ChainKeepsLookups and Rotation.OthersAreUntouched hold.
