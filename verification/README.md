# Verified model of the DTLab pipeline

Dafny proofs about five cores of the DTLab repository: the content-addressed publication to the dashboard
host, the PLC endpoint audit pipeline, trend retention, the pruning of the ticket store, and the gates and the
activation of releases. `dafny verify dfyconfig.toml` checks all of it.

- **Remote publication** (`RemoteStore`, `RemoteProtocol`, `RemoteSafety`, `RemoteGuarantees`, `RemotePublisher`,
  `RemoteSolo`, `RemoteFraming`, `RemoteReads`, `LiveSync`). The store holds objects, archived manifests, three
  pointers, temporary files and a lock. `RemoteProtocol` is a step machine with one program counter per publisher: any
  number of publishers interleave, each command may take effect or not and may be reported as failed either
  way, and a publisher may crash between any two commands. `RemotePublisher` is the same publisher as a program
  with loops, early exits and cleanup, proved to issue exactly those steps. Hashes are uninterpreted and
  injective; an upload may leave any content behind, so the hash check is what makes a rename safe.
- **PLC audit pipeline** (`EpisodeTally`, `Aggregator`, `EpisodeLoss`, `EpisodeGuarantees`, `Sessions`, `StateStore`,
  `AuditSpool`, `AuditSender`, `AuditPipeline`, `TextForms`). Observations are gathered into episodes, their
  revisions go to a chained and authenticated spool, and a sender with a cursor exports them. Each stage has a
  specification over its whole history, and the stages compose into the end-to-end conservation theorem. `TextForms`
  shows that what these theorems ask of text forms and digests can be met.
- **Trend retention** (`HistoryRetention`): pruning after every insert equals pruning once.
- **Ticket pruning** (`TicketPlan`, `TicketPrune`): a plan from a query, deletes one statement at a time under
  foreign keys and a trigger, one transaction.
- **Gates and activation** (`SnapshotGates`, `Deployment`, `StagingActivation`, `ProductionActivation`): two
  independently written approvals that agree, and two switches that restore what they found.

`Wrappers` and `FiniteSets` hold shared helpers.

The code differs from what its messages or design suggest in these places, and the model follows the code:

- An observe call that renders expired episodes and then fails to allocate a sequence number forgets those
  episodes without returning their last revisions (`EpisodeLoss.RunSettles` says for which episodes of a run,
  `EpisodeGuarantees.LossIsExactlyTheFailedAllocation` for which runs).
- A final hash read that fails after `current` was renamed is reported as `committed=False`
  (`RemoteGuarantees.FinalReadFailureReportsNotCommitted`); every other `committed=False` is right
  (`RemoteGuarantees.WrongAnswerIsExactlyAFailedLastRead`).
- One temporary file that could not be removed makes every later retention refuse
  (`RemoteGuarantees.LeftoverStopsRetentionForGood`).
- A negative `max_points` empties the trend at every record; zero keeps everything.
- Staging stops the ingest path without looking whether it stopped, and never stops a running ingest; production
  looks. So only in production do links and unit files never change under an ingest, whatever fails.
- Under raw resolution two spellings of one instant are two buckets.
- In production a last marker that cannot be written rolls a completed activation back, and a marker that cannot
  be written after a successful restore is reported as a failed restore
  (`ProductionActivation.LostMarkersMisreportTheRestore`).

## Model

| member | source | states |
|---|---|---|
| `RemoteGuarantees.LockedSectionIsExclusiveAndStoreResolves` | src/dtlab/collector/remote_publish.py:308-372 | in every state reachable from an empty store, over any interleaving of publishers, failures and crashes: at most one publisher is in the locked section, every archive and pointer names a present object under its own digest and every pointer has its archive, and until retention starts the holder's presence sets claim no missing file |
| `RemoteSafety.EveryStateIsSafe` | src/dtlab/collector/remote_publish.py:777-864 | the full inductive invariant of the protocol, command by command: what the lock holder knows at each command, what is staged between the hash check and the rename, and what each verdict means before the lock is given back |
| `RemoteSafety.ActKeepsInv` | src/dtlab/collector/remote_publish.py:529-606 | each command of each publisher, whatever its effect and report, keeps the invariant, changes `current` and `last_known_good` only to the manifest being published and `previous` only to what `current` is |
| `RemoteGuarantees.AnswersAreTrue` | src/dtlab/collector/remote_publish.py:561-606 | a return, or an error with `committed=True`, means that `current` is the published manifest; `committed=None` means old or new; `committed=False` means that `current` is what it was, but for the one verdict that the next two rows trace to its origin; a return also means that `previous` is what `current` was and that retention has nothing left to delete |
| `RemoteGuarantees.WrongAnswerIsExactlyAFailedLastRead` | src/dtlab/collector/remote_publish.py:601-606 | of all steps of the lock holder exactly one arrives at `committed=False` with `current` already moved to the published manifest: the last hash read, when it is reported as anything but a success |
| `RemoteGuarantees.WrongAnswersAreLostConfirms` | src/dtlab/collector/remote_publish.py:561-606 | over every run, a publisher about to give back the lock answers wrongly exactly when an earlier step of its own was a last hash read that failed |
| `RemoteGuarantees.FinalReadFailureReportsNotCommitted` | src/dtlab/collector/remote_publish.py:601-606 | a concrete run from an empty store in which only the last hash read fails: the caller is told `committed=False` although `current` is the published manifest |
| `RemoteGuarantees.UnlockDecidesTheAnswer` | src/dtlab/collector/remote_publish.py:837-856 | giving back the lock changes no error and no answer whose unlock is reported as successful, and turns a return whose unlock is not into an error with `committed=True` |
| `RemoteGuarantees.ReturnMeansUnlocked` | src/dtlab/collector/remote_publish.py:837-856 | whoever is told that the publish returned finds the lock free, from any state of the system |
| `RemoteSolo.FaultFreePublishReturns` | src/dtlab/collector/remote_publish.py:777-864 | a publisher alone on a sound store with a free lock and nothing left over, whose commands all succeed and whose uploads land: after finitely many commands it returns, the lock is free, nothing is left over, `current` is the snapshot, and it counts as updated exactly when it was not `current` before |
| `RemoteSolo.FaultFreeScriptExists` | src/dtlab/collector/remote_publish.py:777-864 | such a run exists for every store and job |
| `RemoteSolo.UndisturbedEnd` | src/dtlab/collector/remote_publish.py:777-864 | and it is the only way such a publisher can end |
| `RemoteGuarantees.PointersWereSubmitted` | src/dtlab/collector/remote_publish.py:561-606 | over every run each pointer names a manifest that some publisher was asked to make current |
| `RemoteGuarantees.PointersOnlyImprove` | src/dtlab/collector/remote_publish.py:581-587 | over every run `current` once present stays present, and a last known good that names a fresh snapshot goes on naming a fresh snapshot |
| `RemoteGuarantees.StaleLockFreezesTheStore` | src/dtlab/collector/remote_publish.py:789-794 | a lock left behind by a crash or a lost answer freezes the store: every later publisher fails at the lock and changes nothing |
| `RemoteGuarantees.LostLockAnswerFreezesTheStore` | src/dtlab/collector/remote_publish.py:789-794 | one failing answer to a lock that was taken all the same is enough for that, whatever anybody does afterwards |
| `RemoteGuarantees.RetentionRefusesExactlyOnLeftovers` | src/dtlab/collector/remote_publish.py:645-679 | under the invariant, retention refuses exactly when some temporary file is there in one of the five directories |
| `RemoteGuarantees.LeftoverStopsRetentionForGood` | src/dtlab/collector/remote_publish.py:444-461 | a temporary file that its publisher will not touch again, because it ended, crashed or went on to its next file, survives every further run, and every retention of every publisher that starts in any state of that run refuses |
| `RemoteGuarantees.EveryTemporaryIsOwned` | src/dtlab/collector/remote_publish.py:444-461 | and over every run there are no other temporary files than these and the ones being written |
| `RemoteGuarantees.LeftoverComesFromAFailure` | src/dtlab/collector/remote_publish.py:444-461 | over every run a temporary file is left behind only by a crash while it was being written or by a removal that did not take effect |
| `RemoteStore.CompletedPrune` | src/dtlab/collector/remote_publish.py:708-726 | a completed prune leaves exactly the manifests with fewer than N newer ones by (time, digest) and those the pointers name, and exactly the objects these reference |
| `RemoteStore.PruneKeepsTheNewest` | src/dtlab/collector/remote_publish.py:708-712 | on times and texts: an archive is deleted exactly when at least N others were published later, or at the same time with a greater digest, and no pointer is its text |
| `RemoteStore.PruneKeepsTheUsed` | src/dtlab/collector/remote_publish.py:713-726 | and an object exactly when no remaining manifest and no pointer names it |
| `RemoteStore.EveryPrefixKeepsReferences` | src/dtlab/collector/remote_publish.py:738-775 | every interrupted prefix of the deletions, manifests before objects, keeps every reference resolved and every pointer with its archive |
| `RemoteGuarantees.RecheckGuardsTheObjects` | src/dtlab/collector/remote_publish.py:738-775 | on any store, also one changed by somebody without the lock, the recheck before the objects go passes exactly when the answer arrives, the archives are the kept ones, nothing is left over and no pointer moved, and then nothing in that store names an object that is about to go |
| `RemoteStore.SecondPruneDeletesNothing` | src/dtlab/collector/remote_publish.py:635-775 | pruning a pruned store deletes nothing |
| `RemoteStore.RecentIsByRank` | src/dtlab/collector/remote_publish.py:708-712 | the first N of the list sorted newest first are exactly the archives with fewer than N newer ones |
| `RemoteStore.RecentCount` | src/dtlab/collector/remote_publish.py:708-712 | and there are exactly min(N, all) of them |
| `RemoteStore.SoundStoreIsPrunable` | src/dtlab/collector/remote_publish.py:645-706 | on a store whose references resolve, the refusals of retention reduce to a leftover entry or a missing `current` |
| `RemoteStore.RetentionTrustsExactlyIntactStores` | src/dtlab/collector/remote_publish.py:635-736 | and on any store retention goes on exactly when nothing is left over, `current` is there, every file has its own hash as its name, and every archive and pointer names an object that is there |
| `RemotePublisher.SnapshotPublisher.Publish` | src/dtlab/collector/remote_publish.py:777-864 | the structured program, with its loops, early exits and cleanup in any case, issues exactly the commands of one publisher of the protocol up to its verdict, whatever each command does; when it returns, the lock is free and archives published and already present add up to those requested; and undisturbed and without a fault it does return, saying truly whether `current` was updated |
| `RemotePublisher.SnapshotPublisher.GiveBack` | src/dtlab/collector/remote_publish.py:837-856 | the answer after the unlock, by what was reported of it |
| `RemotePublisher.SnapshotPublisher.VerifiedPresence` | src/dtlab/collector/remote_publish.py:308-372 | succeeds exactly when the listing can be read and every file of the batch that is there has the hash its name carries, and then the two presence sets are exactly the files of the batch that are there; otherwise the publish ends as not committed |
| `RemotePublisher.SnapshotPublisher.EnsureImmutable` | src/dtlab/collector/remote_publish.py:529-559 | uploads exactly what is missing of one snapshot, object before archive, records it, and goes on with the next item |
| `RemotePublisher.SnapshotPublisher.CommitFile` | src/dtlab/collector/remote_publish.py:444-461 | upload, hash check, mode, rename, and removal of the temporary in any case; besides temporary files only the destination may change, only to content with the expected hash (or to a copy of `current`), and on success it holds that; only a lost answer to the removal turns success into an error |
| `RemotePublisher.SnapshotPublisher.CommitCurrent` | src/dtlab/collector/remote_publish.py:561-606 | for a publisher alone on the store, what each of its answers says about each of the three pointers: unchanged when already current; on success `previous` is what `current` was, `last_known_good` moves exactly for a fresh snapshot or when unset, and `current` is the snapshot; each error with its verdict and what it leaves behind; nothing else is touched |
| `RemotePublisher.SnapshotPublisher.Prune` | src/dtlab/collector/remote_publish.py:635-775 | deletes exactly the planned manifests and then the planned objects, in name order, with the recheck in between, and returns both counts |
| `RemotePublisher.ComputePlan` | src/dtlab/collector/remote_publish.py:635-736 | the survey with its refusals, and otherwise the sets of manifests and objects to delete |
| `RemotePublisher.RecentOf` | src/dtlab/collector/remote_publish.py:708-712 | the slice of the newest N computed by selection |
| `RemoteFraming.ListingRoundTrip` | src/dtlab/collector/remote_publish.py:276-306 | reading a NUL-framed directory listing gives back the directory, for every list of distinct names |
| `RemoteFraming.OnlyListingsAreAccepted` | src/dtlab/collector/remote_publish.py:276-306 | only text that is the framing of the returned entries is accepted |
| `RemoteFraming.RemoteEntries` | src/dtlab/collector/remote_publish.py:276-306 | the loop over the fields computes exactly that reading |
| `RemoteFraming.ChunksPartition` | src/dtlab/collector/remote_publish.py:187-194 | batches lose, repeat and reorder nothing, none is empty, and all but the last hold 96 |
| `RemoteFraming.Batches` | src/dtlab/collector/remote_publish.py:187-194 | the range loop computes those batches |
| `RemoteReads.ReadAllKeys` | src/dtlab/collector/remote_publish.py:196-274 | without repeated paths, answers accepted batch by batch always have exactly the requested paths as keys, so the last check never fails by itself |
| `RemoteReads.ReadingRoundTrip` | src/dtlab/collector/remote_publish.py:196-274 | contents and hashes of any number of distinct safe files, read in batches, are exactly their values |
| `RemoteReads.OnlyContentsAreAccepted` | src/dtlab/collector/remote_publish.py:234-274 | a contents answer is accepted only when it is a NUL framing of one `path:content` record per file of the batch, with the contents returned |
| `RemoteReads.ContentsAreAccepted` | src/dtlab/collector/remote_publish.py:234-274 | and every such answer is accepted |
| `RemoteReads.OnlyHashesAreAccepted` | src/dtlab/collector/remote_publish.py:196-232 | a hash answer is accepted only when it is one line per file of the batch, each a digest, two spaces and a path of the batch, the digest sixty-four hexadecimal digits in either case, returned in lower case |
| `RemoteReads.HashesAreAccepted` | src/dtlab/collector/remote_publish.py:196-232 | and every such answer is accepted, in either case of the digits and with any line breaks |
| `RemoteReads.SplitLinesIs` | src/dtlab/collector/remote_publish.py:210-213 | splitting into lines loses only what ends them, for every text and every kind of line break |
| `RemoteReads.LinesAreFound` | src/dtlab/collector/remote_publish.py:210-213 | and any lines with what ends them are found again, a carriage return and a line feed being one break |
| `RemoteReads.ReadRequired` | src/dtlab/collector/remote_publish.py:196-274 | the two nested loops compute exactly that reading, with its refusals |
| `LiveSync.PublishApproved` | tools/live_sync.py:225-245 | targets are published in order up to the first error; every listed target is truly updated, targets after the failed one are untouched, the failed one is listed exactly when its error says `committed` and named unknown exactly when that is not known, and what the error says about it is true; when no target is disturbed, all are listed |
| `RemoteSolo.SoloRun` | src/dtlab/collector/remote_publish.py:561-606 | for a publisher that runs alone, the verdict tells what became of `current` compared with its value before the publish |
| `EpisodeTally.TableIsBoundedHistogram` | integrations/plc_endpoint_audit/dtlab_plc_audit/core.py:260-292 | the bucket table holds exactly the first `max_operation_buckets` distinct writes in order of appearance, with exact counts; counts plus dropped, and the outcome states, each add up to the request count |
| `EpisodeTally.ShutdownFlagIsHistoryPredicate` | integrations/plc_endpoint_audit/dtlab_plc_audit/core.py:243-258 | the shutdown flag is on exactly when addresses 3, 4 and 16 each had an FC06 single zero write and the latest such times span at most the window (section 6.6 of MODBUS Application Protocol Specification V1.1b3) |
| `EpisodeTally.FlagIsNotLatched` | integrations/plc_endpoint_audit/dtlab_plc_audit/core.py:251-258 | a later repeat of one zero write outside the window turns the flag off again |
| `EpisodeTally.TallyHoldsTotals` | integrations/plc_endpoint_audit/dtlab_plc_audit/core.py:260-292 | first and last time, function codes, each outcome count and the last outcome are those of the history |
| `EpisodeTally.BucketsShowTheFirst` | integrations/plc_endpoint_audit/dtlab_plc_audit/core.py:260-292 | each bucket shows the values of the first write with its function code, address, quantity and value digest |
| `EpisodeTally.WriteKeysMean` | integrations/plc_endpoint_audit/dtlab_plc_audit/core.py:235-241 | two writes share a bucket exactly when they agree in function code, address, quantity and value digest |
| `Aggregator.KeysMean` | integrations/plc_endpoint_audit/dtlab_plc_audit/core.py:197-207 | observations share an episode key exactly when they agree in source address and port and in destination address, port and unit |
| `Aggregator.EpisodeAggregator.Observe` | integrations/plc_endpoint_audit/dtlab_plc_audit/core.py:374-391 | the new state and the returned events of one observation: expired episodes first, then the episode of the observation, with the critical revision in the same call; a failed allocation raises after the flush |
| `Aggregator.EpisodeAggregator.FlushWhere` | integrations/plc_endpoint_audit/dtlab_plc_audit/core.py:393-429 | in whatever order the dictionary is visited, the closing episodes are rendered if they changed and forgotten, and the others stay |
| `Aggregator.EpisodeAggregator.FlushAll` | integrations/plc_endpoint_audit/dtlab_plc_audit/core.py:423-429 | and after a global flush nothing is open |
| `Aggregator.FlushLeaves` | integrations/plc_endpoint_audit/dtlab_plc_audit/core.py:393-429 | a flush removes exactly the visited episodes that it closes and changes no other |
| `Aggregator.ApplyKeepsInv` | integrations/plc_endpoint_audit/dtlab_plc_audit/core.py:294-429 | every call, also one that raises after rendering, keeps for every open and closed episode: revisions numbered from one without gaps, each reporting a true prefix of its observations with its endpoints, its detection and its claim about the endpoint, and counting strictly more; an open one clean exactly when reported completely |
| `EpisodeLoss.LosesExactlyTheDropped` | integrations/plc_endpoint_audit/dtlab_plc_audit/core.py:374-391 | a raising observe call loses events exactly when it closes some episode that changed since its last revision |
| `EpisodeLoss.RunSettles` | integrations/plc_endpoint_audit/dtlab_plc_audit/core.py:374-429 | over every run, an open episode has lost nothing, and a closed one is reported completely exactly when no raising call closed it with something to report; closed numbers never come back |
| `EpisodeGuarantees.FlushAllReportsEverything` | integrations/plc_endpoint_audit/dtlab_plc_audit/core.py:374-429 | for every run of calls ended by a global flush, whatever failed in it: nothing is open, every episode's revisions are numbered without gaps, grow, and report true prefixes, and they end by counting all of it exactly when that episode was not lost to a raising call |
| `EpisodeGuarantees.LossIsExactlyTheFailedAllocation` | integrations/plc_endpoint_audit/dtlab_plc_audit/core.py:374-391 | over every run ended by a global flush, all episodes are reported completely exactly when no observe call rendered closing episodes and then failed to allocate |
| `EpisodeGuarantees.FailedAllocationLosesCounts` | integrations/plc_endpoint_audit/dtlab_plc_audit/core.py:374-391 | a concrete run that loses a count this way |
| `EpisodeGuarantees.HighestRevisionsCountEveryObservation` | integrations/plc_endpoint_audit/dtlab_plc_audit/core.py:374-429 | conservation, for every run ended by a global flush: the highest revisions of all episodes never add up to more than the observations counted, and add up to exactly that just when no call lost events |
| `EpisodeGuarantees.RisingEdgeIsReported` | integrations/plc_endpoint_audit/dtlab_plc_audit/core.py:294-309 | after every run, also one in which calls lost events, the observation that completes a shutdown sequence is reported by a critical revision as the last event of the same call, over exactly the observations of its episode |
| `EpisodeGuarantees.RevisionGoesOutExactlyWhenDue` | integrations/plc_endpoint_audit/dtlab_plc_audit/core.py:374-391 | over every run, for every counted observation, from the history alone: the call ends with one revision of its episode, over all of its observations, exactly when there was none yet, the emit interval has passed since the observation that the last one ended with, or a shutdown sequence is completed; otherwise it adds none |
| `EpisodeGuarantees.EveryRevisionIsTrue` | integrations/plc_endpoint_audit/dtlab_plc_audit/core.py:294-362 | over every run, whatever failed in it, each revision that is printed is a true account of the first observations of its episode in every total and bucket, names their endpoints, claims what the last outcome supports, and is critical exactly when they end in a shutdown sequence |
| `Sessions.EpisodesAreGapSessions` | integrations/plc_endpoint_audit/dtlab_plc_audit/core.py:374-429 | with non-decreasing times, two consecutive observations of an endpoint key share an episode exactly when less than the quiet window lies between them and no peer or global flush does, whatever other keys and timer flushes do |
| `Sessions.OthersOnlyClose` | integrations/plc_endpoint_audit/dtlab_plc_audit/core.py:393-421 | an operation that does not count an observation of a key leaves its episode alone or closes it, exactly when it expired or was flushed |
| `StateStore.SequencesAreNeverReused` | integrations/plc_endpoint_audit/dtlab_plc_audit/spool.py:121-164 | over every sequence of allocations, failed saves, crashes, restarts and reboots with fresh boot ids, no pair of boot id and episode sequence is used twice |
| `StateStore.NumbersHaveNoGaps` | integrations/plc_endpoint_audit/dtlab_plc_audit/spool.py:121-164 | and when every save succeeds, each boot is given 0, 1, 2 and so on, whatever crashes or restarts in between |
| `StateStore.Store.Allocate` | integrations/plc_endpoint_audit/dtlab_plc_audit/spool.py:159-164 | the counter moves before the save, and a number whose save failed is never handed out |
| `StateStore.Store.Load` | integrations/plc_endpoint_audit/dtlab_plc_audit/spool.py:131-147 | the state file of this boot is continued; anything else starts from zero and is saved |
| `AuditSpool.VerifyAcceptsExactlyBuilt` | integrations/plc_endpoint_audit/dtlab_plc_audit/spool.py:193-234 | verification accepts exactly the envelopes that building from their own event, key id and previous hash yields, with the expected previous hash |
| `AuditSpool.VerifiedMeans` | integrations/plc_endpoint_audit/dtlab_plc_audit/spool.py:156-234 | and these are exactly the envelopes whose schema, algorithm, payload hash, signature, record hash and id are what the design says of their event, key id and previous hash |
| `AuditSpool.FlawIsTheFirstDifference` | integrations/plc_endpoint_audit/dtlab_plc_audit/spool.py:193-234 | and each refusal names the first part, in the coded order, in which the envelope differs from what signing would have produced |
| `AuditSpool.OneSignatureOneRecord` | integrations/plc_endpoint_audit/dtlab_plc_audit/spool.py:156-234 | nothing can be changed under a signature: with an authentication code that tells what it was made of, two records that verify under one key with one signature are the same |
| `AuditSpool.RevisionsHaveOwnRecordIds` | integrations/plc_endpoint_audit/dtlab_plc_audit/spool.py:190 | two revisions of one event never share a record id |
| `AuditSpool.HeadHashCommitsToSpool` | integrations/plc_endpoint_audit/dtlab_plc_audit/spool.py:180-234 | with an injective record hash that never is the zero hash, two spools that verify from the zero hash and end in the same record hash are the same, record by record, whatever keys they were verified with |
| `AuditSpool.SignedSpool.Append` | integrations/plc_endpoint_audit/dtlab_plc_audit/spool.py:269-281 | appends one whole verified line or refuses and leaves the file as it was; the chain from the zero hash is kept |
| `AuditSpool.SignedSpool.Reopen` | integrations/plc_endpoint_audit/dtlab_plc_audit/spool.py:255-267 | after a restart the chain continues from the last non-blank line, which for an appended spool is exactly where it stopped, given a text form that reads back the envelopes that appends build |
| `AuditSpool.ReopenedSpoolContinues` | integrations/plc_endpoint_audit/dtlab_plc_audit/spool.py:255-267 | the last line of an appended spool carries the head of its chain |
| `TextForms.TextFormExists` | integrations/plc_endpoint_audit/dtlab_plc_audit/spool.py:180-191 | what the theorems on the spool and behind it ask of text forms and digests is attainable for the very events of the aggregator: there are an encoding of envelopes that reads back, on one non-blank line, and a record digest without collisions, whatever the other digests and ids are |
| `AuditSender.PendingEnvelopes` | integrations/plc_endpoint_audit/dtlab_plc_audit/sender.py:129-155 | the loop over complete lines reads exactly what the recursive reading does, error by error |
| `AuditSender.ScanReturnsExactly` | integrations/plc_endpoint_audit/dtlab_plc_audit/sender.py:129-155 | for every file whatever, every cursor and limit: a batch is returned exactly when it is the next complete lines, each what signing its own event with this key and the hash before it yields, up to the limit or the last complete line |
| `AuditSender.ScanFailsExactly` | integrations/plc_endpoint_audit/dtlab_plc_audit/sender.py:147-154 | and the reading fails exactly when, within the limit, the first line that is not so has that flaw |
| `AuditSender.OnlyGenuineIsSent` | integrations/plc_endpoint_audit/dtlab_plc_audit/sender.py:242-254 | of any file, whatever was done to it, a send delivers only genuine records, consecutive from its cursor, and the cursor stands after them or before the last |
| `AuditSender.ScanYieldsNextRecords` | integrations/plc_endpoint_audit/dtlab_plc_audit/sender.py:129-155 | from any record boundary an appended spool verifies and yields exactly the next min(limit, remaining) records, whatever part of the next line is visible |
| `AuditSender.EventSender.SendPending` | integrations/plc_endpoint_audit/dtlab_plc_audit/sender.py:242-254 | delivers and saves record by record and stops where the first delivery or save fails, with or without effect; everything it adds to the log is a genuine record of the file at its place |
| `AuditSender.EventSender.Save` | integrations/plc_endpoint_audit/dtlab_plc_audit/sender.py:117-126 | the cursor in memory moves only after the file was written |
| `AuditSender.CursorAndLogStayInStep` | integrations/plc_endpoint_audit/dtlab_plc_audit/sender.py:99-155 | over every interleaving of appends, torn last lines, failing sends and restarts, the cursor file is a record boundary with the hash before it, and the deliveries without adjacent repeats are the records up to it or one more |
| `AuditSender.ZeroSentMeansAllDelivered` | integrations/plc_endpoint_audit/dtlab_plc_audit/sender.py:242-254 | a send that finds nothing to send means that every record was delivered and the cursor file stands at the end |
| `AuditSender.FaultlessSendDrains` | integrations/plc_endpoint_audit/dtlab_plc_audit/sender.py:242-254 | from wherever the sender stands, one send without a failure and with a large enough limit leaves nothing to send |
| `AuditSender.RestartSendsExactlyTheUnsaved` | integrations/plc_endpoint_audit/dtlab_plc_audit/sender.py:99-155 | after a restart one send without a failure delivers exactly the records behind the saved cursor, whatever was in memory |
| `AuditSender.OutboxDirectory.Export` | integrations/plc_endpoint_audit/dtlab_plc_audit/sender.py:194-213 | an existing file with the same event is kept, one with another event is a collision |
| `AuditSender.RevisionsHaveOwnFiles` | integrations/plc_endpoint_audit/dtlab_plc_audit/sender.py:194-213 | two revisions of one event never share a file |
| `AuditSender.OutboxIsTheLog` | integrations/plc_endpoint_audit/dtlab_plc_audit/sender.py:194-213 | exporting a sequence of deliveries succeeds exactly when no two events claim one file name, and then the outbox holds exactly them |
| `AuditSender.OutboxIsAPrefixOfTheSpool` | integrations/plc_endpoint_audit/dtlab_plc_audit/sender.py:194-254 | hence over every run the outbox of spooled events is exactly the first k or k+1 records |
| `AuditPipeline.AuditRuntime.AppendEvents` | integrations/plc_endpoint_audit/dtlab_plc_audit/runtime.py:96-104 | events are appended in order up to the first refusal, which drops the rest; only a complete append clears the failure and records the last event |
| `AuditPipeline.AuditRuntime.Observe` | integrations/plc_endpoint_audit/dtlab_plc_audit/runtime.py:106-127 | one decoded write through aggregator and spool; a failed allocation raises before anything is appended |
| `AuditPipeline.AuditRuntime.Flush` | integrations/plc_endpoint_audit/dtlab_plc_audit/runtime.py:129-147 | the timer, peer and global flushes through aggregator and spool |
| `AuditPipeline.RunKeepsPlace` | integrations/plc_endpoint_audit/dtlab_plc_audit/runtime.py:96-147 | a run without refusals spools exactly the aggregator's events in order, and the sender keeps its place |
| `AuditPipeline.EveryObservationIsExported` | integrations/plc_endpoint_audit/dtlab_plc_audit/runtime.py:96-147 | end to end: for every interleaving of hook calls, failing sends and restarts, if no append was refused, then after a global flush and draining the sender the highest revisions among everything delivered never count more than the observations made, and count exactly these just when no call lost events |
| `AuditPipeline.OneSendDrains` | integrations/plc_endpoint_audit/dtlab_plc_audit/runtime.py:96-147 | that nothing is left to send can be reached after any run by one such send |
| `AuditPipeline.ExportNeverOverstates` | integrations/plc_endpoint_audit/dtlab_plc_audit/runtime.py:96-147 | over every run, whatever is refused, lost, repeated or torn, what was exported never counts more observations than were made |
| `HistoryRetention.PrunePoints` | src/dtlab/services/history_store.py:93-121 | the loops compute the sorted, bucketed, aged and capped list |
| `HistoryRetention.HistoryStore.Record` | src/dtlab/services/history_store.py:161-180 | the stored list is what one recording of the point makes of the old one, and a failed write changes nothing |
| `HistoryRetention.OnlineEqualsOffline` | src/dtlab/services/history_store.py:161-180 | for distinct snapshot ids and a non-decreasing clock, recording points one by one in any time order stores what one prune of all of them would; times need not be distinct for days and hours |
| `HistoryRetention.OnlineEqualsOfflineIff` | src/dtlab/services/history_store.py:93-121 | exactly when this holds, for every cap, where points at one instant share their bucket: a negative cap makes every online prune empty the list. Under raw resolution that needs one spelling per instant |
| `HistoryRetention.CalendarRetentionAgreesIff` | src/dtlab/services/history_store.py:84-121 | for days and hours, with nothing asked of the points: online and offline retention agree exactly when the cap is not negative or leaves nothing |
| `HistoryRetention.NegativeCapStoresNothing` | src/dtlab/services/history_store.py:119-120 | the failing family: with a negative cap nothing is ever stored, whatever is recorded |
| `HistoryRetention.RawSpellingsDiverge` | src/dtlab/services/history_store.py:84-90 | under raw resolution two spellings of one instant make online and offline retention keep different points |
| `HistoryRetention.PruneIsIdempotent` | src/dtlab/services/history_store.py:93-121 | for every list and resolution, pruning twice is pruning once exactly when the cap is not negative or leaves nothing |
| `HistoryRetention.PrunedIs` | src/dtlab/services/history_store.py:93-121 | one prune keeps the newest point of each bucket, without the aged and the excess ones |
| `HistoryRetention.PruneStoresNewest` | src/dtlab/services/history_store.py:84-121 | on instants and texts, for every list, resolution and cap: what is stored is in age and in time order, no two points of one UTC day, one hour or one spelling, each the newest of its own; and a point in age is missing only when the cap is full of points no older |
| `HistoryRetention.RecordReplacesAndPrunes` | src/dtlab/services/history_store.py:161-180 | one recording over any stored list: the point takes the place of everything stored under its snapshot, and the same holds of what is left |
| `TicketPlan.Query` | scripts/prune_ticket_store.py:142-150 | every ticket with its signal, once, in the coded order |
| `TicketPlan.FirstProtectedIsFirst` | scripts/prune_ticket_store.py:126-156 | the search finds the first security test, and fails exactly when an unreadable classification stands before it |
| `TicketPlan.KeptCount` | scripts/prune_ticket_store.py:151-164 | exactly min(retain, n) tickets are kept, and one when retain is zero and a protected ticket exists |
| `TicketPlan.KeptIsAPrefixAndTheProtected` | scripts/prune_ticket_store.py:151-164 | the protected ticket is kept, and no dropped ticket comes before a kept one that is not protected |
| `TicketPlan.KeptAreNewest` | scripts/prune_ticket_store.py:142-164 | on the texts: each kept ticket but the protected was updated later than each dropped one, or at the same time with the lesser id |
| `TicketPlan.SearchFindsNewestTest` | scripts/prune_ticket_store.py:126-156 | the protected ticket is the newest security test, and the search fails exactly at an unreadable classification newer than every security test |
| `TicketPlan.PlanPrune` | scripts/prune_ticket_store.py:139-182 | refuses a negative bound, raises for an unreadable classification newer than every security test, and otherwise keeps the newest tickets and the newest security test, as many as asked for |
| `TicketPrune.Connection.DeleteTickets` | scripts/prune_ticket_store.py:227-231 | fails as a whole while a comment, task or audit event points at a ticket to be deleted, else deletes exactly the others; foreign keys are kept |
| `TicketPrune.Connection.DeleteAudit` | scripts/prune_ticket_store.py:219-225 | aborts while the append-only trigger exists and a row would go |
| `TicketPrune.Connection.DeleteSignals` | scripts/prune_ticket_store.py:237-240 | fails as a whole while an occurrence points at a signal to be deleted |
| `TicketPrune.Connection.ApplyPlan` | scripts/prune_ticket_store.py:198-254 | every statement in turn succeeds and keeps all foreign keys, the trigger is restored, and the counts are checked |
| `TicketPrune.PlanAgrees` | scripts/prune_ticket_store.py:243-248 | applying a plan to the tables it was made from deletes exactly what was planned, so the three count errors cannot occur |
| `TicketPrune.Connection.PruneStore` | scripts/prune_ticket_store.py:338-390 | a dry run changes nothing; an apply succeeds exactly when both examinations, the backup and the commit do, and then leaves the planned tables, in which the newest tickets and the newest security test remain, with ingests and trigger untouched; any error leaves what the transaction found |
| `TicketPrune.SecondPruneDeletesNothing` | scripts/prune_ticket_store.py:139-254 | pruning twice deletes nothing more |
| `SnapshotGates.EvaluateStaging` | tools/verify_staging_snapshot.py:136-276 | the staging gate with its accumulated failures: it approves exactly the snapshots whose fields make them approvable, says of them only what is true, and of the others names exactly the failures that have a reason |
| `SnapshotGates.StagingApprovesExactly` | tools/verify_staging_snapshot.py:136-276 | approved exactly when: published as real only, score high enough, no demo source and no demo mark at any depth, exactly one source of each required kind with all its capabilities available but for the approved exception and the noted host scope, that source connected without error or only degraded by the exception, fresh (or partial with the exception observed), and not older than it may be to the whole second unless a rollback is allowed |
| `SnapshotGates.ApprovalSaysTruly` | tools/verify_staging_snapshot.py:232-276 | policy, runtime state, age, notes and the result of each kind of source, on the fields |
| `SnapshotGates.FailuresHaveReasons` | tools/verify_staging_snapshot.py:136-260 | every failure code is reported exactly when it has its reason in the fields |
| `SnapshotGates.EvaluateProduction` | deploy/production_tool.py:377-533 | the production gate with its own checks, accepting exactly the approvable snapshots that meet their contract |
| `SnapshotGates.ProductionAcceptsExactly` | deploy/production_tool.py:377-533 | the same condition on the fields, at threshold 80, with the contract, the score at most 100, times in order and a maximal age between 60 and 604800 seconds |
| `SnapshotGates.RefusalsHaveReasons` | deploy/production_tool.py:377-520 | a refusal carries exactly the failures that have a reason in the fields |
| `SnapshotGates.CheckStagingKind` | tools/verify_staging_snapshot.py:165-232 | deciding by counting codes is exact: a kind of source is marked failed just when it added a code of its own |
| `SnapshotGates.SourcesAgree` | tools/verify_staging_snapshot.py:101-134 | for any matching sources and capabilities the two gates find failures, warnings and exceptions in the same cases |
| `SnapshotGates.GatesAgree` | deploy/production_tool.py:377-533 | for every snapshot, source list, capability map, clock and flags at threshold 80: production accepts exactly when staging approves and the snapshot meets its contract, with the same state, age, quality, exceptions and policy, and warnings that differ only by the note on a partial snapshot |
| `SnapshotGates.ContainsDemoMeans` | tools/verify_staging_snapshot.py:91-98 | the search finds exactly the data in which some dictionary at any depth marks its truth as demo |
| `StagingActivation.Activate` | deploy/staging_tool.py:1658-1733 | returning means that links, units, service and ingest path are the target's, the process runs from them, and files, store and health were found well at last, in this order, after an ingest between two such rounds where the release has one; the original error re-raised means that everything is as captured, found healthy again if it ran; without failures it returns, and then no link or unit file changed under an active path unit |
| `StagingActivation.RollbackFailedSwitch` | deploy/staging_tool.py:1604-1655 | from any state, returning means restored; and when no command fails, it returns exactly for a captured state whose running or enabled parts have their files |
| `StagingActivation.Switch` | deploy/staging_tool.py:1680-1715 | the forward part, whose final checks imply the target; an ingest runs between two rounds of checks of files, store and health |
| `ProductionActivation.Activate` | deploy/production_tool.py:2316-2399 | the answer is a function of how far the activation came and of which of its markers were written: a complete activation whose last marker fails is rolled back, a complete restore whose marker fails is reported as a failed restore; returning means the target and the marker `complete`, the original error everything as captured and the marker `rolled_back`, a failing first marker that nothing was touched; whatever fails, no link or unit file ever changes while the path unit is active or an ingest runs; without a failing command, and with the files of what ran, the markers alone decide |
| `ProductionActivation.LostMarkersMisreportTheRestore` | deploy/production_tool.py:2372-2397 | on a machine where no command fails and only the second and third marker are lost, for every target and every state whose units have their files: the answer is a failed restore, and everything is as captured |
| `ProductionActivation.RestoreTransaction` | deploy/production_tool.py:2258-2313 | from any state, returning means restored, found healthy if it ran, the ingest at rest and the stores well at last; and without a failing command it returns exactly when units that ran or were enabled have their files |
| `Deployment.Host.SetPathState` | deploy/production_tool.py:2154-2170 | success means that the path unit has the wanted state, and nothing else changed |
| `ProductionActivation.QuiesceIngest` | deploy/production_tool.py:2173-2180 | success means that the path is neither active nor enabled and the ingest rests, and only ingest state changed |

## Left out

- SSH, SCP, systemd, HTTP, TLS and SQLite themselves: a command is an effect that may or may not happen and a report; delayed effects of timed-out commands do not occur.
- Remote reads made in a row by the lock holder are one step of the protocol; the creation of the remote directories, file ownership and modes, and symbolic links are not modelled, and neither are directory entries other than regular files.
- RemotePublisher.SnapshotPublisher.Publish: one publisher's program without others between its commands; interleavings are the subject of RemoteProtocol.
- LiveSync.PublishApproved: each target's publisher runs alone on its host; the selection of targets, the archive backlog, the per-target counters and the process lock of the cycle are not modelled.
- The ordering and deduplication of a batch before it is published, and the summary counters other than archives published and already present.
- RemoteReads.OnlyContentsAreAccepted: path normalisation is an uninterpreted function, so a record is one that the reader would normalise to a requested path.
- SHA-256, HMAC (RFC 2104), JSON text and timestamps are uninterpreted functions, injective or readable back where a property needs it; parse errors of timestamps and manifests are not distinguished further.
- AuditSpool.SignedSpool.Append: one whole line or a refusal; an input or output error after the bytes landed, and a torn line that lost only its newline, are not repaired by the code and not modelled.
- Heartbeats, health files and the hook glue of the sensor, extract_modbus_write, classify_source and make_observation: they build or report values; heartbeats share the outbox but are not spooled.
- AuditPipeline.EveryObservationIsExported: one hook process from an empty spool; an observe call whose allocation failed counts as not made.
- AuditSender.CursorAndLogStayInStep: a spool written by append alone; an unreadable cursor file, which stops the sender, is not modelled.
- The iteration order of the aggregator's dictionary is arbitrary; two processes writing the PLC state file at once do not occur.
- HistoryRetention.OnlineEqualsOfflineIff: under raw resolution, runs in which one instant has two spellings are left to RawSpellingsDiverge, which shows that they may differ; when they do is not characterised.
- HistoryRetention.HistoryStore.Record: the derived metrics are opaque, and an unreadable stored history is not modelled.
- TicketPrune.Connection.PruneStore: the quick and integrity checks of the database reduce to its foreign keys; the backup file and its manifest are a success or a failure.
- SnapshotGates.EvaluateStaging: validation against the JSON schema happens before; fields are typed, and the fields, schema version and list fields that only production checks again are one flag.
- StagingActivation.Activate: file modes, unit file validation and link target validation are part of whether a command succeeds; the service does not crash by itself between commands; a health timeout allows at least one attempt.
- ProductionActivation.Activate: the checks of the snapshot and ticket stores are successes or failures, and the preparation and backup around the activation are not modelled; an ingest that an active path unit starts by itself is not a step of its own.
- The adapters, applications, simulator and user interface of the repository.
