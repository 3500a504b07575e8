# Verified model of the ct-mapreduce ingestion pipeline

`ct-fetch` copies certificate-transparency logs into a store. Per log, a downloader
asks the log for ranges of entries (get-entries, section 4.6 of RFC 6962), puts good
leaves on one bounded channel, and from time to time saves how far it got, first in the
remote cache and then in the backend. A pool of database threads takes entries off the
channel and stores each certificate once. Several processes agree on a leader and on a
common start through the remote cache.

The project models that pipeline and proves what it promises over every run, every
interleaving and every environment, failing calls included.

## How it is built

* A protocol is a deterministic machine, a step function over one event of its
  environment; a run is the fold of that function over a list of events (`Runs`).
  Whatever the environment may choose (a short answer, a 429, a signal, a tick, a failed
  save, a crash, which process acts next) is part of the event, so a lemma about every
  list of events is a lemma about every run. Events that are not enabled change nothing.
* What the repository does by updating an object is a class whose methods update its
  fields, with the source's loops. The methods are proved equal to a machine or to a
  specification function, and the properties are proved of that: `LogWorker` against
  `Download`, `Coordinator` against `Election`, `Database`, `KnownCertificates` and
  `MockCache` against `DatabaseSpec` and `SortedSlices`.

| part | files |
|---|---|
| download, checkpoint, resume, whole program | `Download`, `DownloadEnds`, `LogWorker`, `Checkpoints`, `Engine`, `EngineProgress`, `Pipeline`, `PipelineProgress` |
| leader election and start barrier | `Election`, `Leadership`, `StartBarrier`, `Coordinator` |
| deduplicating store | `StoreProtocol`, `StoreBuckets`, `AccumulateProtocol`, `AccumulateResults`, `AccumulateDates`, `AccumulateFailures`, `RepairInstance`, `DatabaseSpec`, `DatabaseResults`, `LocalMaps`, `Database`, `KnownCertificates`, `MockCache`, `SortedSlices` |
| identifiers and keys | `Identifiers`, `Calendar`, `Gregorian`, `Base64`, `Text` |
| shared | `Runs`, `Counting`, `Options` |

## Where the code differs from what one would expect

* `MaxEntry` is documented as the most recent entry (storage/types.go:27), but the code
  stores the next index to fetch. The model follows the code.
* With `Offset > 0` every run restarts at the offset and may save it before anything
  below it was fetched. `Checkpoints.OffsetCanSkipEntries` is a run that does so, and
  `Checkpoints.StartIsSafeExactlyWhenCovered` says exactly which starting points are safe.
* `startPos+Limit` wraps at 2^64; `Download.EndPosExact` says exactly when the chosen
  range is one. A start beyond the end is not treated as nothing to do; the run handles
  nothing and saves its start.
* A run that begins before the saved position overwrites the newer record as soon as it
  stops: no gap, but progress is lost and entries are fetched again.
  `Checkpoints.ProgressIsLostExactlyWhenBehind` says when that can happen, and
  `Checkpoints.ReadsBehindExactly` which unreadable stores bring it about; an unreadable
  backend behind a readable cache record does not. `Checkpoints.NewLogIsSound` is where
  every history of a log begins.
* A serial is marked known before its PEM is written. Once the `Store` whose insert took
  effect has returned without writing, the PEM is not written until the set of serials
  has run out (`StoreProtocol.AFailedWriteIsNeverRetried`);
  `StoreProtocol.PemIsMissingExactly` lists every way to end without it. One of them needs
  no failed call: the client repeats requests (`MaxRetries`, storage/rediscache.go:24), so
  an insert whose first reply was lost is answered "already there".
* The set of serials expires at the start of the bucket's hour, if its expiry was ever
  set. From then on a certificate counts as new again, unless it is in a set on which no
  expiry has been set (`StoreProtocol.AfterExpiryItIsNewAgain`); without an expiry a
  certificate is written once however late it is.
* A distribution point or issuer name is marked in the local map of an object before it is
  inserted. When an insert fails, the URL or the name can still come to be recorded exactly
  when some other call of the issuer, which has neither failed nor returned, is already on
  its way to insert it, or will look for it where it is not marked: under another spelling
  of the same URL, or in another object (one being made, or one made before that has not
  seen it). `AccumulateFailures.AFailedInsertIsRepairedExactly` says so, and
  `RepairInstance.OnlyAnotherSpellingRepairs` is a run from the start that shows both sides.
* The issuer's object marks a date before anything of `Accumulate` can fail, and only the
  Store that found the date unmarked allocates the bucket. If that one fails or dies first,
  later Stores write PEMs into a bucket that is never allocated
  (`StoreBuckets.BucketIsUnlistedExactly`, `StoreBuckets.APemWithoutABucket`).
* Renewal does not check who owns the leader key. A second process of the name that joins
  after a pause is elected exactly when the leader's last renewal has run out by then
  (`Leadership.SecondLeaderExactlyWhenLate`). The check for an earlier start at
  coordinator/coordinator.go:68 can never fire, because a failed `Exists` reports false;
  no claim rests on it.
* A date made from a time is good for one hour less than the same date parsed from its ID.
* Serial keys are read back exactly when the issuer ID holds no "::"; a leading or
  trailing ':' is harmless there, but a trailing one is not in a `UniqueCertIdentifier`.
* Local keys (date and issuer without a separator) are distinct for the keys that `Store`
  makes; between a day and an hour they collide exactly as
  `Identifiers.LocalKeyCollidesExactly` says.

## Model

| member | source | states |
|---|---|---|
| Checkpoints.NoHistoryLeavesAGap | cmd/ct-fetch/ct-fetch.go:288-487 | with no offset, over every history of runs, crashes, failed saves and unreadable stores, every index below a checkpoint in either store, and below wherever `GetLogState` makes the next run start, was sent or rejected |
| Checkpoints.ResumeKeepsSound | storage/filesystemdatabase.go:120-139 | what is loaded from sound stores is a position with no gap below it, and a run begun there is sound |
| Checkpoints.StepKeepsSound | cmd/ct-fetch/ct-fetch.go:415-487 | no moment of a run saves a position below which an index is missing |
| Checkpoints.ProgressIsNeverLost | storage/filesystemdatabase.go:110-139 | as long as no run begins before the saved position, whatever the offset, however saves fail and runs crash, the position to resume from never decreases |
| Checkpoints.ProgressIsLostExactlyWhenBehind | storage/filesystemdatabase.go:110-139 | some environment makes a run lower the saved position if and only if it has something to fetch and starts before that position |
| Checkpoints.ResumeLosesProgressExactly | cmd/ct-fetch/ct-fetch.go:282-305 | so it is for the start and end that are chosen without an offset, whichever stores can be read; never if the cache has a record and can be read |
| Checkpoints.ReadsBehindExactly | storage/filesystemdatabase.go:125-138 | which missing and unreadable records make `GetLogState` give a smaller position than the saved one |
| Checkpoints.UnreadableCacheLosesProgress | storage/filesystemdatabase.go:125-133 | an instance of the above with the cache at 7 and the backend at 3 |
| Checkpoints.StartIsSafeExactlyWhenCovered | cmd/ct-fetch/ct-fetch.go:290-292 | a starting point can never leave a gap if and only if nothing will be fetched, or it does not fit an int64, or everything below it was dealt with |
| Checkpoints.OffsetCanSkipEntries | cmd/ct-fetch/ct-fetch.go:290-292 | with an offset of 5, a first run that fails at once leaves both stores claiming entries it never saw |
| Download.LastIndexExact | cmd/ct-fetch/ct-fetch.go:416-420 | a requested range is well formed and at most 1001 long if and only if the addition did not wrap, and then asks for as much as it may |
| Download.EndPosExact | cmd/ct-fetch/ct-fetch.go:302-305 | the end never passes the tree; start <= end exactly when the start is in the tree and the limit did not wrap into it; a positive limit bounds the range; without a limit the end is the tree's, and with one that does not wrap it is the tree's or the limit is used up |
| DownloadEnds.StoppedRunHasSaved | cmd/ct-fetch/ct-fetch.go:360-369 | every run that has stopped and had something to do has saved its final index, and each store that accepted that save holds it |
| DownloadEnds.CleanRunSavesItsEnd | cmd/ct-fetch/ct-fetch.go:345-369 | after a clean run each store that accepts the last save holds exactly the end of the range, and what is then loaded is that end |
| DownloadEnds.StoppedForAReason | cmd/ct-fetch/ct-fetch.go:415-487 | a run stops with the outcome of the moment that stopped it: its end, a signal while an entry waits, or a failed request that is not a 429 |
| DownloadEnds.RetriesAndTicksDoNotMatter | cmd/ct-fetch/ct-fetch.go:425-480 | 429s and save ticks, however many, change nothing of what a run handles and how it ends |
| DownloadEnds.SavesExactly | cmd/ct-fetch/ct-fetch.go:466-474 | a save happens exactly at a tick while an entry waits and at the end of the run, and saves the position then |
| DownloadEnds.AnswerIsUsedUp | cmd/ct-fetch/ct-fetch.go:446-484 | every leaf of an answer is used before the next request |
| DownloadEnds.ResumedRunHandlesFrom | cmd/ct-fetch/ct-fetch.go:288-300 | a run begins at the offset if there is one, wherever the stores are, and else at what they give, and handles each index from there once |
| DownloadEnds.CleanRunCoversTheTree | cmd/ct-fetch/ct-fetch.go:288-369 | without limit and offset a clean run from any sound state leaves every index of the tree dealt with, and the next run with the same tree has nothing to do |
| Checkpoints.ACrashOnlyEndsTheRun | cmd/ct-fetch/ct-fetch.go:282-300 | a crash keeps what is stored and handled, and the next run begins where the stores say |
| Download.RunHandlesEachIndexOnce | cmd/ct-fetch/ct-fetch.go:415-487 | in any run the handled indices are start, start+1, ... up to the final index, each once; no checkpoint passes it; a signal leaves the pending index unsent and unsaved |
| Download.SentIsIncreasing | cmd/ct-fetch/ct-fetch.go:475-483 | what reaches the channel is exactly the handled leaves that were good, at strictly increasing indices |
| Download.RunDeliversTheLog | cmd/ct-fetch/ct-fetch.go:446-483 | against a truthful log each index got the verdict of its own leaf, good leaves with their own contents, retries and short answers notwithstanding |
| Download.CleanRunReachesEnd | cmd/ct-fetch/ct-fetch.go:345-369 | with answers within the request, a run that ends cleanly has handled exactly [start, end), or nothing when the start lies beyond the end |
| Download.RequestsStayInRange | cmd/ct-fetch/ct-fetch.go:415-424 | every range ever requested lies in [start, end) and spans at most 1000 |
| Download.DownloadTerminates | cmd/ct-fetch/ct-fetch.go:416-485 | with non-empty answers, finitely many 429s and a channel that is accepted from in the end, the nested loops stop |
| Download.NextDescent | cmd/ct-fetch/ct-fetch.go:446-484 | from any unfinished state the run comes closer to its end, whatever ticks arrive |
| LogWorker.LogWorker.SaveState | cmd/ct-fetch/ct-fetch.go:371-392 | records the index in `MaxEntry` and in each store that accepts it, and changes nothing if it overflows an int64 |
| LogWorker.LogWorker.Offer | cmd/ct-fetch/ct-fetch.go:466-480 | the select loop puts the entry on the channel once, or stops at a signal without it, saving on every tick; refines the machine |
| LogWorker.LogWorker.DeliverLeaves | cmd/ct-fetch/ct-fetch.go:446-484 | the loop over one answer refines the machine |
| LogWorker.LogWorker.DownloadRange | cmd/ct-fetch/ct-fetch.go:398-488 | stores, `MaxEntry`, channel and returned index are those of the machine, for every environment |
| LogWorker.LogWorker.Run | cmd/ct-fetch/ct-fetch.go:345-369 | so are they after the final save, or when there was nothing to do |
| Engine.BacklogIsBounded | cmd/ct-fetch/ct-fetch.go:132-145 | in every reachable state and with any offset, at most 16384 + NumThreads entries over all logs were sent and are unfinished |
| Engine.CrashLosesAtMostTheChannel | cmd/ct-fetch/ct-fetch.go:132-145 | without an offset, at most so many indices are below a checkpoint although nobody dealt with them |
| Engine.ReachableSound | cmd/ct-fetch/ct-fetch.go:288-300 | without an offset, the checkpoints of all logs stay sound whatever other logs, threads and the shutdown do |
| Engine.AtRiskIsInFlight | cmd/ct-fetch/ct-fetch.go:466-483 | each such index sits in the channel or in a thread's hands |
| Engine.UnfinishedIsBounded | cmd/ct-fetch/ct-fetch.go:191-245 | sent and unfinished entries fit the channel plus one a thread |
| Engine.ShutdownDrains | cmd/ct-fetch/ct-fetch.go:610-619 | no send meets a closed channel, on which all downloaders have gone; once the channel is closed and no thread is counted, every entry was received by exactly one thread and finished, if and only if a thread had registered or nothing was sent |
| EngineProgress.EveryStateCanShutDown | cmd/ct-fetch/ct-fetch.go:610-619 | from every reachable state a program with threads can come to its end, with everything that was sent received and finished |
| EngineProgress.EverySentCanBeFinished | cmd/ct-fetch/ct-fetch.go:191-245 | in every reachable state any entry on the channel can come to be finished |
| EngineProgress.NextLeafGetsThrough | cmd/ct-fetch/ct-fetch.go:415-485 | in every reachable state a log whose downloader has not gone can have its next leaf fetched at the saved position, sent and finished |
| EngineProgress.OfferBlocksExactlyWhenFull | cmd/ct-fetch/ct-fetch.go:132 | a send blocks exactly when 16384 entries are on the channel |
| EngineProgress.ClosedComesToAnEnd | cmd/ct-fetch/ct-fetch.go:618-619 | with the channel closed and a thread registered, the threads can all return, having drained it |
| Engine.ReachableInv | cmd/ct-fetch/ct-fetch.go:521-620 | in every reachable state the channel holds exactly what downloaders sent, and the counters of both wait groups are right |
| Election.TwoLeadersMeanTheKeyLapsed | coordinator/coordinator.go:56-63 | with no assumption on timing, one lifetime of the key elects at most one leader, and two leaders of a name mean the key ran out between the Gets that elected them |
| Election.ReachableLifeInv | storage/rediscache.go:171-178 | lifetimes of a key never overlap, and whoever was elected or turned away saw the lifetime it recorded |
| Election.ReleasedOnlyByItsLeader | coordinator/coordinator.go:87-138 | a follower is released only after a start posted by the leader of its own name whose identifier it holds; the mismatch abort is unreachable |
| Election.DeadKeysStayDead | storage/rediscache.go:171-178 | a key that has run out comes back only by a SetNX, with the value of the process that makes it |
| Election.FollowedProc | coordinator/coordinator.go:57-63 | a follower holds the identifier of another process of its name |
| Election.KeysAreApart | coordinator/coordinator.go:17-18 | leader and started keys never collide, and each determines its suffix |
| Leadership.ExactlyOneLeader | coordinator/coordinator.go:44-85 | with distinct identifiers, no failures and timely renewals, under any interleaving of the two-step `TrySet`: the leader key never lapses, a name has at most one leader, it has one once all claims are decided, and all others hold its identifier |
| Leadership.ReachableTimelyInv | coordinator/coordinator.go:71-80 | every process has not claimed yet, or owns the live key, or stands behind the one that does |
| Leadership.SecondLeaderExactlyWhenLate | coordinator/coordinator.go:56-80 | from every state the protocol can be in and for every pause, another process of a leader's name that then joins becomes leader if and only if the leader's last renewal has run out; otherwise it follows; the first leads on in either case; others may do anything between the joiner's SetNX and Get while the key lives |
| Leadership.JoinerLearns | storage/rediscache.go:171-178 | what a joiner learns, whatever others do between its two steps while the key lives |
| Leadership.LiveKeyKeepsValue | storage/rediscache.go:171-178 | no act changes what a key holds as long as it lives |
| Leadership.SecondLeaderInRunExactlyWhenLate | coordinator/coordinator.go:56-80 | so it is after every orderly run from the start |
| Leadership.ClaimTakesExactlyAnUnheldKey | storage/rediscache.go:171-178 | a claim leaves a live key alone and otherwise fills it with the claimant |
| Leadership.LateRenewalElectsTwo | coordinator/coordinator.go:71-80 | an instance of the above, reached from the start, with two leaders |
| Coordinator.RedisCache.TrySet | storage/rediscache.go:171-178 | SetNX and then Get, with any acts of others in between: the store and the value returned are the machine's |
| Coordinator.Coordinator.AwaitLeader | coordinator/coordinator.go:44-85 | succeeds exactly if no call fails and the leader key is live at the Get; `identifier` is then what the key holds, and `isLeader` says whether that is its own; all agrees with the machine |
| Coordinator.Coordinator.SendStart | coordinator/coordinator.go:108-138 | refuses without touching the store unless this process leads; otherwise succeeds exactly if no call fails and its own identifier is read back, and never aborts from a reachable state |
| Coordinator.Coordinator.AwaitStart | coordinator/coordinator.go:87-106 | refuses leaders and the undecided; a follower is released exactly at the first round whose Exists succeeds while its leader's started key is live, and refused exactly if an Exists fails before that |
| StartBarrier.StartReleasesFollowers | coordinator/coordinator.go:87-138 | from every reachable state: once a leader's start is posted and confirmed, every poll of a process that follows it succeeds as long as the start's renewals keep up, whatever anyone does in between |
| StartBarrier.OrderlyFollowersAreLed | coordinator/coordinator.go:57-63 | after an orderly election these are all followers of the leader's name |
| StartBarrier.RenewalsKeepTheStart | coordinator/coordinator.go:125-134 | a started key that is renewed in time stays live, until exactly the time to live set last; no one else touches it |
| StartBarrier.SendStartSucceeds | coordinator/coordinator.go:116-137 | both steps of an undisturbed `SendStart` leave the start posted and live for the initial time to live |
| Coordinator.NeverAborts | coordinator/coordinator.go:121-123 | the fatal mismatch is unreachable |
| StoreProtocol.EachCertIsWrittenOnce | storage/filesystemdatabase.go:158-211 | until the bucket's set runs out, under any interleaving and failures: at most one `Store` is told unknown, the PEM is written at most once, a written PEM has its serial in the remote set, and exactly once if nothing failed and no reply was lost |
| StoreProtocol.NothingRunsOutEarly | storage/types.go:371-373 | no set runs out before its date, nor ever without an expiry |
| StoreProtocol.PemIsMissingExactly | storage/filesystemdatabase.go:179-201 | when all its Stores have returned or died, a certificate's PEM is missing if and only if the Store told unknown failed or died before it had written, or the insert that took effect was not heard of, or no insert took effect; otherwise it was written exactly once |
| StoreProtocol.AFailedWriteIsNeverRetried | storage/filesystemdatabase.go:179-201 | once the Store whose insert took effect has returned without writing, then after any further acts before the set runs out the PEM is not written and no other Store is told unknown |
| StoreProtocol.AnInsertCanGoUnheard | storage/rediscache.go:22-29 | both ways in which an insert takes effect and its Store does not learn so, from the start; in one the Store succeeds without writing |
| StoreProtocol.ReachableInv | storage/knowncertificates.go:38-55 | the invariant behind these, over all buckets, jobs and times |
| StoreProtocol.AfterExpiryItIsNewAgain | storage/types.go:371-373 | from the bucket's date on, in every state, a Store is told unknown if and only if no set without an expiry holds its serial |
| StoreProtocol.AfterExpiryItIsWrittenAgain | storage/filesystemdatabase.go:179-201 | from every state in which the bucket's set has run out, a Store that is undisturbed itself writes the PEM, whatever other Stores do in between and whether or not there is one |
| StoreProtocol.ToldUnknownWrites | storage/filesystemdatabase.go:184-202 | a Store told unknown has written after four more steps of its own, and not before, whatever others do |
| StoreProtocol.TwoPemsAfterExpiry | storage/filesystemdatabase.go:179-201 | an instance from the start with two PEMs of one certificate |
| Pipeline.EveryLeafIsStoredOnce | cmd/ct-fetch/ct-fetch.go:191-245 | end to end, after a shutdown: a certificate at any index below any checkpoint that was not dealt with before the process began has exactly one PEM, or none if and only if its write was lost in one of those ways by a Store of this or an earlier process; remote cache, backend and logs may hold whatever earlier processes left |
| Pipeline.EveryPemIsFromALog | cmd/ct-fetch/ct-fetch.go:191-245 | every PEM that was not there when the process began is of a certificate that some log holds |
| Pipeline.ProcessesSucceed | cmd/ct-fetch/ct-fetch.go:282-300 | however and whenever a process ends, what it leaves is a state in which the next one can begin, so these results hold of every process in a succession |
| PipelineProgress.EveryStateCanShutDown | cmd/ct-fetch/ct-fetch.go:610-619 | from every reachable state, whatever its Stores are at and whatever has failed, the program can be shut down with everything finished |
| PipelineProgress.NextLeafGetsThrough | cmd/ct-fetch/ct-fetch.go:191-245 | and the next leaf of a log can be taken in, with its Store called and returned |
| Pipeline.ReachableInv | cmd/ct-fetch/ct-fetch.go:180-245 | every entry taken off the channel that holds a certificate has its own call of `Store`, which has returned when the thread is done with it |
| StoreBuckets.BucketIsUnlistedExactly | storage/filesystemdatabase.go:184-195 | when all Stores of a bucket have returned or died, it is not allocated if and only if each one that found its date unmarked failed or died before allocating it; a bucket with a PEM has such a Store |
| StoreBuckets.APemWithoutABucket | storage/issuermetadata.go:100-125 | an instance from the start with a PEM whose bucket is never allocated |
| AccumulateDates.SeenExactlyIfMarked | storage/issuermetadata.go:93-108 | a call is told that its date was seen exactly if some call on its object found the date unmarked and has marked it, which every earlier call that has returned implies |
| AccumulateProtocol.LocksAreDisciplined | storage/issuermetadata.go:92-138 | for any distribution points, interleaving and failing inserts: maps are written only by the lone holder of the write lock, no call asks for a lock while holding one or returns with one, and some call can always move even if waiting writers come before new readers |
| AccumulateProtocol.ReachableLockInv | storage/issuermetadata.go:95-137 | the mutex records exactly what each call holds |
| AccumulateProtocol.SomeoneCanMove | storage/issuermetadata.go:110-128 | as long as a call has not returned, some call is not blocked, even if waiting writers come before new readers |
| AccumulateResults.RemoteSetsAreComplete | storage/issuermetadata.go:48-138 | once all calls have returned without error, the remote sets are those of inserting every http(s) distribution point and issuer name each time, under any interleaving; whatever fails, nothing else is ever added |
| AccumulateResults.MissingMeansAFailure | storage/issuermetadata.go:110-137 | once all calls have returned, an entry that was asked for can be missing only if some call for its issuer returned an error |
| AccumulateFailures.RecordedLaterExactlyWhenHope | storage/issuermetadata.go:92-138 | after any run from the start, a URL or name that is not recorded can still come to be recorded if and only if some call is on its way to insert it, or will look for it in an object without its mark |
| AccumulateFailures.AFailedInsertIsRepairedExactly | storage/issuermetadata.go:117-137 | when an insert fails, its entry can still come to be recorded if and only if another call has such hope |
| AccumulateFailures.AFailedInsertIsNeverRepaired | storage/issuermetadata.go:117-137 | without that, no call under way or still to come ever records it, in any continuation |
| AccumulateFailures.HopeIsEnough | storage/issuermetadata.go:95-137 | where there is hope, a schedule that never blocks comes to the insert in finitely many steps |
| AccumulateFailures.HopeAtStart | storage/issuermetadata.go:110-137 | at the start there is hope of exactly the URLs and names that some call asks for |
| RepairInstance.OnlyAnotherSpellingRepairs | storage/issuermetadata.go:48-49 | from the start, after a first call has failed: a second one can still record the URL if and only if it spells it differently |
| AccumulateResults.ReachableInv | storage/filesystemdatabase.go:40-57 | a marked entry is in the remote set, on its way there, or a call on its object failed, however many objects one issuer has |
| LocalMaps.StoresAsIfAsking | storage/issuermetadata.go:92-138 | any sequence of stores leaves the remote sets as stores that keep nothing locally and insert every time would |
| LocalMaps.AccumulatesAsIfAsking | storage/issuermetadata.go:95-137 | one `Accumulate` does so from any maps whose marks are in the remote sets, and keeps them so |
| LocalMaps.AskedIsExact | storage/issuermetadata.go:48-87 | inserting every time adds exactly the URLs of the http(s) distribution points and the issuer name |
| DatabaseSpec.StoresKeepBackendAndCacheInStep | storage/filesystemdatabase.go:158-211 | after any sequence of stores each bucket was allocated before its first PEM, and remote sets, serial lists, PEMs and issuer lists agree, sorted or without repeats |
| DatabaseSpec.StoreKeepsDbInv | storage/filesystemdatabase.go:179-202 | one store keeps all of that in every bucket |
| DatabaseResults.EveryPemIsTheFirst | storage/filesystemdatabase.go:184-202 | after any sequence of stores there is a PEM under exactly the keys of its certificates, and it is the one that the first store under its key brought |
| DatabaseResults.SameKeys | storage/mockbackend.go:52 | PEM keys are equal exactly for certificates of one bucket and one serial |
| DatabaseResults.AccumulateMarksAndSpares | storage/issuermetadata.go:92-138 | `Accumulate` marks exactly the date, the name and the distribution points of the certificate, and repeated asks the remote cache nothing |
| DatabaseResults.SerialKeysAreScanned | storage/filesystemdatabase.go:63 | the scan for "serials::*" finds serial keys and none of the issuers' sets |
| DatabaseSpec.IssuerListIsExact | storage/mockbackend.go:30-48 | a date's issuer list is sorted, duplicate-free and exactly the issuers with a stored PEM |
| Database.FilesystemDatabase.Store | storage/filesystemdatabase.go:158-211 | remote sets, local maps and backend are the specification's, and the bucket's key expires at the start of its hour unless its object had set that and was not evicted |
| Database.FilesystemDatabase.GetKnownCertificates | storage/filesystemdatabase.go:213-240 | the cached object under the local key or a new one, under any eviction; it is the requested bucket's whenever issuer IDs have one length or dates one resolution |
| Database.FilesystemDatabase.GetIssuerMetadata | storage/filesystemdatabase.go:40-57 | the issuer's object, made empty on first request |
| Database.IssuerMetadata.Accumulate | storage/issuermetadata.go:92-138 | new remote sets and local maps are the specification's; says whether the date was seen |
| Database.MockBackend.AllocateExpDateAndIssuer | storage/mockbackend.go:30-48 | the binary search and insert put the issuer into its date's sorted list once |
| Database.MockBackend.StoreCertificatePEM | storage/mockbackend.go:50-59 | the PEM under its key, the serial at the end of its bucket's list |
| Database.GetIssuerAndDatesFromCache | storage/filesystemdatabase.go:59-100 | an error exactly when a key is malformed, otherwise exactly the issuers and dates of the keys |
| Database.ScanYieldsExactlyTheBuckets | storage/filesystemdatabase.go:69-93 | serial keys in any order with any repeats are read without error if and only if no issuer ID holds "::", and then give exactly their buckets |
| KnownCertificates.KnownCertificates.WasUnknown | storage/knowncertificates.go:38-55 | true exactly for a serial not in the remote set, which then holds it; the first call sets the expiry, no later one does |
| KnownCertificates.KnownCertificates.Known | storage/knowncertificates.go:65-96 | every serial of the set once, however often the scan repeats it, so as many as `Count` |
| KnownCertificates.KnownCertificates.Count | storage/knowncertificates.go:57-63 | the size of the bucket's set |
| KnownCertificates.SerialsAreFaithful | storage/types.go:205-220 | distinct binary strings are distinct serials and none is lost |
| MockCache.MockRemoteCache.SetInsert | storage/mockcache.go:38-61 | true exactly for a new entry; the slice becomes the sorted set with it |
| MockCache.MockRemoteCache.SetContains | storage/mockcache.go:84-102 | true exactly for a member of what the sweep leaves |
| MockCache.MockRemoteCache.SetCardinality | storage/mockcache.go:120-122 | the number of distinct entries |
| MockCache.MockRemoteCache.SetToChan | storage/mockcache.go:109-118 | the entries, `Duplicate` + 1 times |
| MockCache.MockRemoteCache.CleanupExpiry | storage/mockcache.go:28-36 | drops exactly the keys that are due, with their times |
| MockCache.MockRemoteCache.TrySet | storage/mockcache.go:168-176 | the value already there, or sets the given one |
| SortedSlices.LessIsLexicographic | storage/mockcache.go:41-43 | the order of slices is lexicographic, smaller characters and shorter texts first |
| SortedSlices.Search | storage/mockcache.go:41-43 | the binary search finds the lower bound in a sorted slice |
| SortedSlices.InsertedAtBound | storage/mockcache.go:50-60 | inserting at the lower bound is ordered insertion, and membership is decided there |
| SortedSlices.InsertedIsSet | storage/mockcache.go:55-60 | insertion keeps the slice sorted and duplicate-free and adds exactly the entry |
| SortedSlices.InsertionsSortAndDeduplicate | storage/mockcache.go:38-61 | any list of insertions leaves its distinct entries in order |
| SortedSlices.SortedSize | storage/mockcache.go:120-122 | a sorted slice is as long as its set is large |
| Identifiers.UniqueRecoversExactly | storage/types.go:279-306 | printing then parsing recovers date, resolution, issuer and serial if and only if the issuer ID has no "::" and does not end in ':' |
| Identifiers.DigestIssuersAlwaysRecover | storage/types.go:124-159 | identifiers with digest issuers always come back |
| Identifiers.IssuerAndDateRecoversExactly | storage/types.go:313-331 | an `IssuerAndDate` comes back if and only if the issuer ID has no '/'; otherwise there is an error |
| Identifiers.DateFromTimeRoundTrip | storage/types.go:339-384 | the ID of a date made from a time parses to the same hour, resolution and ID, with `lastGood` one hour later; the one has expired at that time and the other has not |
| Identifiers.PrintUndoesParse | storage/types.go:348-384 | any text that parses gives a date that printing and parsing leave as it is |
| Identifiers.DateIdIsInjective | storage/types.go:379-384 | IDs are equal exactly for the same date and resolution; no day ID is an hour ID |
| Identifiers.SerialKeyIsReadExactly | storage/knowncertificates.go:28-34 | a serial key is read back as its bucket if and only if the issuer ID has no "::" |
| Identifiers.PartsInOrder | storage/types.go:304-331 | the parts of the composite texts, and their order |
| Identifiers.LocalKeyIsInjective | storage/filesystemdatabase.go:217 | separator-free local keys are equal exactly for equal buckets, for issuer IDs of one length or dates of one resolution |
| Identifiers.LocalKeyCollidesExactly | storage/filesystemdatabase.go:217 | between a day and an hour they collide exactly when the day's issuer ID begins with the hour |
| Text.SplitThenJoin | storage/types.go:280 | joining what splitting gives restores the text |
| Text.PartsHoldNone | storage/types.go:280 | no part of a split holds the separator |
| Text.SplitAfter | storage/types.go:280 | leftmost splitting gives back a head exactly when the separator does not begin inside it |
| Text.CleanForColons | storage/types.go:280 | for "::" that is when the head neither holds it nor ends in ':' |
| Base64.DecodeUndoesEncode | storage/types.go:197-212 | the padded base64url round trip of section 5 of RFC 4648, for every byte string |
| Base64.EncodedForm | storage/types.go:155-159 | length and alphabet of an encoding, 44 characters for a digest |
| Base64.SymbolsAreTheAlphabet | storage/types.go:155-159 | the symbols are the URL-safe alphabet in its order |
| Base64.GroupIsItsNumber | storage/types.go:155-159 | four symbols write the number of three bytes |
| Base64.LastGroupIsItsNumber | storage/types.go:155-159 | the one or two bytes left over, zero bits and padding |
| Base64.DecodesExactly | storage/types.go:197-203 | exactly the well padded texts over the alphabet decode |
| Base64.BreaksAreIgnored | storage/types.go:197-203 | line breaks do not matter, wherever they are |
| Calendar.DateOfDayNumber | storage/types.go:339-346 | days and valid dates correspond one to one |
| Gregorian.YearsAreCounted | storage/types.go:339-346 | the days before a year are those of the closed Gregorian formula |
| Gregorian.MonthsAreCounted | storage/types.go:339-346 | and those before a month, with a closed formula for ordinary and leap years |
| Gregorian.InstantIsShown | storage/types.go:339-384 | the ID printed for an instant shows, in year, month, day and hour, the day by these formulas and the hour that hold it |
| Gregorian.ParsesExactly | storage/types.go:348-365 | exactly the texts that show an existing day, or one and an hour below 24 in one digit or two, parse, and give the start of it |
| Gregorian.DaysOfMonths | storage/types.go:348-365 | a text of the right shape is a day exactly if its month has that day |
| Calendar.ParseUndoesFormatDay | storage/types.go:348-384 | a printed day parses to the start of its day |
| Calendar.ParseUndoesFormatHour | storage/types.go:348-384 | a printed hour parses to itself |

## Left out

- The HTTP client, progress bars, health endpoint, metrics and logging: I/O and display.
- Option parsing and wiring in `config` and `engine`: offset, limit and the number of threads are parameters.
- X.509, ASN.1, PEM, JSON, SHA-256 and URL parsing: a leaf carries its verdict, a digest is any 32 bytes, and CRL URLs go through an arbitrary partial normaliser.
- `certIsFilteredOut`, parsing and the look for an issuer in a database thread: an arbitrary function says which certificate, if any, an entry yields. Panics in a thread are not modelled.
- `LastEntryTime` and `LastUpdateTime` of a log state: they take no part in any decision.
- Registration of a thread happens inside its goroutine; that one has registered is a condition of `Engine.ShutdownDrains`.
- Redis itself: set insert, SetNX, Get, Exists and expire are atomic steps that may fail. The client's own repetition of a request is modelled where its answer matters, in `StoreProtocol`; `TrySet` discards the answer of SetNX, so repeating it while the key lives changes nothing, and one repeated after the key has run out is not modelled. Eviction under memory pressure is not modelled either.
- The renewal loops of a coordinator as loops: each renewal is an act that may happen at any time. Hostname and random source: the identifier is a parameter.
- A second `AwaitLeader` call of one coordinator.
- The metadata mutex of `FilesystemDatabase` is taken within one step; the mutex of `IssuerMetadata` is modelled lock by lock. Its runs do not impose the priority of waiting writers, so they include all of Go's.
- The `expirySet` flag and the ARC cache in concurrent stores: whether a store sets the expiry, and what the local cache still holds, is any choice.
- Iteration order of Go maps: lists built from maps have some order.
- `SetRemove`, queues and lists, listing functions, `localdisk` and `noop` backends: no claim is made.
- Expiry in the mock's `SetInsert` and `TrySet`: they do not sweep, and neither does the model; timed properties use the Redis steps.
- JSON forms and the sort helpers of serials and dates, and the caching of `Issuer.ID` in a field.
- Times of finer grain than a millisecond, other zones than UTC, and years beyond 9999.
- Pipeline.EveryLeafIsStoredOnce: covers entries dealt with by the process itself; those that an earlier process had sent but not finished when it ended are bounded by `Engine.CrashLosesAtMostTheChannel`.
- Database.FilesystemDatabase.Store: on this in-place form no call fails and calls do not interleave; failures and interleaving are in `StoreProtocol` and `AccumulateProtocol`.
- A backend write that reports an error is taken to have had no effect.
- Leadership.SecondLeaderExactlyWhenLate: says nothing of a joiner whose key runs out between its two steps; it may then fail or follow a third process.
- Election.TwoLeadersMeanTheKeyLapsed: the end of a lifetime is the time to live in force, as Redis keeps it; a store that forgets a key early would be another lapse.
- StoreProtocol.EachCertIsWrittenOnce: nothing is claimed once the bucket's set has run out, where it is false.
