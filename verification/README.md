# Verified models of a code-knowledge assistant

The repository keeps an index of a code base, a bundle of reviewed knowledge documents, and services that search,
rank, embed and pack both for an assistant. These modules model its protocols and algorithms and prove what they
promise. `dafny verify dfyconfig.toml` checks all of them.

- **Decisions on proposals** (`DecisionTypes`, `DecisionModel`, `DecisionRecovery`, `DecisionAtomicity`,
  `DecisionRuns`, `DecisionTearing`, `DecisionExample`, `ReviewInbox`, `OwnedBlock`, `Utf8`). Accepting a proposal
  writes three canonical files, a record and a journal, one atomic write at a time. A script decides the fate of every
  write: installed, refused with an error, or the process ends there; a script that runs out ends the process, so a
  run can stop after any write. `DecisionModel` states each operation as a function from disk and script to disk and
  outcome; the class `ReviewInbox.Inbox` performs it write by write and is proved equal to that function; the other
  modules prove atomicity, exactly-once and restartable recovery of those functions over whole runs.
- **Graphs**: `IncludeGraph`, `CycleSearch`, `CycleReports` and `Cycles` (include cycles), `Crawl` (bounded
  breadth-first crawl), `UnionFind` (clusters), `Centrality` (page rank with dangling mass).
- **Derived data**: `Indexing`, `IndexRuns` and `Refresh` (incremental index against rebuild, over series of runs that
  may be cut short), `Embedding` (resumable passes), `SourceLines`, `Relocation`, `Anchors`, `AnchorRepair` (source
  anchors that move with the text).
- **Stream and freshness**: `StreamEvents`, `Stream` and `Subagents` (client output under budgets), `Freshness` (a
  dirty flag, a watcher and failing re-indexes).
- **Numbers and packing**: `TensorBytes`, `Quantize`, `StaticModel` (int8 models), `StableSort`, `Fusion` (rank fusion
  and recall), `Ranking`, `Packing` (budgeted context).

`Wrappers`, `Sequences` and `Strings` hold shared definitions. What the code calls and the model does not open is a
parameter: hashing, JSON and YAML, embedding, extraction, the network, the clock, and the outcome of every fallible
step. Every theorem is for all values of these parameters; where one needs a law of a parameter, its `requires` says so, of
the values met: that the hash tells the texts compared apart, that the header written can be read back.

Some promises do not hold on every input; what does hold is proved instead:

- An accept is atomic if and only if its target is not the index or the log being rewritten with its own bytes
  (`DecisionTearing.AtomicExactlyWhenNotTorn`; `DecisionExample.TornAcceptExists` is a concrete case). In that case,
  too, it is decided at most once, the log grows by at most one line, and the files end all original or all written.
- Regenerating the owned index block twice equals doing it once if and only if the file has no start marker without an
  end marker behind it and no line of the first listing holds an end marker (`OwnedBlock.ReplacingTwiceIsOnce`;
  `OwnedBlock.LoneStartFails` and `OwnedBlock.EndMarkerTitleFails` are concrete cases).
- The token total of a stream never falls if and only if no object reports an added usage with a negative total under
  no key or under a new one (`Stream.TotalNeverFallsExactly`; `Stream.RefundStream` is a concrete case).
- When tool calls and announcements carry identifiers, each subagent is counted once if and only if none is announced
  by an event before the tool call that starts it (`Subagents.SubagentsCountedOnce`; `Subagents.AnnouncedThenStarted`
  is a concrete case).
- A run that goes by the hashes of a run of its own build that was cut short can complete with rows that are not
  current (`IndexRuns.CutResetIsKept`, `IndexRuns.HalfWrittenIsKept`; `IndexRuns.CutResetFails` is a concrete case).
  Its outcome is right if and only if no row misleads about a text it finds (`IndexRuns.ResumedRunIsRebuild`). A
  refresh is not concerned, for it indexes into a generation that an interruption discards; the documentation store,
  which `reindex` in internal/docs/ingest.go keeps across direct runs, is.
- The reported include cycles cut every cycle if and only if no two different recorded cycles share a key, as they
  cannot when no file name holds the separator of the keys (`CycleReports.ReportsCutExactly`,
  `CycleReports.PlainKeysTellApart`; `CycleReports.TwoPairsStayCyclic` is a concrete case).
- A rejection is final if and only if the time it stored can be parsed back (`DecisionRuns.RejectedIsFinal`;
  `DecisionExample.LateRejectionIsNotFinal` is a concrete case).
- An interrupted recovery, made again, replies what it would have if and only if no file is taken for foreign that
  holds a result of the same path from another position (`DecisionRecovery.RecoveryRepliesAlike`); after a torn accept
  one is (`DecisionTearing.TornIsCrossed`). The disk it leaves is the same in every case.

An incremental index equals a rebuild if and only if no path that is detected without an extractor has an old row
(`Indexing.IncrementalIsRebuild`). The repository registers a generic extractor, so there is no such path and the promise
holds for it (`IndexRuns.SeriesOfExtractingBuilds`).

## Model

| member | source | states |
|---|---|---|
| DecisionRuns.CrashAtomicity | internal/knowledge/proposal.go:184-230 | After any run of decisions on one open proposal, each cut off after any write, a recovery that clears the journal leaves the three files original with the proposal still proposed, or all written with the proposal accepted and audited, or original with the proposal rejected; only where the target is the torn one (next rows) can it leave them original under an accepted record, and elsewhere the files of an accepted proposal are at their results; an undisturbed recovery always gets there |
| DecisionRuns.EndedFiles | internal/knowledge/proposal.go:184-230 | Wherever a decision has ended, torn targets included, the files are those before it or those its three writes leave, never a mixture |
| DecisionRuns.EndedIsSettled | internal/knowledge/proposal.go:184-230 | Unless the target is the torn one, a decision that has ended left the files original with a proposed or rejected record, or at their results with an accepted one |
| DecisionTearing.AtomicExactlyWhenNotTorn | internal/knowledge/proposal.go:184-230 | For every accept that succeeds undisturbed: all interruptions and recoveries of it are atomic if and only if the target is not the index or the log being rewritten with its own bytes |
| DecisionTearing.TornRecovery | internal/knowledge/decision_transaction.go:126-178 | In that one case a kill before the journal is removed, then a recovery, gives original files under an accepted record |
| DecisionTearing.DecideReachesInterrupted | internal/knowledge/proposal.go:184-230 | Every accept that succeeds undisturbed passes through the disk from which that recovery starts |
| DecisionExample.TornAcceptExists | internal/knowledge/proposal.go:184-230 | A concrete world whose codec writes a frontmatter block before every body, a disk and a request for which the tearing happens |
| DecisionRuns.TornIffTarget | internal/knowledge/proposal.go:151-190 | The transaction planned for a proposal can tear exactly when the check a caller can make before the call says so |
| DecisionRuns.RunStays | internal/knowledge/decision.go:115-200 | Every disk at every instant of every run, whatever the target, is one of six phases: open, in flight, recorded, accepted, rejected, or a torn accept undone under its record |
| DecisionRuns.RecoveryClears | internal/knowledge/decision_transaction.go:126-178 | From every phase an undisturbed recovery removes the journal |
| DecisionRuns.AuditStays | internal/knowledge/decision.go:115-200 | Once an audit is stored, the record never changes again, whatever the target; without a journal nothing does; and unless the target is the torn one nothing but the journal does |
| DecisionRuns.RecordStaysForever | internal/knowledge/decision.go:115-200 | Over any run from any disk, about any proposals, a record that carries an audit is never replaced |
| DecisionRuns.DecidedOnce | internal/knowledge/decision.go:115-200 | At most one decision is ever stored, whatever the target: every point after one that carries an audit carries the same record, and the same files too if no journal was left or the target is not the torn one |
| DecisionRuns.LogGrowsAtMostOnce | internal/knowledge/decision_transaction.go:67-124 | At every point of every run, torn targets included, the log is the original or the original with one accepted line; only where a different document is being written over the log itself, that is so at every point with no journal |
| DecisionRuns.AcceptedIsFinal | internal/knowledge/decision.go:218-236 | An accepted disk passes the check of its stored audit, its files undone or not |
| DecisionRuns.RejectedIsFinal | internal/knowledge/decision.go:218-236 | A rejected disk passes the check of its stored audit if and only if the time stored there can be parsed back |
| DecisionExample.LateRejectionIsNotFinal | internal/knowledge/decision.go:218-236 | A concrete rejection with a time that cannot: it is stored and reported, and the same request is refused ever after for its own audit |
| DecisionRuns.FinalForever | internal/knowledge/decision.go:115-200 | On a decided proposal every request is answered without a write: the identical request with the stored audit, another key with a version conflict, the same key with an idempotency conflict, an invalid one with its own error |
| DecisionRuns.SuccessIsFinal | internal/knowledge/decision.go:115-200 | After a decision that returned success with a time that can be parsed back, whatever the target, the same request returns the same audit for ever, whatever the fate of the process, and writes nothing |
| DecisionAtomicity.LogResultDiffers | internal/knowledge/decision_transaction.go:67-124 | The planned result of the log always differs from the log it was planned on, which is what lets recovery tell the two ends of an accept apart |
| DecisionAtomicity.WrittenAtResults | internal/knowledge/decision_transaction.go:222-247 | Three checked writes leave every file at its result exactly when the transaction is not torn |
| DecisionAtomicity.PlannedAtResults | internal/knowledge/decision_transaction.go:126-178 | Files at the results of a plan are those its writes leave, and the plan is not torn |
| DecisionAtomicity.RecoverTorn | internal/knowledge/decision_transaction.go:126-178 | A torn accept is rolled back under its record, entirely or with the journal still there, and never carried forward |
| DecisionAtomicity.WriteTargetEffect | internal/knowledge/proposal.go:184-230 | Everything after the journal is written, under every fate of its writes, ends in one of the phases, and success ends accepted |
| DecisionAtomicity.AbortEffect | internal/knowledge/proposal.go:191-203 | The rollback inside accept, itself cut off anywhere, leaves the transaction in flight or undone entirely |
| DecisionAtomicity.CommitEffect | internal/knowledge/proposal.go:217-230 | Storing the stage and the record and removing the journal, cut off anywhere, leaves the transaction in flight, recorded, or accepted |
| DecisionAtomicity.RecoverSettles | internal/knowledge/decision_transaction.go:126-178 | Recovery from every phase and under every fate stays among the phases, has ended the decision once the journal is gone, succeeds only then, and never replaces a record that carries an audit |
| DecisionRecovery.RestoreEffect | internal/knowledge/decision_transaction.go:180-220 | A rollback over arbitrary files, cut off anywhere: each file is as it was or at its goal, and a completed one reports a foreign file exactly when there is one |
| DecisionRecovery.RestoreCompletes | internal/knowledge/decision_transaction.go:180-220 | A rollback whose writes all succeed completes |
| DecisionRecovery.RecoveryKeepsForeignEdits | internal/knowledge/decision_transaction.go:126-220 | A file that is neither original nor result is never changed by a recovery, and no recovery succeeds while it must roll back over it |
| DecisionRecovery.RecoveryReportsForeignEdits | internal/knowledge/decision_transaction.go:126-178 | An undisturbed recovery reports a version conflict exactly when it must roll back over a foreign file or a changed candidate |
| DecisionRecovery.RecoveryRestarts | internal/knowledge/decision_transaction.go:126-178 | A recovery cut off anywhere, then an undisturbed one, ends as one undisturbed recovery does |
| DecisionRecovery.RecoveryIsIdempotent | internal/knowledge/decision_transaction.go:126-178 | The same for any number of interrupted recoveries |
| DecisionRecovery.RecoveryRepliesAlike | internal/knowledge/decision_transaction.go:126-178 | However often a recovery is interrupted, as long as the journal is there an undisturbed one replies what the first would have, if and only if no file is taken for foreign that holds a result of the same path from another position |
| DecisionRecovery.CrossedTarget | internal/knowledge/decision_transaction.go:126-178 | Such a file is there only where the target is the index or the log itself |
| DecisionTearing.TornIsCrossed | internal/knowledge/decision_transaction.go:126-178 | It is there after every torn accept that was killed before its journal was removed |
| ReviewInbox.Inbox.PutBack | internal/knowledge/repository.go:467-505 | One atomic write of a snapshot: installed without an error, or refused with one and nothing changed, or the process ends |
| ReviewInbox.Inbox.WriteProposal | internal/knowledge/proposal.go:268-275 | The record is replaced, or unchanged with an error |
| ReviewInbox.Inbox.WriteDecisionTransaction | internal/knowledge/decision_transaction.go:261-278 | The journal is replaced, or unchanged with an error |
| ReviewInbox.Inbox.RemoveDecisionTransaction | internal/knowledge/decision_transaction.go:280-295 | The journal is removed, or unchanged with an error |
| ReviewInbox.Inbox.SnapshotBundleFiles | internal/knowledge/proposal.go:304-323 | The loop takes exactly the snapshots the specification takes, or fails where it does |
| ReviewInbox.Inbox.RestoreSnapshots | internal/knowledge/decision_transaction.go:180-220 | The loop over current, original and result snapshots is the specified rollback, whose effect is proved in DecisionRecovery |
| ReviewInbox.Inbox.RecoverDecisionTransaction | internal/knowledge/decision_transaction.go:126-178 | Recovery step by step is the specified recovery |
| ReviewInbox.Inbox.WriteCanonicalSnapshots | internal/knowledge/decision_transaction.go:222-247 | The comparing and writing loop is the specified one |
| ReviewInbox.Inbox.Undo | internal/knowledge/proposal.go:191-203 | The rollback closure is the specified abort |
| ReviewInbox.Inbox.Accept | internal/knowledge/proposal.go:151-231 | Accept as the sequence of its writes is the specified accept, whose runs are proved atomic |
| ReviewInbox.Inbox.Reject | internal/knowledge/proposal.go:233-248 | Reject as its write is the specified reject |
| ReviewInbox.Inbox.Settle | internal/knowledge/decision.go:138-200 | The decision under the lock, after recovery, is the specified one |
| ReviewInbox.Inbox.Decide | internal/knowledge/decision.go:115-200 | A whole request: validation, recovery, replay or decision, is the specified one, of which the theorems on runs speak |
| ReviewInbox.Inbox.DecideAtomically | internal/knowledge/decision.go:115-200 | The same request as it runs, on a proposal that was open: the disk stays in one of the phases, a stored audit is not touched, nor the files it speaks of unless the target is the torn one, and success means that a decision has ended that answers the request |
| Utf8.EncodedIsRead | internal/knowledge/decision.go:215-217 | A request field is read as UTF-8: every code point is read back from its bytes |
| Utf8.ReadIsEncoded | internal/knowledge/decision.go:215-217 | What is read is the shortest form of a code point that is no surrogate, so no field has two spellings |
| OwnedBlock.ReplacingTwiceIsOnce | internal/knowledge/repository.go:308-334 | Regenerating the listing twice equals regenerating it once if and only if no start marker stands in the file without an end marker behind it and no line of the first listing holds an end marker |
| OwnedBlock.GeneratedBlock | internal/knowledge/repository.go:308-334 | A generated block ends at its first end marker if and only if none of its lines brings one |
| OwnedBlock.ReplacingUndoes | internal/knowledge/repository.go:398-416 | The same for any two blocks that begin with the start marker, hold an end marker and end a line: the second undoes the first exactly when the file is balanced and the first has nothing behind its first end marker |
| OwnedBlock.EndMarkerTitleFails | internal/knowledge/repository.go:308-334 | In an empty file, a document whose title is the end marker makes the second regeneration differ |
| OwnedBlock.LoneStartFails | internal/knowledge/repository.go:398-416 | A file that is a lone start marker makes the second regeneration differ, even with no documents |
| OwnedBlock.StrayStartSwallows | internal/knowledge/repository.go:398-416 | Behind a stray start marker the second replacement deletes everything between that marker and the first end marker of the block the first one appended |
| OwnedBlock.ReplacesFramed | internal/knowledge/repository.go:398-416 | What stands before and behind the owned block is kept byte for byte, and so is what the block has behind its own first end marker |
| Cycles.CheckCycles | internal/doctor/doctor.go:226-284 | The findings report the recorded cycles, the first of each key; each is a closed walk of include edges through distinct files, at least two; there is a finding exactly when such a cycle exists; without the edges that close the reported cycles no cycle is left if and only if no two different recorded cycles share a key; the recursion ends on every graph |
| CycleReports.ReportsCutExactly | internal/doctor/doctor.go:269-283 | The reported cycles cut every cycle if and only if keys tell the recorded cycles apart |
| CycleReports.PlainKeysTellApart | internal/doctor/doctor.go:275-279 | They do when no file name holds the separator of the keys |
| CycleReports.TwoPairsStayCyclic | internal/doctor/doctor.go:269-283 | Two pairs of files that include each other share a key: only the first is reported, and without the edge that closes it the second is still a cycle |
| CycleReports.ReportedIffCyclic | internal/doctor/doctor.go:226-284 | There is a report exactly when the includes are cyclic |
| CycleReports.UnreportedStays | internal/doctor/doctor.go:269-283 | A recorded cycle that is not reported stays whole when the edges that close the reported ones are taken away |
| CycleSearch.RecordedCycles | internal/doctor/doctor.go:236-268 | Recorded cycles are closed and without repetition; no edge closes two of them and no inner step of one closes any; without the closing edges nothing is cyclic |
| CycleSearch.SearchIsGood | internal/doctor/doctor.go:240-268 | The whole search keeps the path a walk, the finished files in an order that all edges but closing ones descend, and every recorded cycle in the order of finishing, and finishes every file it starts from |
| CycleSearch.VisitIsGood | internal/doctor/doctor.go:240-258 | So does the search below one file, however deep |
| Cycles.Search.Dfs | internal/doctor/doctor.go:240-258 | The recursive closure with its colours and its path does what the search on the edges does |
| Cycles.Search.Run | internal/doctor/doctor.go:259-268 | Starting from every file still white, in sorted order, is the whole search |
| Cycles.Search.RecordCycle | internal/doctor/doctor.go:244-251 | A target on the stack records exactly the part of the stack from it on |
| Cycles.SearchAll | internal/doctor/doctor.go:231-268 | The adjacency map, its sorted keys and the search record the cycles specified |
| IncludeGraph.DescendingIsAcyclic | internal/doctor/doctor.go:226-268 | When every edge descends in the finishing order there is no cycle through two files |
| IncludeGraph.NoCycleDescending | internal/doctor/doctor.go:226-268 | No closed walk from a finished file goes through two files when all edges descend |
| IncludeGraph.WalkDescends | internal/doctor/doctor.go:240-258 | A walk never rises in the finishing order, and stays on its level only by standing still |
| IncludeGraph.TargetsAreEdges | internal/doctor/doctor.go:231-234 | The adjacency list of a file holds exactly the targets of its edges |
| Cycles.ReportAll | internal/doctor/doctor.go:269-283 | The loop drops short cycles and repeated keys and reports the rest, in order |
| Crawl.CrawlSite | internal/docs/crawl.go:59-131 | For every site: the crawl ends, asks for each URL at most once, only for admissible URLs within the depth bound, in order of least link distance, keeps at most the page cap, and unless the cap stops it asks for every admissible URL within the bound |
| Crawl.Crawler.Run | internal/docs/crawl.go:82-130 | The queue loop keeps the search invariant; levels left, then items left at the head level, decrease |
| Crawl.HeadIsNearest | internal/docs/crawl.go:86-92 | An unvisited head of the queue is at its least link distance |
| Crawl.Covered | internal/docs/crawl.go:82-130 | Once no item of a level waits, every URL within that many links has been dequeued |
| Crawl.DrainedIsComplete | internal/docs/crawl.go:82-130 | When the queue is empty the dequeued URLs are exactly those within the depth bound |
| Crawl.PopKeepsGood | internal/docs/crawl.go:86-92 | Dequeuing keeps the invariant but for the links of the page now in hand |
| Crawl.PushKeepsGood | internal/docs/crawl.go:121-129 | Queuing a link of that page keeps it |
| Crawl.Progress | internal/docs/crawl.go:82-130 | Every turn of the loop decreases levels left or items left at the head level |
| Crawl.Crawler.QueueLinks | internal/docs/crawl.go:121-129 | All links of a page are queued one level deeper |
| Crawl.Crawler.Visit | internal/docs/crawl.go:93-129 | Asking for a page, keeping or quarantining it and queuing its links restores the invariant |
| UnionFind.Clusters | internal/query/overview.go:38-66 | The clusters are exactly the connectivity classes with at least two files, pairwise disjoint |
| UnionFind.UnionFind.Find | internal/query/overview.go:574-581 | Path halving changes no class and no size, returns the root, and takes a number of hops whose power of two is at most the size of the class |
| UnionFind.UnionFind.Union | internal/query/overview.go:583-593 | Afterwards the roots decide connectivity under one more pair, and sizes at roots are class sizes |
| UnionFind.UnionFind.Add | internal/query/overview.go:567-572 | A new key is its own class; a known one changes nothing |
| UnionFind.UnionFind.Groups | internal/query/overview.go:595-602 | The groups are the partition of all keys by the equivalence closure of all unions |
| UnionFind.LabelsDecide | internal/query/overview.go:557-593 | Two keys have the same root exactly when the unions connect them |
| UnionFind.DepthIsLogarithmic | internal/query/overview.go:574-593 | Two to the depth of a key is at most the size of its class, which is the size stored at its root |
| UnionFind.LinkKeepsGood | internal/query/overview.go:583-593 | Hanging the smaller root under the larger keeps roots, ranks and sizes right for one more union |
| UnionFind.HalvingKeepsGood | internal/query/overview.go:577-579 | One halving step keeps them |
| UnionFind.ClustersOf | internal/query/overview.go:59-66 | Dropping single-file groups keeps every connected pair listed together |
| Centrality.RankIsADistribution | internal/query/centrality.go:36-63 | After every iteration the scores of distinct paths sum to exactly one, and from the first on each is at least the base share |
| Centrality.MassIsConserved | internal/query/centrality.go:45-62 | One iteration over any edges, duplicates, self-loops and unknown ends included, conserves the sum |
| Centrality.FlowIsConserved | internal/query/centrality.go:46-60 | What the files receive and what the dangling ones hold is what there was |
| Centrality.DoubleCounting | internal/query/centrality.go:24-34 | Summed over all files, what flows in over the counted edges is what flows out |
| Centrality.ScoresHaveAFloor | internal/query/centrality.go:44-60 | Every new score is at least the base share |
| Centrality.FileCentrality | internal/query/centrality.go:17-64 | The loops compute the fortieth iterate, whose sum is one, and the in-degrees |
| Centrality.Iterate | internal/query/centrality.go:45-62 | One turn of the loop is one application of the rank equation |
| Centrality.Degrees | internal/query/centrality.go:24-34 | The maps hold exactly the counted edges: known, distinct ends |
| Indexing.IncrementalIsRebuild | internal/index/index.go:95-222 | From the rows of completed runs of the same build, an incremental run equals a rebuild, modification times aside, if and only if no path that is detected without an extractor has an old row; the hash must tell the texts behind the rows from those found at their paths |
| Indexing.ReparseIsRebuild | internal/index/index.go:97-103 | A run that goes by no hashes equals a rebuild under the same condition, whatever the old rows hold |
| Indexing.SyncedIsMade | internal/index/index.go:95-222 | A run leaves rows made of their texts, on which the next incremental run may build |
| Indexing.UnchangedIsCurrent | internal/index/index.go:326-330 | A skipped file has the very row that parsing it would give |
| Indexing.IndexStore.IndexWithOptions | internal/index/index.go:68-278 | A completed run leaves exactly the specified rows, the build and the completion mark, and counts the deleted rows; one cut short leaves the old rows, a part of the walk applied with the next file perhaps half written, a part of the deletions done, or all of it unmarked, and keeps the old build until all is done |
| Indexing.IndexStore.SyncFiles | internal/index/index.go:117-223 | The files part of a run: all rows as specified, or one of those partial states |
| Indexing.IndexStore.ParseOne | internal/index/index.go:189-202 | A parsed file is written in two steps, and a run can end between them |
| Indexing.IndexStore.ParseAll | internal/index/index.go:159-203 | The apply loop, in walk order, leaves every parsed row and no other change |
| Indexing.IndexStore.RemoveMissing | internal/index/index.go:208-223 | Exactly the rows of files no longer in the project are deleted |
| Refresh.Project.Refresh | internal/application/project.go:330-397 | What is published is either untouched or what indexing the validated sources from scratch gives, although the tree may have changed at every look, as far as the hash tells the texts compared apart; the attempt succeeds exactly when it published and the embedding behind it was not cancelled |
| Refresh.Project.Publish | internal/application/project.go:375-383 | What replaces the published rows is made of its texts and equals a rebuild of the validated sources |
| Refresh.Project.RefreshWithProgress | internal/application/project.go:262-297 | A second attempt is made exactly when the sources changed during the first; after any failure the published rows are the old ones or a validated generation, and are marked incomplete if that mark can be written |
| Refresh.GenerationIsRebuilt | internal/application/project.go:347-383 | The validated generation of a completed run equals a rebuild |
| IndexRuns.SeriesIsRebuild | internal/index/index.go:68-278 | After any series of runs on one store, by any builds, with any options, over any trees, some cut short anywhere, a run that completes equals a rebuild if and only if nothing is stranded, provided that no completed run went by the hashes of a run of its own build that was cut short, and that this run tells the texts it compares apart |
| IndexRuns.SeriesOfExtractingBuilds | internal/index/index.go:68-278 | With an extractor for every language such a run always equals a rebuild |
| IndexRuns.CompleteIsMade | internal/index/index.go:73-78 | Rows that are marked complete are what their build makes of the texts it read, however the series went |
| IndexRuns.ResumedRunIsRebuild | internal/index/index.go:105-115 | Whatever rows a store holds, a run that goes by their hashes and strands none gives a rebuild if and only if no row has the hash of a text found of which the build would make another row |
| IndexRuns.ResumingIsRebuild | internal/index/index.go:105-115 | The same over all trees: every such run gives a rebuild if and only if no row has the hash of any such text |
| IndexRuns.CutResetIsKept | internal/index/index.go:95-115 | A run of another build cut off behind its reset, then one of the old build: every unchanged file keeps its row without what was extracted from it |
| IndexRuns.HalfWrittenIsKept | internal/index/index.go:189-202 | A run cut off between the row of a file and what it extracted, then a run of the same build: the new hash keeps the old extraction |
| IndexRuns.CutResetFails | internal/index/index.go:95-115 | A concrete series of three runs in which the last completes and does not rebuild |
| Refresh.ValidatedIsRebuilt | internal/index/index.go:854-903 | Rows that pass validation are those of a rebuild of the validated sources, whatever was read while indexing |
| Refresh.SyncedMatchesRead | internal/index/index.go:301-356 | Every row a run leaves is that of the text the run read |
| Refresh.Project.Validate | internal/index/index.go:854-903 | Validation succeeds only when every row matches its source and no expected source was left out |
| SourceLines.IndexLines | internal/knowledge/anchor.go:61-77 | The scan finds exactly the line starts of the text with unified line ends and without the final one |
| SourceLines.RegionIsLines | internal/knowledge/anchor.go:83-92 | A region is its lines joined, and a range outside the file has none |
| SourceLines.JoinSlice | internal/knowledge/anchor.go:51-92 | A run of lines is one contiguous slice of the text |
| SourceLines.NextBreakIsLineEnd | internal/knowledge/anchor.go:68-75 | The next line end found from a line start ends that line, and none is found only in the last line |
| Relocation.RelocateRegion | internal/knowledge/anchor.go:130-169 | The outward loop returns exactly the specified window, and ends |
| Relocation.RelocationIsNearest | internal/knowledge/anchor.go:130-169 | A returned window has the wanted digest, no window nearer to the clamped origin has it, and of two equally near the later is returned |
| Relocation.RelocationIsComplete | internal/knowledge/anchor.go:115-169 | A miss means that every matching window lies beyond what the byte cap pays for; when all windows fit the cap no window matches |
| Relocation.SearchIsNearest | internal/knowledge/anchor.go:142-168 | The search from any distance on returns the nearest match from there on |
| Relocation.SearchMisses | internal/knowledge/anchor.go:160-162 | A match that a search misses costs more than its budget to reach |
| Relocation.CostIsBytes | internal/knowledge/anchor.go:147-162 | The bytes paid up to a distance are those of the windows around the origin, each once |
| Anchors.CheckAnchorResolved | internal/knowledge/anchor.go:229-298 | The check as it branches is the specified check |
| Anchors.VerdictByLines | internal/knowledge/anchor.go:248-297 | An anchor pinned by lines is current exactly when its own lines have the digest, moved only to the nearest window that has it, and within the byte cap stale only when no window has it |
| Anchors.AnchorsSurviveShifts | internal/knowledge/anchor.go:273-297 | When the anchored lines occur unchanged anywhere in a file that still holds the range, the anchor is current or moved, never stale; with collision-free digests the moved range holds those very lines |
| Anchors.SearchIsCurrent | internal/knowledge/anchor.go:261-294 | Lines a search found are judged current at their own range and found there at once |
| Anchors.RepairedIsCurrent | internal/knowledge/anchor_repair.go:39-51 | A moved anchor pinned by lines checks current once repaired |
| Anchors.RepairIsIdempotent | internal/knowledge/anchor_repair.go:39-51 | Repairing any anchor twice is repairing it once, anchors pinned by symbols included |
| AnchorRepair.Repository.RepairAnchors | internal/knowledge/anchor_repair.go:31-61 | Until a write is refused every document is repaired and the others are as they were; the reports are those of the documents looked at |
| AnchorRepair.Repository.RepairDocument | internal/knowledge/anchor_repair.go:37-55 | Only the coordinates of moved anchors are rewritten, with one report each |
| AnchorRepair.RepairResumes | internal/knowledge/anchor_repair.go:31-61 | A refused or interrupted repair, then a whole one, ends as one whole repair; a second whole one changes nothing |
| AnchorRepair.RepairLeavesNoneMoved | internal/knowledge/anchor_repair.go:25-30 | Every anchor pinned by lines that had moved checks current afterwards, and all others and all other fields are untouched |
| Stream.Run | internal/agenttrial/runner.go:268-460 | For every series of writes and of limits from outside: the kept channels, the counters and the leftover line depend only on the bytes; the kept bytes add up to what was written or to the cap; without a limit every budget held and nothing came from outside; the limit is that of the first input that sets one; a limit names a budget that was used up at some point, and still is at the end unless it is that of tokens and an object lowered their total |
| Stream.StreamState.Add | internal/agenttrial/runner.go:268-301 | One write of any size keeps the state a function of all bytes written, never replaces a limit, and signals exactly on a limit or an overflow |
| Stream.StreamState.Keep | internal/agenttrial/runner.go:269-291 | Of a write the part is kept that fits under the cap, and all of it is counted |
| Stream.StreamState.ParseLines | internal/agenttrial/runner.go:303-316 | The loop handles exactly the complete lines of the buffer, in order, and leaves the rest |
| Stream.StreamState.CollectEvent | internal/agenttrial/runner.go:318-367 | The recursion over an event changes the counters as specified |
| Stream.StreamState.CollectObject | internal/agenttrial/runner.go:324-360 | Usage, tool call and subagent of one object are counted as specified |
| Stream.StreamState.CheckBudgets | internal/agenttrial/runner.go:403-417 | The first used-up budget in order is set, unless a limit stands |
| Stream.StreamState.SetLimit | internal/agenttrial/runner.go:428-434 | A limit from outside never replaces one |
| Stream.StreamState.Finish | internal/agenttrial/runner.go:437-460 | A leftover line is handled like a complete one |
| Stream.LimitIsFirst | internal/agenttrial/runner.go:294-299 | The limit of a run is that of the first write or outside reason that sets one, and there is none exactly when none does |
| Stream.FirstLimitStays | internal/agenttrial/runner.go:428-434 | The first limit is never replaced, whatever comes |
| Stream.CountersAppend | internal/agenttrial/runner.go:303-316 | Appending text appends the lines that become complete to those handled |
| Stream.LinesAppend | internal/agenttrial/runner.go:303-316 | The lines of a longer text are those complete before and those of the leftover with what was added |
| Stream.KeptIsPrefix | internal/agenttrial/runner.go:270-291 | What is kept of a channel is a prefix of what was written on it |
| Stream.ChannelsShareBytes | internal/agenttrial/runner.go:270-291 | The two channels share the kept bytes between them |
| Stream.CountersAreSound | internal/agenttrial/runner.go:337-360 | The number of tool calls is the number of distinct keys counted |
| Stream.CountersOnlyGrow | internal/agenttrial/runner.go:318-401 | More output never lowers a counter; the token total only if one of the objects it completes lowers it |
| Stream.TotalNeverFallsExactly | internal/agenttrial/runner.go:369-401 | The token total never falls while a stream is noted, if and only if no object reports an added usage with a negative total under no key or under a new one |
| StreamEvents.TotalFallsExactly | internal/agenttrial/runner.go:369-401 | It falls at exactly those objects |
| Stream.RefundStream | internal/agenttrial/runner.go:369-401 | A line with a usage of minus one token in all lowers the total below zero |
| Stream.ReachedHolds | internal/agenttrial/runner.go:403-417 | A budget once used up stays used up, that of tokens as long as no object lowers their total |
| Stream.StreamNotes | internal/agenttrial/runner.go:303-367 | The counters of a stream are those of its objects noted one after the other |
| StreamEvents.NoteFollows | internal/agenttrial/runner.go:324-360 | One object keeps the counters sound and only lets them grow, the token totals aside |
| StreamEvents.CollectNotes | internal/agenttrial/runner.go:318-367 | However an event is nested, collecting it is noting its objects one after the other |
| StreamEvents.NotesFollow | internal/agenttrial/runner.go:318-367 | So does any series of objects |
| StreamEvents.NoteTotal | internal/agenttrial/runner.go:369-401 | One object lowers the token total exactly when its usage is added, its total is negative, and it has no key or a new one |
| Subagents.SubagentsCountedAgain | internal/agenttrial/runner.go:300-360 | Over a whole stream the subagent count exceeds the number of subagent keys by the tool calls that start a subagent already counted |
| Subagents.SubagentsCountedOnce | internal/agenttrial/runner.go:300-360 | When the tool calls and announcements of a stream carry identifiers, whatever its other objects carry, each subagent is counted once if and only if none is announced by an event before the tool call that starts it |
| Subagents.StreamCounts | internal/agenttrial/runner.go:300-360 | The calls of all events, in the order in which the walk meets them, decide all call counters |
| Subagents.AnnouncedThenStarted | internal/agenttrial/runner.go:337-360 | A stream of two lines, an announcement and the tool call with its identifier, is counted as two under one key |
| Freshness.NoChangeIsLost | internal/cli/freshness.go:56-93 | A call that returns well has behind it a re-index that began after every change known before it took the mutex; a change is known when it is reported, when its watcher stops, or at once when none runs |
| Freshness.ChangeIsNoted | internal/cli/freshness.go:95-123 | Every change is known or waits for the report of a running watcher, from the moment it is made |
| Freshness.StoppedIsCaughtUp | internal/cli/freshness.go:66-78 | When the watcher was suspended, stopped or failed, the next call that returns well has every change indexed that was made before, reported or not |
| Freshness.RunsLoseNothing | internal/cli/freshness.go:59-160 | At every moment every change is indexed, flagged, waiting for the watcher to resume, or in the hand of the call that holds the gate |
| Freshness.CallCoversChanges | internal/cli/freshness.go:59-93 | The same for one whole call from any reachable state, whatever happens between its steps; a failed call leaves the flag set |
| Freshness.IndexedOnlyAdvances | internal/cli/freshness.go:59-93 | What is indexed never becomes older |
| Freshness.PendingChangeForcesReindex | internal/cli/freshness.go:66-91 | A change neither indexed nor in hand makes the next call re-index |
| Freshness.Guard.OnCall | internal/cli/freshness.go:59-93 | The call as it runs, with the environment let in where the mutex is free, is that run of steps |
| Freshness.Guard.TakeMutex | internal/cli/freshness.go:66-82 | The first critical section clears the flag, restarts a suspended watcher and decides whether to re-index |
| Freshness.Guard.WatcherEnded | internal/cli/freshness.go:109-117 | A failed watcher is stopped and flagged only if it is the current one |
| Freshness.Guard.Tick | internal/cli/freshness.go:138-160 | The idle loop suspends the watcher only after the idle window |
| Freshness.Guard.Flag | internal/cli/freshness.go:104-108 | A callback, even of a stopped watcher, sets the flag |
| Embedding.Store.BuildVectors | internal/index/embed.go:48-151 | However a pass ends, at whatever step: every stored vector is the embedding of its chunk by the recorded model, none of the model in use is lost, and the budget of chunks holds. On success the vectors stored come before all still missing, the mark is set exactly when nothing is missing, and without a budget nothing is; a pass in which nothing fails succeeds |
| Embedding.RepeatedPasses | internal/index/embed.go:37-151 | Any number of bounded, interrupted or failing passes, each with a model of its own, and then one unbounded successful pass leave exactly one vector of its model for every chunk with content |
| Embedding.CompleteIsFull | internal/index/embed.go:140-149 | An honest table misses nothing exactly when it is that full table |
| Embedding.Store.Prepare | internal/index/embed.go:50-72 | Vectors of another model and of content-free chunks are gone before work begins, and no intermediate state attributes a vector to the wrong model |
| Embedding.Store.Drain | internal/index/embed.go:83-139 | The window loop ends, and without a budget only when nothing is missing |
| Embedding.Store.Window | internal/index/embed.go:97-138 | The batch loop keeps the budget, the order of work and the honesty of the table |
| Embedding.Store.StoreBatch | internal/index/embed.go:104-133 | A batch that stops half-way has stored a prefix of its chunks |
| Embedding.Store.ResetVectors | internal/store/vectors.go:67-78 | Cut off anywhere, the table is gone before the metadata that names its model |
| Embedding.Store.EnableVectors | internal/store/vectors.go:21-35 | A table of another dimension is dropped, and the new one is empty |
| Embedding.Store.PruneContentFreeVectors | internal/store/vectors.go:182-193 | Exactly the vectors of content-free chunks go |
| Embedding.Store.ChunksWithoutVectors | internal/store/vectors.go:131-156 | The chunks returned are missing, ascending, and before every other missing chunk |
| Embedding.BatchEnd | internal/index/embed.go:104-107 | A batch is not empty and no longer than a batch, than what is pending, or than what the budget leaves |
| Quantize.QuantizedFileRoundTrips | internal/embed/quantize.go:62-111 | Loading a written model gives back matrix, scales, weights and mapping as written, a mapping of every row to itself excepted, whenever its header can be read back and the file length fits eight bytes |
| Quantize.EveryModelCanBeWritten | internal/embed/quantize.go:62-111 | One text form reads back the header of every model whose width fits eight bytes, and writes it short enough wherever the tensors fit into a file |
| Quantize.HeaderIsOfShape | internal/embed/quantize.go:90-101 | The header of any such model depends on its shape and on which parts it has |
| StaticModel.QuantizeThenLoad | internal/embed/quantize.go:22-51 | Quantizing a file and loading the result gives the quantized matrix, its stored scales, and the weights and mapping of the original, whenever the header of the written shape can be read back |
| StaticModel.QuantizeThenLoadApplies | internal/embed/quantize.go:22-51 | A concrete codec, arithmetic, model file and quantized file that meet all this asks |
| Quantize.ShapeDecidesHeader | internal/embed/quantize.go:90-101 | The header written depends on the shape of the model alone |
| Quantize.EntryIsFound | internal/embed/quantize.go:90-101 | Tensors lie one after the other without gap or overlap, and each is found at its own offsets |
| StaticModel.EntryIsNear | internal/embed/quantize.go:32-49 | Every entry is within half its row's exact scale of scale times step, and no step exceeds 127, in real arithmetic |
| StaticModel.LoadedIsNear | internal/embed/quantize.go:22-51 | After quantizing a file and loading the result, every entry is within half its row's exact scale, and 127 times the error of the stored scale, of its step times the stored scale; where storing a scale changes it by at most a part of it, that error is that part |
| StaticModel.WithinByScale | internal/embed/quantize.go:32-49 | So every entry is within one half plus 127 times that part of its row's scale |
| StaticModel.QuantizeRow | internal/embed/quantize.go:32-49 | The two loops over a row find the scale by which its largest entry is step 127 and give every entry its nearest step |
| StaticModel.StepIsNear | internal/embed/quantize.go:43-48 | The nearest integer multiple of the scale is within half a scale and within the range, so the clamp never acts |
| StaticModel.QuantizeMatrix | internal/embed/quantize.go:30-49 | Every row is quantized by itself, at its own place |
| StaticModel.QuantizeStatic | internal/embed/quantize.go:22-51 | The rewritten file is the quantized form of the file read; a malformed or already quantized file is refused |
| StaticModel.WriteStatic | internal/embed/quantize.go:62-111 | The file written is the header with those offsets and the tensors behind it |
| StaticModel.LoadSafetensors | internal/embed/safetensors.go:33-146 | Reading with its loops and its identity flag is the specified reading, error cases included |
| StaticModel.ReadMapping | internal/embed/safetensors.go:123-144 | The mapping is refused when it leaves the rows and kept exactly when it maps some row elsewhere |
| StaticModel.LoadedFits | internal/embed/safetensors.go:33-146 | A model that was read has the shapes and widths that writing needs |
| TensorBytes.PutAllThenGet | internal/embed/quantize.go:67-89 | Little-endian numbers are read back as written |
| TensorBytes.DecodeAll | internal/embed/safetensors.go:80-105 | The reading loop takes the numbers off the bytes in order |
| Quantize.SignedRoundTrip | internal/embed/quantize.go:63-88 | Signed bytes and words survive their unsigned form |
| Fusion.FusionRespectsAgreement | internal/query/search_fuse.go:36-64 | Over lists without duplicates, a hit that stands before another in every list that has the other stands before it in the fused ranking |
| Fusion.OutputRespectsAgreement | internal/query/search_fuse.go:56-64 | The same for the output cut to its limit: what every list that has a returned hit puts before it is returned before it |
| Fusion.AgreementScoresMore | internal/query/search_fuse.go:44-55 | Such a hit scores strictly more |
| Fusion.FuseRRF | internal/query/search_fuse.go:36-64 | The result is the first hits of the keys of all lists by falling score, ties as first seen, as many as asked for |
| Fusion.TallyAll | internal/query/search_fuse.go:42-55 | The loops give every key its first hit and its summed score, and the keys in the order first seen |
| Fusion.MergeDocRecall | internal/query/search_fuse.go:103-145 | The result is the deduplicated base with the best misses put in at the eleventh place, cut to the limit |
| Fusion.RecallKeepsTheTop | internal/query/search_fuse.go:66-145 | The first ten base hits stay where they are, the base keeps its order, at most three misses come in, those of the best tiers, and no key is there twice |
| Fusion.PlacedSplits | internal/query/search_fuse.go:129-144 | Taking the misses out of the result leaves a prefix of the base |
| Fusion.FirstsAreFirst | internal/query/search_fuse.go:104-119 | Deduplication keeps every new key once |
| StableSort.Sort | internal/query/search_fuse.go:56-56 | The stable sort the rankings rely on: a permutation in order, tied elements as they were |
| Packing.Pack | internal/context/pack.go:6-64 | A valid request is packed from the diversified ranking: both budgets hold when set, the items' costs add up to the reported budget, items and omissions account for every candidate, each item has the content asked for if that fitted and else its compact one, and a candidate is left out only as a duplicate or when not even its compact form fitted; an invalid request is refused |
| Packing.PackingIsMaximal | internal/context/pack.go:21-58 | When no text costs less than nothing, no candidate left out for the budget fits what is left at the end |
| Packing.ItemsAreDistinct | internal/context/pack.go:22-26 | No two items have one identifier |
| Packing.PackAll | internal/context/pack.go:20-58 | The packing loop keeps all of this after every candidate |
| Packing.Choose | internal/context/pack.go:27-40 | The content of the mode if it fits, else the compact one; refused only when neither fits |
| Packing.DiversifyIsPermutation | internal/context/pack.go:93-109 | Diversifying loses and adds no candidate |
| Packing.EverySourceComesFirst | internal/context/pack.go:93-109 | Every source has its first candidate before all repeats, and only one there |
| Packing.Diversify | internal/context/pack.go:93-109 | The loop gives that arrangement |
| Ranking.RankCandidates | internal/context/rank.go:58-125 | The ranking is a stable permutation of the candidates, each with its reasons, by falling score and then by identifier |
| Ranking.RankOrderIsStrictWeak | internal/context/rank.go:114-119 | The comparison is an order a sort may use |
| Ranking.UniqueStrings | internal/context/rank.go:127-140 | Each non-empty reason is kept once, in order |

## Left out

- File-system internals: an atomic write is installed without an error or refused with nothing changed. A write that is installed and yet reports an error (a failing directory sync after the rename), failing reads in the middle of an operation, symbolic links, locks and directory creation are not modelled.
- Deciding two proposals at once: recovery is keyed by the proposal, so the theorems are about one proposal and its journal.
- Foreign edits that race a running accept, or that come after the accepted record is written, are outside the atomicity theorems; edits made while the process is down are covered by the recovery theorems.
- ReviewInbox.Inbox.PutBack: a write that is installed and then reports an error from the directory sync is not modelled.
- ReviewInbox.Inbox.WriteProposal: the same late error is not modelled.
- ReviewInbox.Inbox.WriteDecisionTransaction: the same late error, and the bound on the encoded size of the journal, are not modelled.
- ReviewInbox.Inbox.RemoveDecisionTransaction: the same late error is not modelled.
- Proposing, listing and diffing proposals, importing and exporting bundles: they write no decision.
- UnionFind.UnionFind.Groups: the iteration order over keys, which is random in the source, is not modelled; the groups are stated as a partition.
- UnionFind.Clusters: the later splitting of one dominating cluster, labels and the order of clusters are not modelled.
- Crawl.CrawlSite: the fast paths through a site's llms.txt, the robots file, rate limits, redirects and cancellation are not modelled; a page is a value the site gives for a URL.
- Stream.Run: 64-bit overflow of counters is not modelled, the children of an object are visited in one fixed order, and the time limit and the process itself are a limit set from outside.
- Freshness.NoChangeIsLost: a change that waits for the report of a running watcher counts as known from that report on; that the watcher makes it, and does not end silently without an error, is not part of this model. Waiting calls that give up before the gate change nothing and have no step.
- Embedding.Store.BuildVectors: chunks do not change during a series of passes, the progress callback and its estimate are not modelled, and a failed read of the recorded model is not told apart from an error that ends the pass.
- Indexing.IncrementalIsRebuild: modification times, row identifiers and dependency edges are outside it, since edges of unchanged files are resolved again from what is left of them.
- Indexing.IndexStore.IndexWithOptions: package metadata, graph resolution and symbol counts are unnamed steps that can be cut short; a reset, and a write of what was extracted from one file, are single steps; parallel parsing is modelled by its consumer, which applies results in walk order.
- Refresh.Project.Refresh: what the embedding pass does is the module Embedding; here it is only whether it fails and whether the caller has given up by then.
- Refresh.Project.RefreshWithProgress: progress reports and the locks around a refresh are not modelled.
- Subagents.SubagentsCountedOnce: speaks of streams whose tool calls and announcements carry identifiers; for those without one the count is stated by `Subagents.SubagentsCountedAgain`.
- AnchorRepair.Repository.RepairAnchors: anchored sources are taken not to be documents of the bundle that is being rewritten.
- Anchors.RepairedIsCurrent: does not speak of anchors pinned by symbols, which are resolved anew at every check; that repairing them twice is repairing them once is proved.
- StaticModel.EntryIsNear: speaks of the exact scale; the stored one is that of `StaticModel.LoadedIsNear`. Rounding inside the division, infinities and not-a-numbers are not modelled.
- StaticModel.LoadSafetensors: negative shapes and header lengths near the 64-bit limit are not modelled.
- StaticModel.QuantizeThenLoad: takes the header's text form as a codec that reads the written header back; the JSON text itself is not modelled.
- Centrality.RankIsADistribution: is in real arithmetic; floating-point rounding is not modelled.
- Fusion.FuseRRF: scores are real numbers; a negative limit is not modelled.
- Packing.Pack: default audiences and empty citation lists, the summary sentence and the identifiers of a request are presentation and not modelled; lengths are counted in characters that stand for bytes.
- Messages of errors and findings beyond what tells them apart, command-line, editor and protocol plumbing, setup, self-update and evaluation: not modelled.
- Per-language import resolution and the rules that detect generated files: long tables of single-branch reads, left as parameters.
