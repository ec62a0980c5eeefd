# Verified model of the knowledge pipeline

AiBrain reads a customer's files through a remote desktop session, keeps them in private
catalogues, publishes them to audiences and lets a model summarise them under review. This
project models the durable state machines behind that, and proves what they keep over every
run: under concurrent workers, crashes between any two durable writes, expired leases,
changed policies and clocks that go back. Three smaller programs of the same repository are
modelled beside it: the mailbox name codec, the company-context update, and the spreadsheet
preview.

Check the whole project with `dafny verify dfyconfig.toml`.

## How it is built

Objects that update their fields are classes whose methods change them step by step; each
method is proved equal to a specification function of the old state, and the results about
whole runs are lemmas over those functions. Beside that, the contract of each method, or an
effect lemma about its function, says field by field or row by row what changes, and when. A
crash is a run that stops after some number of durable writes. SHA-256 is injective: a digest
stands for what was digested. What comes from outside (clock, grants, fresh identifiers, replies
of the model and of the source, verdicts of regular expressions) is an argument that may take
any value at every step.

Automatic induction is switched off for every lemma to which it would apply; each inductive
proof recurses explicitly.

| files | what they hold |
|---|---|
| `Wrappers`, `SourceText` | options and results; the text rules of the knowledge modules |
| `SummaryPlan`, `ReductionTree`, `ReductionProperties` | cutting a document into parts; the fan-in-8 tree of reductions |
| `SummaryJob`, `SummaryJobProperties`, `SummaryWorker` | one job's durable rows, and the lease-based queue |
| `DispatchProtocol`, `DispatchProgress`, `DispatchCompletion`, `RecordGrounds` | all runs of the queue: safety, progress, completion, and what a record rests on |
| `KnowledgeStore`, `KnowledgeRuns`, `Catalogue` | the tables of a partition, the operations on them, and the class that performs them |
| `IndexProperties`, `RecordProperties`, `CitationProperties` | what every run keeps: index agreement, the record life cycle and its log, live citations |
| `RecordEffects`, `SourceEffects` | what each operation does, record by record and table by table |
| `TombstoneProperties` | how a rejected or corrected statement can come back |
| `ScanJournal`, `ScanProperties` | the paged scan of the source |
| `AudienceRules`, `Publication`, `KeptText` | which audience a source belongs to; the partitions, and the text they show |
| `RecoveryGate` | reopening a restored store |
| `GenerationScheduler`, `SchedulerProperties` | the daily budget and the turn of the jobs |
| `ChannelLease`, `ReadChannel` | the exclusion between RDP executions; the sessions of the broker |
| `FolderCodec`, `FolderCodecProperties` | modified UTF-7 and quoting, sections 5.1.3 and 4.3 of RFC 3501 |
| `ContextRevision` | reversible updates of the company context |
| `SheetPreview` | the byte budget of a preview, and column labels |

## Where the code does less than it seems to promise

The model follows the code. In these places a natural promise is false. For each, a lemma names a
run or an input on which it fails, and another says exactly when it holds.

- The nearest source root decides the audience only where the roots as written grow with their
  nesting: `resolve_audience` compares written lengths, and lower-casing can lengthen a key. Fails:
  `AudienceRules.NestedRuleMissed`. Exactly: `AudienceRules.NearestExactly`; the ordinary case is
  `AudienceRules.EvenlyKeyedNests`.
- A folder can end as complete although a page of it was limited: a failure overwrites the note.
  Fails: `ScanProperties.LimitedPageForgotten`. Exactly: `ScanProperties.CompleteMeansUnlimited`.
- Rejections and corrections are remembered by `propose` only; `correct` does not consult them.
  Fails: `TombstoneProperties.CorrectionRevives`, `TombstoneProperties.CorrectionUndone`. Exactly:
  `TombstoneProperties.RejectedReturnsExactly`, `TombstoneProperties.CorrectedReturnsExactly`.
- A partition row of the right digest, fingerprint and payload counts as up to date; its chunk text
  is not compared. Fails: `KeptText.OldTextKept`. Exactly: what `Publication.Publisher.PublishOne`,
  and an unbounded `Publication.Publisher.Publish`, ensure of the text (`TextDecided`).
- The policy may change between the re-read and the removal of the restore gate. Fails:
  `RecoveryGate.OpenedUnderAnotherPolicy`. Exactly: `RecoveryGate.InForceExactly`.
- Closing a busy channel can leave its session open. Fails: `ReadChannel.ClosedWhileBusy`. Exactly:
  `ReadChannel.LeftOpenExactly`, `ReadChannel.SessionGoneExactly`.
- A call can be given a closed session, after a close that raised. Fails:
  `ReadChannel.CallOnDeadSession`. Exactly: `ReadChannel.CallsKeepTheirSession`.
- A temporary file of a half-finished write blocks the rollback until it is removed. Fails:
  `ContextRevision.TornUpdateBlocks`. Exactly: `ContextRevision.CrashSafeRollback`, and
  `ContextRevision.LeftoverExactly` for when such a file is there.

## Model

| member | source | states |
|---|---|---|
| `DispatchProtocol.AtMostOnceDispatch` | infra/hetzner/knowledge-summary-worker.py:55-141 | In every run of any number of workers, operators, clock readings, revoked grants and crashes, each stage of each job sees at most three model calls, and at most one of them ends otherwise than in proof that nothing was sent. |
| `DispatchProtocol.CallsAreBounded` | infra/hetzner/knowledge-summary-worker.py:55-141 | A job of n parts never causes more than 6n model calls, whatever interrupts it: the stages are few and each has at most three attempts. |
| `DispatchProtocol.SettledForever` | infra/hetzner/knowledge-summary-worker.py:59-64 | A blocked or complete queue row is the same after any further run. |
| `DispatchProtocol.CommitsUnderLeaseOnly` | infra/hetzner/knowledge-summary-worker.py:111-128 | A worker changes a job only under the running, unexpired lease its result was asked for, and only by applying that stage. |
| `DispatchProgress.RetryWaits` | infra/hetzner/knowledge-summary-worker.py:131-138 | After a failure that is to be retried, the queue row stays exactly as it is, whatever else happens, until a worker begins a step at a clock of at least 60 seconds after the first failure of a stage, or 300 after the second. |
| `DispatchProgress.SentOnce` | infra/hetzner/knowledge-summary-worker.py:92-111 | A lease is sent once: in no later state does sending it again do anything. |
| `DispatchProgress.LeftShrinks` | infra/hetzner/knowledge-summary-worker.py:55-138 | The pair of stages not done and attempts left for the next stage never grows in lexicographic order, and every attempt that starts lowers it. |
| `DispatchProgress.LeftOverRuns` | infra/hetzner/knowledge-summary-worker.py:55-138 | The same over whole runs: what is left of a job after any run is at most what was left before. |
| `DispatchProgress.CompleteHasRecord` | infra/hetzner/knowledge-summary-worker.py:111-128 | In every run a complete queue row belongs to a job that has its record. |
| `DispatchProgress.CommitContinues` | infra/hetzner/knowledge-summary-worker.py:111-128 | In every run, after a commit that leaves the job without a record, the row is ready without a lease, and the very next begin, if granted, for the row's model, on a current source, of acceptable size and at any clock from 0 on, starts the next stage of the job. |
| `DispatchProgress.FailureSettles` | infra/hetzner/knowledge-summary-worker.py:131-141 | A failure recorded under the lease that still holds is retried if and only if the call is known not to have gone out and fewer than three attempts were made; otherwise it blocks the row. Either way its reason is noted and the lease is gone. |
| `DispatchCompletion.PlannedJobFinishes` | infra/hetzner/knowledge-summary-worker.py:36-128 | From a new plan on, a job of n parts that is queued, granted at every step and served with acceptable replies has its record, and a complete row, after at most 2 + 8n actions. |
| `DispatchCompletion.RoundsFinish` | infra/hetzner/knowledge-summary-worker.py:55-128 | The same from any state of any run in which the row is ready or its back-off is over: at most one round of begin, send, return and commit for each stage that is left. |
| `DispatchCompletion.RoundDoesNext` | infra/hetzner/knowledge-summary-worker.py:55-128 | One round does exactly the stage that is next, changes no other job or row, and leaves the row ready for the stage after it, or complete after the synthesis. |
| `DispatchCompletion.OperatorActs` | infra/hetzner/knowledge-summary.py:94-149 | A draft or synthesis that the operator submits is taken under the same checks and changes nothing but its job. |
| `RecordGrounds.RecordRestsOnPlan` | infra/hetzner/knowledge-summary.py:94-149 | In every run, whenever a job gets its record: all its parts are drafted, the synthesis behind it has one to ten claims with one to four references each to draft claims in range, and the at most twenty quotes behind them each stand in the plan at the place they are cited at. |
| `RecordGrounds.PreparedIsNumbered` | infra/hetzner/knowledge-summary.py:52-72 | Any plan that preparing a document may give is one that a job may start from. |
| `DispatchProtocol.NextStageAlwaysKnown` | infra/hetzner/knowledge-summary-hierarchy.py:34-58 | In every run the rows of an unfinished job name a next stage; the error that a reduction input changed cannot occur. |
| `DispatchProtocol.PerformKeeps` | infra/hetzner/knowledge-summary-worker.py:55-141 | One inductive invariant ties queue rows, leases, attempts and job rows together, and every action keeps it. |
| `DispatchProtocol.SavedWorkStays` | infra/hetzner/knowledge-summary.py:79-117 | Over any run the plan of a job, its drafts and its saved reductions never change once they are there, and a record is not lost. |
| `SummaryWorker.Store.Enqueue` | infra/hetzner/knowledge-summary-worker.py:36-42 | A granted, current job gets one fresh row; a second call returns the row it has; another model or a withdrawn grant changes nothing. |
| `SummaryWorker.Store.Begin` | infra/hetzner/knowledge-summary-worker.py:55-93 | The first transaction of a step: an expired lease blocks the row, a settled or waiting row is left, otherwise the next stage is claimed under a new lease; the whole new queue is given. |
| `SummaryWorker.Store.Commit` | infra/hetzner/knowledge-summary-worker.py:111-128 | Result and queue row are saved together exactly when grants, model, running lease, expiry and result are in order, otherwise neither changes. The row is then ready, or complete after the synthesis, with no lease, error or attempt; the job has the one draft, reduction or record that was asked for. |
| `SummaryWorker.Store.SavePart` | infra/hetzner/knowledge-summary.py:94-117 | A draft is taken exactly when the source is current, it quotes its own part and every quote still verifies, and it is new, or is the same again; the job changes by that draft only. |
| `SummaryWorker.Store.Finalize` | infra/hetzner/knowledge-summary.py:119-149 | A synthesis over all drafts with at most twenty distinct quotes, and nothing else, gives the job its record. |
| `SummaryWorker.Store.Fail` | infra/hetzner/knowledge-summary-worker.py:131-142 | A failed step becomes a retry after 60 or 300 seconds or a blocked row with its reason, only while its lease still holds; otherwise nothing changes. |
| `SummaryJob.ValidateDraft` | infra/hetzner/knowledge-summary.py:99-110 | The loops accept exactly the drafts of one to eight claims and 8000 characters whose claims have an acceptable text and one to three quotes, each not blank and found letter for letter in the unit it names. |
| `SummaryJob.RawLengthAdds` | infra/hetzner/knowledge-summary.py:98-98 | The length of a draft is the sum of the lengths of its texts as they were sent. |
| `SourceText.AcceptedExactly` | infra/hetzner/knowledge-derived.py:21-24 | What is accepted of a text is all of it but the white space around it, if that is neither empty nor too long and nothing in the text looks like a secret or is a control character other than tab and line feed. |
| `SummaryJob.CollectEvidence` | infra/hetzner/knowledge-summary.py:123-137 | The loops over a synthesis find a reference in range for every claim, and gather exactly the quotes behind them, told apart by the place they are cited at and their text. |
| `SummaryJob.LocatorByNumber` | infra/hetzner/knowledge-summary.py:124-134 | The place of a quote is that of the unit with its number. |
| `SummaryJobProperties.NextIsFirstNotDone` | infra/hetzner/knowledge-summary-worker.py:65-72 | What the rows ask for next is the first stage not yet done of one fixed course: parts in order, the reduction schedule, the synthesis. |
| `SummaryJobProperties.NextStaysNext` | infra/hetzner/knowledge-summary-hierarchy.py:60-66 | A stage that is next stays next until it is done, however the rows grow meanwhile. |
| `SummaryJobProperties.DraftKeepsSound` | infra/hetzner/knowledge-summary.py:94-117 | Taking a draft keeps every saved reduction matched to the group it was made for. |
| `SummaryJobProperties.ReductionKeepsSound` | infra/hetzner/knowledge-summary-hierarchy.py:60-66 | Saving the reduction asked for keeps the job sound and completes exactly that stage. |
| `SummaryJobProperties.GroupedReferencesAreFound` | infra/hetzner/knowledge-summary.py:126-132 | A synthesis accepted over groups of the tree passes the final check of its references against the drafts. |
| `SummaryJobProperties.CourseIsShort` | infra/hetzner/knowledge-summary-hierarchy.py:41-58 | A job of n parts needs n drafts, fewer than n reductions and one synthesis. |
| `ReductionTree.ValidateClaims` | infra/hetzner/knowledge-summary-hierarchy.py:11-26 | The accumulating loop accepts exactly the replies whose claims are bounded and refer into the given nodes, and returns them unchanged. |
| `ReductionTree.AcceptedRefer` | infra/hetzner/knowledge-summary-hierarchy.py:11-26 | Every reference of an accepted reply, one to four for each of at most ten claims, is one that a claim of the given nodes has. |
| `ReductionTree.TotalTextAdds` | infra/hetzner/knowledge-summary-hierarchy.py:11-26 | The size of a reply is the sum of the lengths of its trimmed texts. |
| `ReductionTree.FindNext` | infra/hetzner/knowledge-summary-hierarchy.py:34-58 | The two nested loops find the first reduction without a saved row, or the at most eight nodes for the synthesis. In what they hand out, the node of a part has exactly the claims of its draft, in order, claim i with the one reference to claim i; a reduced node has the claims saved for it. |
| `ReductionTree.NextHandsOwn` | infra/hetzner/knowledge-summary-hierarchy.py:34-58 | The same of the walk as a value: whatever it hands out, part nodes carry their own draft and refer to it claim by claim. |
| `ReductionTree.LeavesAllow` | infra/hetzner/knowledge-summary-hierarchy.py:11-39 | A reference is allowed by the leaves if and only if it is to a claim that a planned part's draft has. |
| `SummaryJob.DraftTextsAre` | infra/hetzner/knowledge-summary-hierarchy.py:36-39 | What the tree is given of a draft is its texts, in order. |
| `ReductionProperties.PassedChecked` | infra/hetzner/knowledge-summary-hierarchy.py:44-57 | A level is passed only over saved rows that were made for exactly the groups it now has, and whose claims are still acceptable for them. |
| `ReductionProperties.ClimbCovers` | infra/hetzner/knowledge-summary-hierarchy.py:41-57 | Every level reached from a level that covers the parts covers every part exactly once again: part counts are conserved. |
| `ReductionProperties.SynthesisIsGrounded` | infra/hetzner/knowledge-summary-hierarchy.py:11-58 | The walk ends with at most eight nodes whose part counts add up to the number of parts, and any reply accepted against them refers only to claims of the original drafts. |
| `ReductionProperties.NodeIdsDistinct` | infra/hetzner/knowledge-summary-hierarchy.py:41-58 | No two nodes handed to the synthesis share an id. |
| `ReductionProperties.FirstGroupFirst` | infra/hetzner/knowledge-summary-hierarchy.py:41-53 | Over more than eight parts, with nothing saved, the first reduction asked for is that of the first eight parts. |
| `ReductionProperties.MissingIsAGroup` | infra/hetzner/knowledge-summary-hierarchy.py:44-53 | What the walk asks for is a whole group of its level, with at least two nodes. |
| `ReductionProperties.FewerReductionsThanParts` | infra/hetzner/knowledge-summary-hierarchy.py:41-57 | A tree over n parts takes fewer than n reductions. |
| `ReductionProperties.ScheduleIds` | infra/hetzner/knowledge-summary-hierarchy.py:44-49 | The reductions of a tree follow one schedule of distinct ids, level by level and group by group. |
| `ReductionProperties.WalkFollowsSchedule` | infra/hetzner/knowledge-summary-hierarchy.py:41-58 | From rows that hold the first reductions of the schedule, the walk asks for the next one or is ready, and never fails. |
| `ReductionProperties.SavingAdvances` | infra/hetzner/knowledge-summary-hierarchy.py:60-66 | Saving an accepted reply for the group that was asked for moves the schedule on by exactly one. |
| `SummaryPlan.Prepare` | infra/hetzner/knowledge-summary.py:36-78 | Put end to end, the parts show the passages in their order: nothing for one that is blank or was there before, and for any other its blocks of 3000 characters in order, without the blank ones, with no visible character left out; units are numbered from 1. Each part is within the requested size and none is closed early. The plan is refused as too large exactly when it has more than 2048 parts or is written in more than 16 MB. |
| `SummaryPlan.PassagesLaidOut` | infra/hetzner/knowledge-summary.py:52-61 | Where each passage stands among the units, and what stands there, passage by passage and block by block. |
| `SummaryPlan.PackedOneWay` | infra/hetzner/knowledge-summary.py:63-71 | The units and the size admit only one greedy packing. |
| `SummaryPlan.CutPassages` | infra/hetzner/knowledge-summary.py:52-61 | Duplicates and blank passages are skipped, the rest is cut into numbered blocks. |
| `SummaryPlan.Pack` | infra/hetzner/knowledge-summary.py:63-72 | Consecutive units fill numbered parts greedily, losing and reordering nothing. |
| `SummaryPlan.VisibleShownOnce` | infra/hetzner/knowledge-summary.py:58-61 | Every visible character of a passage is shown by exactly one of its units. |
| `SummaryPlan.KeptIsComplete` | infra/hetzner/knowledge-summary.py:54-57 | The kept passages are pairwise different and include every passage that is not blank. |
| `SummaryPlan.AllUnitsBounded` | infra/hetzner/knowledge-summary.py:58-61 | No unit is blank or longer than 3000 characters. |
| `IndexProperties.IndexAgreement` | infra/hetzner/knowledge-catalogue.py:251-341 | After any run of the catalogue and record operations a document has chunks exactly when it is indexed, search rows and chunks correspond one to one with the same text, and an indexed document has the row of its version and no payload of another. |
| `IndexProperties.ReadBack` | infra/hetzner/knowledge-catalogue.py:420-428 | Reading parts 1, 2, … of an indexed version gives exactly the chunk list it was last indexed with, and the number of parts; no other part can be read. |
| `IndexProperties.StepAgrees` | infra/hetzner/knowledge-catalogue.py:219-394 | Every single operation, at any time and with any arguments, keeps the agreement of index, chunks, versions and payloads. |
| `IndexProperties.ContentCounted` | infra/hetzner/knowledge-catalogue.py:424-424 | The number of chunk rows of a document is the length of its content. |
| `Catalogue.Store.RemoveContent` | infra/hetzner/knowledge-catalogue.py:295-301 | Removing a document's content deletes its check, payload, search rows and chunks and no others, and makes every record in force that cites it stale, one revision on, with one event each. |
| `Catalogue.Store.InvalidateCiting` | infra/hetzner/knowledge-catalogue.py:297-298 | Record by record and event by event: a record in force with a citation of the document turns stale with its next revision and exactly that event; every other record and event is as before. |
| `RecordEffects.RemovalInvalidates` | infra/hetzner/knowledge-catalogue.py:295-301 | What the removal of content amounts to: the stale records and their events, and for chunks, search rows, payloads and checks exactly those of the document gone. |
| `Catalogue.Store.InsertChunks` | infra/hetzner/knowledge-catalogue.py:329-331 | The insert loop adds one chunk row and one search row per chunk, numbered in order. |
| `Catalogue.Store.IndexDocument` | infra/hetzner/knowledge-catalogue.py:303-333 | Content of the expected version replaces the old: the row is indexed at the digest, the chunk and search rows are the given chunks in order, the payload is the given one, the version is on record, records on the old content are stale. Identical content changes nothing, nor does a changed source or a bad chunk. |
| `SourceEffects.IndexEffect` | infra/hetzner/knowledge-catalogue.py:303-333 | The same of the store as a value, table by table. |
| `Catalogue.Store.ReplaceContent` | infra/hetzner/knowledge-catalogue.py:326-333 | Old content goes, payload, chunks, version row and indexed state come, in one transaction. |
| `Catalogue.Store.WithdrawDocument` | infra/hetzner/knowledge-catalogue.py:335-341 | A known document keeps its row, withdrawn for the given reason without digest, and loses content and check; the records that cite it are stale. An unknown one changes nothing. |
| `SourceEffects.WithdrawEffect` | infra/hetzner/knowledge-catalogue.py:335-341 | The same of the store as a value, table by table. |
| `Catalogue.Store.RecordSourceCheck` | infra/hetzner/knowledge-catalogue.py:357-394 | A check of exactly the row it was made for is accepted. Gone or denied: the row is withdrawn with that reason, content is gone, citing records are stale, nothing is verified. Unavailable: everything stays, the last verification too. Changed: content goes and the row waits under its new fingerprint. Unchanged: verified now. |
| `SourceEffects.CheckEffect` | infra/hetzner/knowledge-catalogue.py:370-394 | The same of the store as a value, outcome by outcome and table by table; no other row or check changes. |
| `Catalogue.Store.Supersede` | infra/hetzner/knowledge-catalogue.py:384-388 | A source that changed keeps its row under the new fingerprint, without digest, loses its content and its citing records and nothing else; every other row is as before. |
| `Catalogue.Store.ObserveFile` | infra/hetzner/knowledge-catalogue.py:251-266 | A file seen by a scan is inserted or brought up to date. The same fingerprint keeps content, digest and state; another drops content, check and digest and queues the row again; a row withdrawn for want of access or scope stays withdrawn in either case. |
| `SourceEffects.ObservedEffect` | infra/hetzner/knowledge-catalogue.py:251-266 | The same of the store as a value, table by table. |
| `Catalogue.Store.Reclassify` | infra/hetzner/knowledge-ingest.py:212-229 | Ingestion moves a row that waits, and has no content, to another waiting state; an indexed or withdrawn row, and everything else, stays as it is. |
| `Catalogue.Store.ReadDocument` | infra/hetzner/knowledge-catalogue.py:420-428 | Returns a part exactly when that part of that indexed version exists. |
| `CitationProperties.LiveCitations` | infra/hetzner/knowledge-derived.py:31-154 | After any run, every citation of a proposed or confirmed record names a document indexed at exactly the cited digest, with the quote letter for letter at the cited place: in a segment or cell of the structured content where there is one of that digest, in a chunk otherwise. |
| `CitationProperties.StepLive` | infra/hetzner/knowledge-catalogue.py:295-394 | Every single operation keeps all records in force backed by current content. |
| `CitationProperties.RemovalLive` | infra/hetzner/knowledge-catalogue.py:295-301 | Removing content leaves no record in force that cites the document, and all other citations intact. |
| `CitationProperties.ProposalLive` | infra/hetzner/knowledge-derived.py:71-88 | A proposal that is let in is backed by what is indexed at that moment. |
| `CitationProperties.CorrectionLive` | infra/hetzner/knowledge-derived.py:134-145 | The replacement of a corrected record carries live citations. |
| `RecordProperties.EventLogRebuilds` | infra/hetzner/knowledge-derived.py:54-154 | After any run the event table holds each revision of each record from 1 on exactly once and nothing else, and folding a record's actions along the legal life cycle gives its revision and status. |
| `RecordProperties.LastEventTells` | infra/hetzner/knowledge-derived.py:54-154 | After any run each revision of a record has exactly one event; only the first files it, and the last one tells its status. |
| `RecordProperties.OneConfirmedAnswer` | infra/hetzner/knowledge-derived.py:113-121 | After any run at most one record per kind, entity and topic is confirmed, transport keys are unique, and a record is corrected at most once. |
| `RecordProperties.SettledNeverLeft` | infra/hetzner/knowledge-derived.py:105-154 | Later operations never lose a record, change what it says or lower its revision, and leave rejected, deleted, superseded and stale records untouched. |
| `RecordProperties.RejectionLasts` | infra/hetzner/knowledge-derived.py:68-70 | Once a proposal was rejected or deleted, no later proposal of the same body changes anything, whatever happened in between. |
| `RecordProperties.CorrectionLasts` | infra/hetzner/knowledge-derived.py:72-80 | A corrected statement never comes back by a proposal on the source versions it was corrected on. |
| `TombstoneProperties.RejectedReturnsExactly` | infra/hetzner/knowledge-derived.py:68-70 | From any reachable state in which a body was rejected or deleted, a step files that body again if and only if it is a correction that goes through and whose content, with what it takes over, is that body. |
| `TombstoneProperties.CorrectedReturnsExactly` | infra/hetzner/knowledge-derived.py:72-80 | From any reachable state in which a statement was corrected on these source versions, a step files it again on them if and only if it is a correction that goes through, of a record on these versions, to that content. |
| `TombstoneProperties.CorrectionRevives` | infra/hetzner/knowledge-derived.py:125-154 | It happens: propose, reject, propose another, correct it to the first; the run ends with a confirmed record of the rejected body. |
| `TombstoneProperties.CorrectionUndone` | infra/hetzner/knowledge-derived.py:125-154 | It happens: a correction corrected back ends with a confirmed record of the corrected statement on the same versions. |
| `RecordProperties.StepKept` | infra/hetzner/knowledge-derived.py:54-154 | Every operation keeps log, uniqueness and single confirmation together. |
| `RecordProperties.InvalidationKept` | infra/hetzner/knowledge-catalogue.py:295-301 | A source change moves each active citing record to stale with exactly one event. |
| `RecordProperties.ConfirmedSound` | infra/hetzner/knowledge-derived.py:113-121 | Confirming is sound because every rival was superseded first. |
| `Catalogue.Store.Propose` | infra/hetzner/knowledge-derived.py:54-88 | A proposal is filed exactly when it is well stated, its key and identifier are free, its body was not rejected or deleted, every quote stands in an indexed version verified within a day, and the statement was not corrected on these versions. One record is then new, proposed at revision 1, with its quotes and one event. A known key with the same body is recognised; anything else is refused, and nothing changes. |
| `RecordEffects.ProposalEffect` | infra/hetzner/knowledge-derived.py:54-88 | What a filed proposal amounts to, for every record, quote and event. |
| `RecordEffects.FileableExactly` | infra/hetzner/knowledge-derived.py:54-82 | The checks in the program's order let in exactly the proposals that meet these conditions. |
| `RecordEffects.VerifiedIsBacked` | infra/hetzner/knowledge-derived.py:31-52 | A citation verifies exactly when its document is indexed at the digest, its verification, or its indexing where there is no check, is at most a day old, and the quote stands at the cited place. |
| `Catalogue.Store.InsertDependencies` | infra/hetzner/knowledge-derived.py:85-86 | One dependency per citation. |
| `Catalogue.Store.SupersedeRivals` | infra/hetzner/knowledge-derived.py:113-119 | Exactly the other confirmed answers to the same question are superseded, each with its next revision and one event; every other record, the one decided on too, is untouched. |
| `RecordEffects.SupersedingEffect` | infra/hetzner/knowledge-derived.py:113-119 | The same of the store as a value, for every record and every event. |
| `Catalogue.Store.Review` | infra/hetzner/knowledge-derived.py:105-123 | A decision goes through exactly for an authorized reviewer who saw the current revision of a record in force whose every quote is still backed. The record is then confirmed, rejected or deleted as decided, one revision on, with that one event; a confirmation supersedes exactly its rivals, with one event each, and nothing else changes. |
| `RecordEffects.ReviewEffect` | infra/hetzner/knowledge-derived.py:113-123 | The same of the store as a value, for every record and event. |
| `RecordEffects.ReviewableExactly` | infra/hetzner/knowledge-derived.py:105-112 | The checks in the program's order let through exactly these reviews. |
| `RecordEffects.CorrectableExactly` | infra/hetzner/knowledge-derived.py:125-138 | And exactly these corrections: besides, new acceptable content, a record with quotes, and a free identifier and key. |
| `Catalogue.Store.CitationsOf` | infra/hetzner/knowledge-derived.py:94-94 | Lists each citation of a record once. |
| `RecordEffects.ListsQuotes` | infra/hetzner/knowledge-derived.py:94-94 | Such a list holds exactly the quotes of the record, each once, with the path of the document where it is known. |
| `Catalogue.Store.Correct` | infra/hetzner/knowledge-derived.py:125-154 | A correction closes the old record and its rivals and files a confirmed replacement with the same citations, or changes nothing. |
| `Catalogue.Store.CloseCorrected` | infra/hetzner/knowledge-derived.py:146-152 | The corrected record and its rivals are superseded, each with its next revision and its own event; every other record and event is as before. |
| `Catalogue.Store.FileCorrection` | infra/hetzner/knowledge-derived.py:139-153 | Besides that, one record is new: confirmed, at revision 1, on the same question, with the new content, the old record's quotes, one event, and the note of what it corrects; no other row changes. |
| `RecordEffects.CorrectionEffect` | infra/hetzner/knowledge-derived.py:139-153 | The same of the store as a value, for every record, event, dependency and note. |
| `ScanProperties.PagesContiguous` | infra/hetzner/knowledge-catalogue.py:219-269 | In any scan the recorded pages of each folder follow one another from 0 without gap or replay, the cursor stands at their end, and each folder seen has its own row. |
| `ScanProperties.ExactlyOneRoot` | infra/hetzner/knowledge-catalogue.py:188-200 | Every folder of a scan lies under exactly one of its accepted roots. |
| `ScanProperties.OneRootOnly` | infra/hetzner/knowledge-catalogue.py:192-192 | Two roots accepted together never hold the same folder. |
| `ScanProperties.FolderOutcome` | infra/hetzner/knowledge-catalogue.py:267-283 | A folder is complete exactly when its last page was recorded and no limited page was recorded since its last failure; it waits exactly when it neither ended nor was given up. |
| `ScanProperties.CompleteMeansUnlimited` | infra/hetzner/knowledge-catalogue.py:267-282 | A complete folder had no limited page if and only if no failure was recorded after a limited page of it. |
| `ScanProperties.LimitedPageForgotten` | infra/hetzner/knowledge-catalogue.py:267-282 | The exception exists: a limited page, a failure and a clean last page leave a folder complete. |
| `ScanProperties.FinishTold` | infra/hetzner/knowledge-catalogue.py:286-293 | A finished scan is observed exactly when every folder row is complete, and incomplete otherwise. |
| `ScanProperties.FinishedForever` | infra/hetzner/knowledge-catalogue.py:227-291 | After a scan has finished, no page, failure or second finish changes it. |
| `ScanJournal.Journal.StartScan` | infra/hetzner/knowledge-catalogue.py:188-200 | A scan starts with one fresh row per root exactly when the roots are acceptable and no other scan runs. |
| `ScanJournal.Journal.RecordPage` | infra/hetzner/knowledge-catalogue.py:219-269 | The page at the cursor of a waiting folder is recorded: the cursor moves over what was sent; the folder is unstable if the page was limited or repeats an item, and ends complete or incomplete with the last page; new folders wait from their start, items are remembered, file rows brought up to date. Any other page is refused with nothing changed. |
| `ScanJournal.PageEffect` | infra/hetzner/knowledge-catalogue.py:219-269 | The same of the journal as a value, for every folder and every item seen. |
| `ScanJournal.FilesAreSeen` | infra/hetzner/knowledge-catalogue.py:251-266 | Each file of a page has its row brought up to what was seen, and no other row changes. |
| `ScanJournal.Journal.RecordItems` | infra/hetzner/knowledge-catalogue.py:241-266 | The loop over the items of a page notices repeats, adds folders once and observes files in order. |
| `ScanJournal.Journal.DirectoryFailed` | infra/hetzner/knowledge-catalogue.py:271-284 | A failure counts one attempt, replaces the reason, and gives up at the retry limit. |
| `ScanJournal.Journal.FinishScan` | infra/hetzner/knowledge-catalogue.py:286-293 | Finishing needs a running scan without waiting folders. |
| `ScanJournal.PageFor` | infra/hetzner/knowledge-inventory.py:71-93 | From a source reply to a page: the admitted items in order, a cursor over all that was sent, limited exactly when something was withheld or denied. |
| `ScanJournal.AdmittedExactly` | infra/hetzner/knowledge-inventory.py:71-93 | What is admitted is what is in scope and no reparse point, in order. |
| `AudienceRules.NearestExactly` | infra/hetzner/knowledge-publish.py:51-57 | Choosing the longest root as written gives the nearest rule for every source if and only if written lengths follow the nesting of the keys. |
| `AudienceRules.EvenlyKeyedNests` | infra/hetzner/knowledge-publish.py:51-57 | In the ordinary case, where no key differs in length from its root, the choice is always the nearest root, and the order of the rules does not matter. |
| `AudienceRules.NestedRuleMissed` | infra/hetzner/knowledge-publish.py:51-57 | It can fail: where lower-casing lengthens a root, every source below an excluded folder gets the outer audience. |
| `AudienceRules.ResolveAudience` | infra/hetzner/knowledge-publish.py:51-57 | The program's search returns the audience of the first of the longest covering rules, or none. |
| `AudienceRules.OrderDoesNotMatter` | infra/hetzner/knowledge-publish.py:51-57 | With strictly growing lengths the order of the rules does not change any audience. |
| `AudienceRules.NullExcludes` | infra/hetzner/knowledge-publish.py:45-57 | A nested rule without audience excludes what lies nearest to it. |
| `Publication.Publisher.Publish` | infra/hetzner/knowledge-publish.py:70-144 | Bounded or not, and even when a scope is refused half-way, no partition is left with anything but current versions of its own audience's sources, and what differs from the end of the first phase is an indexed source of that audience, verified by its check, or indexed where there is none, within the last day. An unbounded run leaves every such source shown, with the operator's text if and only if its row was not up to date at the start or had that text already. The report counts exactly the sources that had to be copied, up to the limit. |
| `Publication.Publisher.PublishOne` | infra/hetzner/knowledge-publish.py:115-139 | One source is refreshed or copied into its partition: the row shows the operator's version with its structured content and its check, and if it did not before, the records on the old content are stale. Its text there is then the operator's if and only if the row was not up to date or had that text already; rows, payloads, checks and chunks of all other sources are as before. |
| `Publication.Publisher.ReconcileAll` | infra/hetzner/knowledge-publish.py:81-97 | The first phase withdraws from every partition exactly what no longer belongs there. |
| `Publication.Publisher.Reconcile` | infra/hetzner/knowledge-publish.py:91-95 | In one partition, a row that shows the operator's version of a source of the audience stays, with payload, check and chunks; any other is withdrawn with nothing left of it, and exactly the records in force that cite such a row are stale, with one event each. |
| `Publication.ReconciledText` | infra/hetzner/knowledge-publish.py:91-95 | For the sources of its audience the withdrawals change neither whether a row is up to date nor the text behind it. |
| `KeptText.IndexedAgain` | infra/hetzner/knowledge-publish.py:120-125 | When the operator indexes the same version again with the same structured content, the published row still counts as up to date, and has the new text if and only if it is the old one. |
| `KeptText.OldTextKept` | infra/hetzner/knowledge-publish.py:120-125 | It happens: after a run that indexes a version twice with different chunks, the copy of the first counts as up to date and shows the first. |
| `KeptText.RunHealthy` | infra/hetzner/knowledge-catalogue.py:219-394 | Any run of a catalogue leaves a store from which publication may read. |
| `Publication.ReadContent` | infra/hetzner/knowledge-publish.py:133-133 | The text copied is the operator's chunk list. |
| `Publication.OnePartitionOnly` | infra/hetzner/knowledge-publish.py:91-95 | After publication no source is live in two partitions. |
| `Publication.ShownByNearestRule` | infra/hetzner/knowledge-publish.py:51-95 | What a partition shows lies nearest to a rule of its audience, where lengths follow nesting. |
| `Publication.CopiedAgrees` | infra/hetzner/knowledge-publish.py:126-135 | Although the upsert leaves a pending row over old content for a moment, the copy ends with index and chunks in agreement. |
| `Publication.CopiedLive` | infra/hetzner/knowledge-publish.py:126-135 | A copy leaves no partition record in force without its quotes. |
| `RecoveryGate.GateOpensOnlyChecked` | infra/hetzner/knowledge-recovery.py:50-151 | Over any sessions, batches, policy changes and crashes after a restore: when the gate is unlinked, every indexed document with an audience under the policy read again was found present at its indexed digest within that policy's generation, not before it began and within a day of the second listing. No assumption on the clock is needed. |
| `RecoveryGate.InForceExactly` | infra/hetzner/knowledge-recovery.py:131-149 | The policy on the host at the unlink is the one that was checked if and only if none was set after the re-read, or that one was set back. |
| `RecoveryGate.OpenedUnderAnotherPolicy` | infra/hetzner/knowledge-recovery.py:131-149 | The other case exists: a policy set between re-read and unlink is in force when the gate opens, and what it publishes was never checked. |
| `RecoveryGate.GateOpenedOnce` | infra/hetzner/knowledge-recovery.py:126-151 | A gate found open was unlinked once, by a session that had read the policy again and found nothing waiting a second time, and stayed open from then on. |
| `RecoveryGate.SightingsAreChecks` | infra/hetzner/knowledge-recovery.py:100-117 | A sighting is recorded only by a check that found that digest, in the generation then in progress. |
| `RecoveryGate.StepKeeps` | infra/hetzner/knowledge-recovery.py:50-151 | Every durable step keeps each counting verification backed by a sighting of its generation. |
| `RecoveryGate.Recovery.Enter` | infra/hetzner/knowledge-recovery.py:50-80 | A session over another policy or backup voids every check of an indexed document before it records the new generation; one over the same goes on with it and changes nothing. |
| `RecoveryGate.Recovery.Batch` | infra/hetzner/knowledge-recovery.py:93-123 | Of the published documents not verified in this generation and within a day, a batch checks the longest unchecked first, up to its limit, and all of them unless one that ends it comes first: the time is up, the source is busy, or the answer is refused. Row and check of each are what its answer makes of them, durable on their own; those of all others are as before. |
| `RecoveryGate.Recovery.CheckDocument` | infra/hetzner/knowledge-recovery.py:100-118 | One outcome is recorded by the store's own transaction. |
| `RecoveryGate.Recovery.Finalize` | infra/hetzner/knowledge-recovery.py:126-151 | The gate goes if and only if every published document was verified in this generation and within a day, publication ends unbounded, the policy read again and its scopes are unchanged, and all is still verified; the policy may have changed again by then. Readers then find every indexed source with an audience in its partition in the operator's version, and nothing else. |
| `RecoveryGate.AwaitingExactly` | infra/hetzner/knowledge-recovery.py:87-90 | What awaits a check is exactly the published documents not verified since the generation began, at their digest and within a day. |
| `SchedulerProperties.DailyBudget` | infra/hetzner/knowledge-generation-scheduler.py:48-66 | Across any sweeps, crashes at any write and clocks that go back, calls on a recorded day never exceed the reservations written for it, nor those the maximum. |
| `SchedulerProperties.VisitsGoRound` | infra/hetzner/knowledge-generation-scheduler.py:100-124 | With fixed grants the durable cursor goes round the sorted jobs again and again, over any sweeps and crashes and whatever steps do. |
| `SchedulerProperties.EveryJobInTurn` | infra/hetzner/knowledge-generation-scheduler.py:100-124 | Any stretch of as many visits as there are jobs visits each job exactly once. |
| `SchedulerProperties.SweepMovesOn` | infra/hetzner/knowledge-generation-scheduler.py:58-124 | After any life so far, a sweep with jobs, steps and time moves the cursor to the next job of the ring, unless the budget of the day is used up; on a day later than the recorded one it never is. |
| `SchedulerProperties.LifeLawful` | infra/hetzner/knowledge-generation-scheduler.py:98-137 | Every event of every sweep, cut anywhere, keeps the accounting: cursor writes spend nothing, a call follows its own reservation. |
| `GenerationScheduler.Scheduler.Sweep` | infra/hetzner/knowledge-generation-scheduler.py:69-137 | A sweep starts after the cursor and goes on until the jobs are through or its steps, its time or the budget of the day hold it, and not before; a later day has an unused budget. It writes exactly the cursor moves, reservations and calls of these visits, and its report counts how they ended; steps with one call are never refused for want of budget. |
| `GenerationScheduler.Scheduler.Visit` | infra/hetzner/knowledge-generation-scheduler.py:121-126 | The cursor is moved durably before the step runs. |
| `GenerationScheduler.Scheduler.RunStep` | infra/hetzner/knowledge-generation-scheduler.py:106-115 | Each call is reserved durably before it is made; a reservation whose write fails, before or after it replaced the file, makes no call; as many calls are tried as the budget has left, and then no more. |
| `GenerationScheduler.Scheduler.Rotate` | infra/hetzner/knowledge-generation-scheduler.py:101-103 | The two passes over the list put the jobs after the cursor first. |
| `ChannelLease.Quarantine` | infra/hetzner/rdp-read-channel.py:97-130 | However channel starts, legacy starts, closes, crashes and recoveries interleave, an RDP execution starts only when every earlier channel session has given its stop receipt. |
| `ChannelLease.LegacyStarts` | infra/hetzner/rdp-channel-lease.py:13-56 | Over a free lock and no marker, a legacy caller does start. |
| `ChannelLease.OneOutstanding` | infra/hetzner/rdp-channel-lease.py:13-56 | At most one started session is without a receipt at any time. |
| `ChannelLease.MarkerRemovedByReceipt` | infra/hetzner/rdp-channel-lease.py:48-56 | A marker is removed only over the receipt of the session it names; an unreadable one never is. |
| `ChannelLease.OnlyTheReceiptOpens` | infra/hetzner/rdp-channel-lease.py:13-56 | Until the receipt of a session arrives, no number of steps removes its marker. |
| `ChannelLease.ReceiptsStay` | infra/hetzner/rdp-read-channel.py:191-213 | A receipt is never taken back. |
| `ChannelLease.Root.StartSession` | infra/hetzner/rdp-read-channel.py:97-130 | A session starts only under the lock and over no marker; a start that fails after the marker was written leaves the marker. |
| `ChannelLease.Root.CloseSession` | infra/hetzner/rdp-read-channel.py:191-213 | Closing removes the marker exactly when the session's own receipt was read in time, and frees the lock in any case. |
| `ChannelLease.Root.RecoverStopped` | infra/hetzner/rdp-read-channel.py:306-332 | Recovery clears a marker exactly when its session has a receipt and the lock is free. |
| `ReadChannel.CallsKeepTheirSession` | infra/hetzner/rdp-read-channel.py:235-303 | While a call is in flight its session is the channel's own and the counter equals the calls in flight, at most four; the session is open if and only if no close of it has raised. |
| `ReadChannel.CallOnDeadSession` | infra/hetzner/rdp-read-channel.py:291-296 | The other case exists: the reaper's close raises and the next call is given the dead session. |
| `ReadChannel.NeverClosedInUse` | infra/hetzner/rdp-read-channel.py:247-303 | No step closes or replaces a session that other calls still use. |
| `ReadChannel.OneOpenSession` | infra/hetzner/rdp-read-channel.py:247-303 | At most one session is open at any time. |
| `ReadChannel.LeftOpenExactly` | infra/hetzner/rdp-read-channel.py:269-303 | After a close of the channel and any further steps until the last call has ended, the session is open if and only if it was open and in use at the close, was not marked failed before or by a call in flight, and no reaper already past its wait came to it. |
| `ReadChannel.SessionGoneExactly` | infra/hetzner/rdp-read-channel.py:269-303 | Where no close raises, the same condition decides whether a session is still installed. |
| `ReadChannel.LeftOpen` | infra/hetzner/rdp-read-channel.py:291-303 | From then on, unless the channel is closed again, nothing changes what is installed. |
| `ReadChannel.ClosedWhileBusy` | infra/hetzner/rdp-read-channel.py:298-303 | Such a state is reached by one call and one close. |
| `ReadChannel.Channel.EnterCall` | infra/hetzner/rdp-read-channel.py:243-260 | Which calls are entered, busy, unavailable or raise, and what each leaves: a spent session is closed only when idle, and replaced unless that close raises; otherwise the call is turned away with nothing changed. |
| `ReadChannel.EntryIsTable` | infra/hetzner/rdp-read-channel.py:243-260 | The same of the channel as a value, answer by answer. |
| `ReadChannel.Channel.Condemn` | infra/hetzner/rdp-read-channel.py:264-268 | A failed request marks its own session. |
| `ReadChannel.Channel.ExitCall` | infra/hetzner/rdp-read-channel.py:269-279 | The last call out takes a marked session away before it closes it, so that a close that raises leaves nothing installed. |
| `ReadChannel.Channel.ReapIdle` | infra/hetzner/rdp-read-channel.py:291-296 | An idle session is closed, one in use is not; a close that raises leaves it installed and ends the reaper. |
| `ReadChannel.Channel.WakeReaper` | infra/hetzner/rdp-read-channel.py:292-292 | The reaper passes its wait unless the channel is stopped; its turn may come after a stop. |
| `ReadChannel.Channel.Close` | infra/hetzner/rdp-read-channel.py:298-303 | Closing stops new calls and closes the session if nobody uses it. |
| `FolderCodecProperties.FolderRoundTrip` | scripts/nominalia-mail.py:62-89 | Every name that can be encoded, surrogate pairs and all, decodes to itself (section 5.1.3 of RFC 3501). |
| `FolderCodecProperties.WireIsInjective` | scripts/nominalia-mail.py:62-77 | Different names never share a wire form. |
| `FolderCodecProperties.WireWellFormed` | scripts/nominalia-mail.py:62-77 | What is sent is printable ASCII in which every ampersand opens a run that a hyphen closes. |
| `FolderCodecProperties.WireOfPrintable` | scripts/nominalia-mail.py:72-74 | A printable character stands for itself on the wire, and the ampersand for ampersand and hyphen. |
| `FolderCodecProperties.PrintableIsItsOwnForm` | scripts/nominalia-mail.py:72-74 | A printable name without ampersand is its own wire form. |
| `FolderCodecProperties.WireOfRun` | scripts/nominalia-mail.py:68-76 | A run of other characters, as long as it is, stands between ampersand and hyphen as the base64 letters of its UTF-16, with commas for slashes. |
| `FolderCodecProperties.LettersAreBits` | scripts/nominalia-mail.py:71-71 | Each letter stands for the next six bits of the bytes, counted from the front. |
| `FolderCodecProperties.LetterTable` | scripts/nominalia-mail.py:71-71 | The alphabet is A to Z, a to z, 0 to 9, plus and slash, in this order. |
| `FolderCodecProperties.Utf16Written` | scripts/nominalia-mail.py:71-71 | UTF-16 puts the high byte first, and a character beyond 65535 as its two surrogates. |
| `FolderCodecProperties.TaipeiOnTheWire` | scripts/nominalia-mail.py:62-77 | The example of section 5.1.3 of RFC 3501 comes out as printed there. |
| `FolderCodecProperties.PlainTextDecodes` | scripts/nominalia-mail.py:80-89 | Text without ampersand, and text without hyphen, is read as it stands. |
| `FolderCodecProperties.QuotedNameReadsBack` | scripts/nominalia-mail.py:211-221 | A quoted wire name in a listing is read back as the name. |
| `FolderCodecProperties.QuoteRoundTrip` | scripts/nominalia-mail.py:58-59 | Unquoting inverts quoting for every string (section 4.3 of RFC 3501). |
| `FolderCodecProperties.QuotedExactly` | scripts/nominalia-mail.py:58-59 | Quoting puts a backslash before each quote and backslash, and quotes around. |
| `FolderCodecProperties.Base64RoundTrip` | scripts/nominalia-mail.py:68-85 | The lenient base64 decoder inverts the encoder for every byte string. |
| `FolderCodecProperties.Utf16RoundTrip` | scripts/nominalia-mail.py:68-85 | Strict big-endian UTF-16 decoding inverts the encoding. |
| `FolderCodec.EncodeFolder` | scripts/nominalia-mail.py:62-77 | The loop that flushes a pending buffer builds exactly the wire form; it refuses exactly the names that are empty, longer than 500 characters, or contain a line break, a null or a lone surrogate. |
| `ContextRevision.CrashSafeRollback` | scripts/update-company-context.py:48-117 | After any mixture of updates, rollbacks, deaths between and inside writes and removals of temporary files, a rollback is accepted if and only if no temporary file is left; at most one ever is, and without it a rollback ends with exactly the files from before. |
| `ContextRevision.LeftoverExactly` | scripts/update-company-context.py:48-70 | A temporary file is there if and only if an update or rollback that ran died inside a write over it and nobody has removed it since. |
| `ContextRevision.TornUpdateBlocks` | scripts/update-company-context.py:48-70 | It happens: the first write of any update dies half-way; the rollback is refused, and accepted again once the temporary file is removed. |
| `ContextRevision.RollbackRestores` | scripts/update-company-context.py:106-115 | From any state it accepts, an uninterrupted rollback restores every file. |
| `ContextRevision.FullyUpdated` | scripts/update-company-context.py:155-171 | A completed update leaves exactly the expected inventory. |
| `ContextRevision.PlanSound` | scripts/update-company-context.py:129-147 | A receipt names every file that will differ; the others are the same before and after. |
| `ContextRevision.Context.PlanChanges` | scripts/update-company-context.py:123-147 | The names of the documents that are new or different, in order, and the inventory expected afterwards, name by name. |
| `ContextRevision.MergeEffect` | scripts/update-company-context.py:123-147 | The expected inventory has the content of each name's last document, and every other name as it was. |
| `ContextRevision.Context.Update` | scripts/update-company-context.py:118-174 | A dry run writes nothing; only the reviewed plan is applied, with backup and receipt in place before the first write; if nothing stops it, every document of the bundle is there and every other file as before; a run that dies, or finds the bundle changed, leaves a prefix of the writes. |
| `ContextRevision.Context.WriteChanges` | scripts/update-company-context.py:155-172 | File by file, the changes are written in order, until the process dies or a document is no longer what was reviewed; they are complete exactly when neither happens. |
| `ContextRevision.Context.Rollback` | scripts/update-company-context.py:89-117 | A state with an unknown file or a value of neither version is refused unchanged; an accepted one is restored and verified, or left where the process died. |
| `SheetPreview.FairShares` | scripts/xlsx-turn-text.py:217-256 | The shares offered to the sheets never decrease, the first is the n-th part of the budget, and all sheets together stay within it. |
| `SheetPreview.PreviewFits` | scripts/xlsx-turn-text.py:211-274 | For every workbook that gets a preview the compact output stays at least a thousand bytes below the limit: the final size check cannot fire. |
| `SheetPreview.WholeSheetShown` | scripts/xlsx-turn-text.py:236-258 | A sheet whose values fit its share and the cell limit is shown whole, in order, and not marked truncated. |
| `SheetPreview.ShownIsChosen` | scripts/xlsx-turn-text.py:236-258 | Of all values of a sheet that are not empty, in order, one is shown exactly if fewer than 2000 are shown before it and it costs no more than those have left of the share; the sheet is marked as truncated exactly if one is not. |
| `SheetPreview.UnmarkedIsWhole` | scripts/xlsx-turn-text.py:245-251 | A sheet that is not marked as truncated shows all its values. |
| `SheetPreview.ShareOfEach` | scripts/xlsx-turn-text.py:223-235 | The share of each sheet is what the sheets before it have left, divided by the sheets to come. |
| `SheetPreview.BudgetWritten` | scripts/xlsx-turn-text.py:211-221 | The budget is the limit less a thousand and the longer of the two measures of the listing without cells. |
| `SheetPreview.PreviewLength` | scripts/xlsx-turn-text.py:211-274 | The size computed for a preview is the length in bytes of the JSON text that is written, escapes and UTF-8 included. |
| `SheetPreview.FilledRowsWithin` | scripts/xlsx-turn-text.py:236-258 | No sheet keeps more than its share or more than 2000 cells. |
| `SheetPreview.WorkbookPreview` | scripts/xlsx-turn-text.py:196-259 | The preview, or the error the program raises. Each sheet gets what the sheets before have left, divided by the sheets to come, and shows the greedy choice of its values under that share: all of them, unless it is marked as truncated. The preview is marked exactly if a sheet is. The text that is written is short enough. |
| `SheetPreview.ShareOut` | scripts/xlsx-turn-text.py:223-256 | The loop over the sheets recomputes each share from what is left. |
| `SheetPreview.FillSheet` | scripts/xlsx-turn-text.py:234-258 | Rows are read until the cell limit leaves both loops. |
| `SheetPreview.FillRow` | scripts/xlsx-turn-text.py:237-256 | A value that does not fit is passed over, and a later smaller one may still be kept. |
| `SheetPreview.ColumnNumber` | scripts/xlsx-turn-text.py:50-54 | Reads a column label as a number in base 26 without zero. |
| `SheetPreview.ColumnLabel` | scripts/xlsx-turn-text.py:57-62 | Writes a column number as a label. |
| `SheetPreview.LabelNumberRoundTrip` | scripts/xlsx-turn-text.py:50-62 | Reading the label of a number gives the number. |
| `SheetPreview.NumberLabelRoundTrip` | scripts/xlsx-turn-text.py:50-62 | Writing the number of a label gives the label. |
| `SheetPreview.NumberOfLonger` | scripts/xlsx-turn-text.py:50-54 | One letter more is one digit more in base 26, with A for 1 and Z for 26. |

## Left out

- Catalogue.Store.ReadDocument: gives the chunk and the number of parts; the other fields of the answer are the document row's own.
- Catalogue.Store.Propose: the order in which several faults of one statement are reported is not modelled, and malformed citations share one error; the clock is read once per transaction, where the program reads it at each citation.
- Catalogue.Store.RecordSourceCheck: the `issues` row of an unavailable source is left out, as are all `issues` rows, which nothing reads back.
- ScanJournal.Journal.RecordPage: the sticky reason is read together with the cursor, where the program reads it shortly before its transaction.
- Publication.Publisher.Publish: the number of withdrawn rows in the report is not modelled, nor are stray directories, which make the program stop.
- AudienceRules.ResolveAudience: a root written with a trailing backslash passes the bindings check and raises when it is resolved; such bindings are left out.
- RecoveryGate.Recovery.Enter: where restore, live root and source roots may lie, and the operator's lock, which keeps other writers out.
- RecoveryGate.Recovery.Batch: among documents last checked at the same time any order is covered, where the program goes by row number; which documents end a batch (time, a busy source, a damaged original) is an argument; the report's counts are left out.
- RecoveryGate.Recovery.Finalize: the verified receipt, and syncing directories to disk.
- ScanJournal.Journal.DirectoryFailed: the `issues` row of a failed folder is left out.
- GenerationScheduler.Scheduler.Sweep: the preview, which writes nothing, the lock of another sweep and the number of eligible jobs are left out; a cursor write that fails ends the sweep like a crash; that a step makes at most one call is a premise here, and `DispatchProgress.SentOnce` is where it comes from.
- SummaryWorker.Store.Begin: whether a request is too large is a verdict given to it; the request text itself is not built.
- SummaryWorker.Store.Finalize: coverage notes and the text of the proposed record are left out; the record store's answer is an argument.
- SummaryPlan.Prepare: how many bytes a plan is written in is an argument; the extraction payload is left out, and passages are given in order.
- ReductionTree.FindNext: which validation error a damaged saved row raises is collapsed to one.
- FolderCodec.EncodeFolder: folder listings are read one name at a time; attributes and the 500-row limit are left out.
- SheetPreview.WorkbookPreview: reading the archive, shared strings, dates and relationships is left out; a cell comes with its text or with the fact that reading it raises.
- ContextRevision.Context.Update: modes, owners, directories and symbolic links are left out, and so are a second writer, which the program's own documentation excludes, and a death before the receipt is written, after which there is no revision to go back to.
- ChannelLease.Root.CloseSession: an authentic receipt is a fact about the remote session; signatures and keys are left out.
- SQL text, full-text tokenisation and ranking, JSON syntax (but for the length of the preview), regular-expression engines: each is replaced by the relation the code relies on.
- Search results, file search, coverage reports and listings: they only read.
- The upsert of `publish` seen by other operations before its re-indexing: the runs of a catalogue do not include it, publication proves its own end state.
- Chunking, retries and the order of a batch in ingestion, retrieval pages, artifact versions: simpler members of the same kind.
- Document parsers, live RDP control, brokers and sockets, SMTP and IMAP exchanges, web pages and routes, release scripts: foreign effects or shallow predicates.
- File modes, ownership and fsync: a file is replaced whole or not at all.
