# Verified model of the sales-intelligence backend

A Dafny 4.11 model of the parts of the backend whose correctness does not show in one function body: the
promotion ledger and the evidence stores, the two locking protocols, contact discovery, the score and its
explanation, the JSON mappers, and the company-name key. `dafny verify dfyconfig.toml` checks all of it.

## How it is organised

| files | system |
|---|---|
| `PromotionTables`, `PromotionTheory`, `PromotionRuns`, `PromotionReplay`, `PromotionOutcomes`, `PromotionHistory`, `PromotionLedger` | the ledger of promotions and its projection of active signals |
| `VersionedTable`, `ShipmentProvenance`, `EvidenceRepository` | the one-current stores of quality assessments and aggregates, and shipment provenance |
| `LockOrder`, `Ingestion`, `IngestionSteps`, `IngestionRuns`, `IngestionLaws` | advisory locks, and concurrent ingestion of documents under them |
| `JobQueue`, `JobRuns`, `JobOutcomes` | the queue of jobs that workers claim and recover |
| `Text`, `Contacts`, `ContactExtraction`, `ContactRanking` | reading contacts off pages and choosing among them |
| `Rounding`, `ScoreBreakdowns`, `HardGates`, `Qualification`, `Explanation` | scores, gates, the decision and its explanation |
| `JsonValues`, `BreakdownJson`, `AggregateJson` | rows and JSON columns, there and back |
| `CompanyName` | the key under which company names are the same company |

Each database table is a map from identifiers to rows. In the ledger, pending changes become visible to the database
at a `Flush`, and the repository's ghost field `flushed` has a type that only holds states satisfying every
constraint of the schema, so "accepted at every flush" is part of what each method proves. The methods of
`PromotionRepository` and `EvidenceStore` are tied by their `ensures` to functions on tables, and what the system
promises is proved about those functions: the invariant `PromotionTheory.Inv` over every run of batches, and the
refinement `VersionedTable.Refines` over every history of saves. The two protocols are step relations over any number
of transactions. Clocks, new identifiers, SHA-256, regular expressions, HTML decoding, title classification and the
text of dates are arguments or functions about which only the stated contract is known (`Contacts.Faithful`,
`JsonValues.Faithful`; hash collisions are allowed). Floats are reals.

## What the proofs brought out

* Replaying a stored batch leaves the ledger exactly as it was if and only if all of its rows are current. A batch
  that names two different rows of one group therefore rewrites timestamps on every replay, although its links stay as
  they are (`PromotionReplay.ReplayIsNothingIff`, `PromotionReplay.RivalRowsAreRewritten`,
  `PromotionReplay.ReplayTwiceKeepsLinks`).
* Saving an evidence version that the mapper refuses (a blank fingerprint or identity) raises only after the current
  row has been superseded, so the caller's rollback is what keeps the group's current row
  (`EvidenceRepository.RefusedSaveLosesCurrent`). Saving a new version that is marked as not current leaves the group
  without a current row; the last saved key is the current one exactly when the save was marked current or named a
  known key (`VersionedTable.LastSaveIsKeptIff`).
* One call of `lock_ingestion_scope` takes its keys in ascending order, but a research run ingests all of its pages in
  one transaction, so the order is ascending only within a page. Two runs over the same two pages in opposite orders can
  deadlock (`IngestionRuns.OppositeOrdersCanDeadlock`); a sequence of keys can deadlock with some ordered transaction if and
  only if it is not ascending as a whole (`LockOrder.DeadlockIffNotAscending`).
* A worker that aborts hands its job back, so a later claim can get a job that comes before one still held, although
  that job was there and due all the time (`JobRuns.AbortBreaksTheOrder`). That, and a job that was added, written or
  not yet due when the other was claimed, are the only ways (`JobRuns.ClaimsFollowTheOrder`).
* The completeness threshold q of a policy can keep a confident company with a qualifying score from being qualified if
  and only if q is positive and the score threshold is below q * (100 + 1e-6) + 7e-6
  (`Qualification.CoverageBlocksIff`); under the default policy it never does.
* The tolerance of 1e-6 lets a valid breakdown have a negative total, which is no legal score; for the deterministic
  scorer, which earns exactly weight times value, that cannot happen (`ScoreBreakdowns.ScoreIsLegalIff`,
  `ScoreBreakdowns.ScorerNeverFails`).
* A mailbox is classified without its separators but ranked with them: `supply-chain@` counts as a department and ranks
  as an unknown mailbox (`ContactRanking.SupplyChainMailbox`). The ignored prefix `no-reply` can never match
  (`ContactRanking.DashedPrefixIgnoresNothing`).
* Of the company suffixes, the entries with a dot or a space never match a token: `Acme L.L.C.` is not `Acme`
  (`CompanyName.EntryIsIgnoredIff`).
* An aggregate with a blank trend is not a fixed point of saving and loading the first time, only from the second time
  on (`AggregateJson.ReloadTwiceIff`, `AggregateJson.ReloadThriceSettles`).
* The explanation reads `hard_gate_hits` off the breakdown, which has no such field, so that list is always empty; the
  model leaves it out.

## Model

| member | source | states |
|---|---|---|
| PromotionLedger.PromotionRepository.ApplyCandidates | apps/backend/app/database/repositories/import_evidence_promotion.py:45-72 | on consistent tables a batch has exactly the outcome `Apply` describes, the refusals write nothing, and neither a doubled row nor a missing projection is ever met |
| PromotionLedger.PromotionRepository.ExistingCandidate | apps/backend/app/database/repositories/import_evidence_promotion.py:74-84 | the lookup finds the one row with the candidate's aggregate, kind and fingerprint, or none |
| PromotionLedger.PromotionRepository.ActivateExisting | apps/backend/app/database/repositories/import_evidence_promotion.py:86-115 | an old row is revived after the current one is retired; its projection is always there; the one flush on the way is accepted |
| PromotionLedger.PromotionRepository.CreateVersion | apps/backend/app/database/repositories/import_evidence_promotion.py:117-200 | the row, its signal and the retirement of the old row are flushed in this order, each flush accepted exactly when `Create` succeeds |
| PromotionLedger.PromotionRepository.StoreVersion | apps/backend/app/database/repositories/import_evidence_promotion.py:117-186 | the new row and its signal are first stored out of use |
| PromotionLedger.PromotionRepository.SupersedeCurrent | apps/backend/app/database/repositories/import_evidence_promotion.py:214-249 | the current rows of the group are retired in favour of the heir and nothing else changes |
| PromotionLedger.PromotionRepository.ReplayBatch | apps/backend/app/database/repositories/import_evidence_promotion.py:55-64 | replaying stored rows never fails and reports nothing created |
| PromotionLedger.PromotionRepository.CreateBatch | apps/backend/app/database/repositories/import_evidence_promotion.py:65-72 | new versions are created one by one and the batch fails as the first failing one does |
| PromotionLedger.PromotionRepository.Flush | apps/backend/app/database/models/import_evidence.py:282-396 | the database accepts a state exactly when all its immediate constraints hold: unique keys, row checks, and links to stored rows |
| PromotionLedger.OneRowRetired | apps/backend/app/database/repositories/import_evidence_promotion.py:214-249 | where a group has one current row, retiring that row is retiring the group's current rows |
| PromotionTheory.SupersessionEndsAtCurrent | apps/backend/app/database/repositories/import_evidence_promotion.py:214-249 | from any promotion the supersession links end at the unique current row of its company and kind |
| PromotionTheory.SupersessionNeverCycles | apps/backend/app/database/repositories/import_evidence_promotion.py:214-249 | following the links never comes back to a row |
| PromotionTheory.LeadsOnce | apps/backend/app/database/repositories/import_evidence_promotion.py:214-249 | the end of the links and their number are determined by the row |
| PromotionTheory.ReRoot | apps/backend/app/database/repositories/import_evidence_promotion.py:86-115 | a path of links to the old current row ends, after a hand-over, at the row that took over, even if that row was on the path |
| PromotionTheory.OtherGroupsKeepPaths | apps/backend/app/database/repositories/import_evidence_promotion.py:214-249 | a hand-over leaves the links of other groups alone |
| PromotionTheory.HandOverKeepsInv | apps/backend/app/database/repositories/import_evidence_promotion.py:86-115 | retiring the current row and raising another keeps constraints, links, roots and the agreement with the signals |
| PromotionTheory.AgreementMakesActiveUnique | apps/backend/app/database/models/import_evidence.py:375-386 | one active signal for each group follows from one current row and the agreement of the tables |
| PromotionTheory.FirstFlushAccepts | apps/backend/app/database/repositories/import_evidence_promotion.py:117-157 | the flush after inserting the inactive row violates a constraint exactly when the row itself does |
| PromotionTheory.SecondFlushAccepts | apps/backend/app/database/repositories/import_evidence_promotion.py:158-186 | the flush after inserting the inactive signal is accepted |
| PromotionTheory.RetiringFlushAccepts | apps/backend/app/database/repositories/import_evidence_promotion.py:188-200 | the flush between retiring the old row and raising the new one is accepted |
| PromotionTheory.CommitAccepts | apps/backend/app/database/models/import_evidence.py:319-391 | a consistent ledger meets the deferred foreign keys between the two tables, so the commit is accepted too |
| PromotionTheory.NewVersionIsReady | apps/backend/app/database/repositories/import_evidence_promotion.py:117-186 | a stored version out of use can take over its group |
| PromotionTheory.CreateKeepsInv | apps/backend/app/database/repositories/import_evidence_promotion.py:117-212 | creating a version keeps the whole invariant |
| PromotionTheory.ReplayKeepsInv | apps/backend/app/database/repositories/import_evidence_promotion.py:86-115 | replaying a row keeps the whole invariant |
| PromotionRuns.StoredRowIsUnique | apps/backend/app/database/repositories/import_evidence_promotion.py:74-84 | a candidate has one stored row at most |
| PromotionRuns.CreateAllKeepsInv | apps/backend/app/database/repositories/import_evidence_promotion.py:65-72 | a new batch keeps the invariant, rewrites no recorded content, and records each candidate, column by column, under its identifier and in its signal |
| PromotionRuns.CreateSucceedsIff | apps/backend/app/database/repositories/import_evidence_promotion.py:117-157 | a version is created exactly for an input that is not stored, a fingerprint that is not blank, a score within 0 and 100 and, for a promotion, a score and a verified or usable quality |
| PromotionRuns.CreatedRecords | apps/backend/app/database/repositories/import_evidence_promotion.py:117-200 | a new version and its signal hold every column of the candidate, a signal exists exactly for a promoted one, and the version has the candidate's status |
| PromotionRuns.CreateAllOnlyIn | apps/backend/app/database/repositories/import_evidence_promotion.py:65-72 | groups the batch does not name keep their rows |
| PromotionRuns.CreateAllMakesCurrent | apps/backend/app/database/repositories/import_evidence_promotion.py:65-72 | of the new rows the last of each kind ends up current |
| PromotionRuns.ReplayAllKeepsInv | apps/backend/app/database/repositories/import_evidence_promotion.py:55-64 | a replay keeps the invariant and adds no row to either table |
| PromotionReplay.ReplayAllMakesCurrent | apps/backend/app/database/repositories/import_evidence_promotion.py:55-64 | of the replayed rows the last of each group ends up current |
| PromotionReplay.ReplayAllLeavesAlone | apps/backend/app/database/repositories/import_evidence_promotion.py:55-64 | rows outside the replayed groups, and current rows that are replayed alone, are left exactly as they were |
| PromotionReplay.ReplayIsNothingIff | apps/backend/app/database/repositories/import_evidence_promotion.py:55-64 | a replay changes nothing if and only if all its rows are current |
| PromotionReplay.RivalRowsAreRewritten | apps/backend/app/database/repositories/import_evidence_promotion.py:55-64 | a replay that names two different rows of one group changes the tables, whatever they hold |
| PromotionReplay.ReplayTwiceKeepsLinks | apps/backend/app/database/repositories/import_evidence_promotion.py:55-64 | a second replay of any batch, repeated kinds included, keeps every current flag and every link |
| PromotionReplay.ReplayReplaces | apps/backend/app/database/repositories/import_evidence_promotion.py:55-64 | a replay that names another row of its group takes a row out of use |
| PromotionReplay.ReplayLeavesHistory | apps/backend/app/database/repositories/import_evidence_promotion.py:55-64 | a superseded row the replay does not name is left exactly as it was |
| PromotionOutcomes.BatchIsAccountedFor | apps/backend/app/database/repositories/import_evidence_promotion.py:45-115 | a batch leaves a row exactly as it was, makes it current as promoted or as its candidate asks, or supersedes it, at this time, in favour of a row of the batch |
| PromotionHistory.ApplyKeepsInv | apps/backend/app/database/repositories/import_evidence_promotion.py:45-72 | every applied batch keeps the invariant; it created rows exactly as it reports, each recording its candidate; and every row it wrote is accounted for |
| PromotionHistory.RunKeepsInv | apps/backend/app/workflows/import_evidence/promotion.py:52-68 | in every state of every run of batches the invariant holds, and recorded rows are never removed or rewritten |
| PromotionHistory.AppliedRowsAreCurrent | apps/backend/app/database/repositories/import_evidence_promotion.py:45-72 | after a batch of distinct kinds all its rows are current |
| PromotionHistory.ApplyTwice | apps/backend/app/database/repositories/import_evidence_promotion.py:45-72 | applying a batch of distinct kinds twice leaves the tables unchanged the second time, names the same rows and reports nothing created |
| PromotionHistory.ReplayOlderBatch | apps/backend/app/database/repositories/import_evidence_promotion.py:45-72 | replaying, anywhere later in a run, a batch stored before makes its rows current again without adding a row |
| PromotionHistory.PartialBatchRefused | apps/backend/app/database/repositories/import_evidence_promotion.py:65-66 | a batch is refused as partial exactly when some but not all of it is stored |
| PromotionHistory.ActiveSignalsAreProjections | apps/backend/app/database/repositories/import_evidence_promotion.py:283-292 | a company's active signals are exactly the projections of its current promotions that own one, in the same order |
| PromotionHistory.CurrentPromotionsAreAll | apps/backend/app/database/repositories/import_evidence_promotion.py:255-266 | the list of current promotions holds exactly the company's current rows |
| PromotionHistory.ActiveSignalsAreAll | apps/backend/app/database/repositories/import_evidence_promotion.py:283-292 | the list of active signals holds exactly the company's active rows |
| PromotionHistory.ActiveOfIsOwned | apps/backend/app/database/repositories/import_evidence_promotion.py:283-292 | a group has an active signal exactly when its current row owns one, and it is that one |
| EvidenceRepository.EvidenceStore.SaveQualityAssessment | apps/backend/app/database/repositories/import_evidence.py:39-73 | a known fingerprint revives its row and answers with it, a new one becomes the current row, and what a refused save leaves behind |
| EvidenceRepository.EvidenceStore.SaveAggregate | apps/backend/app/database/repositories/import_evidence.py:101-139 | the same for the aggregate of an importer and window, the date being part of the key |
| EvidenceRepository.EvidenceStore.GetCurrentQualityAssessment | apps/backend/app/database/repositories/import_evidence.py:75-86 | the current assessment is the one the history of saves kept, with what was first saved under its fingerprint |
| EvidenceRepository.EvidenceStore.SaveNormalizedShipment | apps/backend/app/database/repositories/import_evidence.py:228-291 | a shipment is stored once for each fingerprint and the raw record joins its provenance |
| EvidenceRepository.RefusedSaveLosesCurrent | apps/backend/app/database/repositories/import_evidence.py:58-62 | a refused save leaves its group without a current row, and the table as it was only if there was none; other groups keep theirs |
| VersionedTable.RunRefines | apps/backend/app/database/repositories/import_evidence.py:39-73 | after any sequence of saves the table is what the history means: first content for each key, kept key for each group |
| VersionedTable.SaveRefines | apps/backend/app/database/repositories/import_evidence.py:101-139 | one save takes the meaning of a history to the meaning of the longer one |
| VersionedTable.RunKeepsRows | apps/backend/app/database/repositories/import_evidence.py:39-73 | no row is ever removed or given other content |
| VersionedTable.SaveStamps | apps/backend/app/database/repositories/import_evidence.py:46-73 | a save stamps exactly the rows it takes out of use, clears the stamp of the one it revives and leaves every other row as it was |
| VersionedTable.CurrentRowIsKept | apps/backend/app/database/repositories/import_evidence.py:75-86 | a group has a current row exactly when its history keeps a key; the row is the only one and holds what was first saved under that key |
| VersionedTable.LastSaveIsKeptIff | apps/backend/app/database/repositories/import_evidence.py:46-62 | the last saved key is the kept one if and only if the save was marked current or named a known key |
| ShipmentProvenance.RunRefines | apps/backend/app/database/repositories/import_evidence.py:228-291 | after any arrivals a shipment is the first one of its fingerprint and lists every raw record seen with it once, in the order first seen |
| ShipmentProvenance.ArrivalRefines | apps/backend/app/database/repositories/import_evidence.py:228-291 | one arrival keeps that provenance exact |
| LockOrder.StepKeepsInv | apps/backend/app/database/repositories/research.py:43-44 | no key is ever held by two transactions |
| LockOrder.AscendingNeverDeadlocks | apps/backend/app/database/repositories/research.py:36-44 | transactions that take their keys in ascending order never deadlock, however many and whatever keys collide |
| LockOrder.AscendingAlwaysProgresses | apps/backend/app/database/repositories/research.py:36-44 | while one is unfinished, one can step |
| LockOrder.RunsAreBounded | apps/backend/app/database/repositories/research.py:43-44 | every run is at most as long as the keys and ends it has to take |
| LockOrder.DeadlockIffNotAscending | apps/backend/app/database/repositories/research.py:36-44 | keys can deadlock with some ordered transaction if and only if they are not ascending over the whole transaction |
| Ingestion.LockSession.LockIngestionScope | apps/backend/app/database/repositories/research.py:36-44 | the loop takes the two sorted keys of the scope, each by a step of the lock machine, and waits at a key another transaction holds; a repeated key included |
| Ingestion.StepIsLockStep | apps/backend/app/services/research/documents.py:93-145 | an ingestion step is a step of the lock machine or leaves the locks alone |
| Ingestion.OnePageIsAscending | apps/backend/app/database/repositories/research.py:36-44 | one call takes its keys in ascending order |
| Ingestion.ScopesAreExclusive | apps/backend/app/database/repositories/research.py:36-44 | two transactions past the loop share neither a company URL nor a company content hash |
| Ingestion.PendingIsSeparate | apps/backend/app/services/research/documents.py:93-145 | what two transactions have yet to commit never meets at a URL or at a content |
| Ingestion.SeparateWritesMerge | apps/backend/app/services/research/documents.py:93-145 | separate writes can be committed one after the other and stay sound |
| Ingestion.WriteKeepsSound | apps/backend/app/services/research/documents.py:101-145 | superseding the old version and adding the new one keeps one current version for each URL and one original for each content |
| IngestionSteps.StepKeepsInv | apps/backend/app/services/research/documents.py:73-145 | every step of every transaction keeps locks, readings and pending writes consistent |
| IngestionRuns.RunIsSound | apps/backend/app/services/research/documents.py:73-145 | in every run the committed documents have one current version for each URL, one original for each content, and duplicates point at originals |
| IngestionLaws.DocumentsRecordPages | apps/backend/app/services/research/documents.py:101-145 | in every run every committed document has the company, URL and content of a page that is ingested; a current one is quarantined exactly if that page was, and ready otherwise; any other one is superseded |
| IngestionLaws.VersionsFormAChain | apps/backend/app/services/research/documents.py:105-134 | in every run exactly the versions that are not current have a successor, and only one |
| IngestionLaws.CommittedPagesAreStored | apps/backend/app/services/research/documents.py:73-145 | in every run, when a transaction commits, the current version of every URL it ingested is the content it ingested there last, whatever the others did |
| IngestionRuns.AscendingIngestionProgresses | apps/backend/app/database/repositories/research.py:36-44 | with ascending plans no ingestion is deadlocked and some unfinished one can go on without failing |
| IngestionRuns.OnePageIngestionProgresses | apps/backend/app/database/repositories/research.py:36-44 | transactions that ingest one page each always progress |
| IngestionRuns.OppositeOrdersCanDeadlock | apps/backend/app/workflows/research/workflow.py:351-370 | a run of two ingesting transactions over the same two pages in opposite orders that ends in a deadlock |
| IngestionRuns.RunsAreBounded | apps/backend/app/services/research/documents.py:73-145 | every step of a run uses up one of the locks, readings, writes and ends that were left |
| IngestionRuns.RunLength | apps/backend/app/services/research/documents.py:73-145 | a run from the start has at most four steps for each page and one for each transaction |
| JobQueue.StepKeepsInv | apps/backend/app/database/repositories/prospect_job.py:62-106 | every claim, recovery, action, commit and abort of any worker keeps the queue's invariant |
| JobQueue.ClaimsAreExclusive | apps/backend/app/database/repositories/prospect_job.py:62-87 | no row is held by two open transactions, and a claimed one is waiting |
| JobQueue.ClaimableIsNotRecoverable | apps/backend/app/database/repositories/prospect_job.py:89-106 | no row is both claimable and recoverable |
| JobQueue.ClaimAlwaysAnswers | apps/backend/app/database/repositories/prospect_job.py:69-80 | a claim always has an answer, and it is a row exactly when a due row is free |
| JobQueue.ClaimIsForTheOldest | apps/backend/app/database/repositories/prospect_job.py:69-80 | what is handed out is waiting, due and free, and has been available longest, the oldest of those |
| JobQueue.RecoveryIsForTheStalest | apps/backend/app/database/repositories/prospect_job.py:89-106 | the recovery takes free rows whose lease has run out, the ones that ran out first, as many as it may |
| JobQueue.RecoveryAlwaysAnswers | apps/backend/app/database/repositories/prospect_job.py:89-106 | such a selection always exists |
| JobOutcomes.ClaimLocksTheOldest | apps/backend/app/database/repositories/prospect_job.py:62-87 | a claim locks the oldest due row and prepares its lease until the given time is over |
| JobOutcomes.RecoveryLocksTheStalest | apps/backend/app/database/repositories/prospect_job.py:89-106 | a recovery locks the stalest rows and prepares another attempt, failure or completion of each |
| JobRuns.ClaimsFollowTheOrder | apps/backend/app/database/repositories/prospect_job.py:69-78 | in every run, a claim gets a job that comes before one claimed earlier and still held only if that job was added, written or not due at the earlier claim, or an abort gave it back in between |
| JobRuns.AbortBreaksTheOrder | apps/backend/app/database/repositories/prospect_job.py:69-87 | a run in which a later claim gets the earlier job, there, due and unchanged since the earlier claim, because the transaction that held it aborted in between |
| JobRuns.LeaseLasts | apps/backend/app/domain/prospect_job/aggregate.py:102-297 | in every run a lease stays with its owner, its attempts unchanged, until a commit ends it that its owner prepared or a recovery after its expiry |
| JobQueue.LeaseIsFenced | apps/backend/app/domain/prospect_job/aggregate.py:102-297 | in one step a stored job changes only by a claim while it waits, by its lease's owner, or by recovery after its lease expired |
| JobQueue.LeasesAreBounded | apps/backend/app/domain/prospect_job/aggregate.py:102-130 | in every run a job is leased as often as its row counts, and never more often than allowed |
| JobOutcomes.WriteOutcome | apps/backend/app/domain/prospect_job/aggregate.py:102-297 | what every claim, owner, recovery and reconciliation makes of a job: it becomes completed only by its owner or a reconciliation, and a recovery leads to another attempt, available now, exactly when one is left, and to failure otherwise |
| JobOutcomes.LeaseHolds | apps/backend/app/domain/prospect_job/aggregate.py:102-165 | a lease, fresh or renewed, can be recovered exactly after its time is over |
| JobOutcomes.ErrorOutcome | apps/backend/app/domain/prospect_job/aggregate.py:188-227 | after a reported error a job can be claimed exactly from the end of the delay on, and only with an attempt left |
| JobOutcomes.AcceptedIff | apps/backend/app/domain/prospect_job/aggregate.py:102-297 | which requests are accepted, and for what the others are refused |
| JobOutcomes.NewJobWaits | apps/backend/app/domain/prospect_job/aggregate.py:66-100 | a new job waits, is due at once and has all its attempts; without any it is refused |
| JobOutcomes.FinishedForever | apps/backend/app/domain/prospect_job/aggregate.py:102-297 | in every run a completed or failed job stays exactly as it is |
| JobOutcomes.FinishedHow | apps/backend/app/domain/prospect_job/aggregate.py:102-297 | in every run a completed job was completed by the owner of its lease or reconciled after it ran out, and a failed one had used up its attempts |
| Text.LowerForgetsCase | apps/backend/app/shared/normalization.py:44-44 | lower case makes two texts equal exactly when they differ in case alone |
| Text.FlattenIsJoin | apps/backend/app/services/contact_discovery.py:164-165 | collapsing white space and stripping is joining the words with single spaces |
| Text.FindIsFirst | apps/backend/app/services/contact_discovery.py:168-174 | find gives the least position, or -1 exactly when the needle is nowhere |
| Contacts.SnippetIsEvidence | apps/backend/app/services/contact_discovery.py:168-174 | the snippet of found text is a part of the page that holds it, at most 240 characters longer; text not found is its own snippet |
| Contacts.KindOfMailbox | apps/backend/app/services/contact_discovery.py:177-183 | a mailbox that starts with an ignored prefix is dropped, and one that starts with a department's is that department's |
| Contacts.KindOfOther | apps/backend/app/services/contact_discovery.py:177-183 | any other mailbox is generic |
| Contacts.SpellingOfMailbox | apps/backend/app/services/contact_discovery.py:177-183 | neither case nor separators matter for the kind of a mailbox |
| Contacts.ShippedKinds | apps/backend/app/services/contact_discovery.py:69-69 | `noreply` is dropped and `sales` is a department |
| Contacts.PersonIff | apps/backend/app/services/contact_discovery.py:98-116 | a match stands for a person exactly with two or three plausible words and a title of known roles with confidence one half |
| Contacts.DepartmentDisplayName | apps/backend/app/services/contact_discovery.py:57-66 | the display name is that of the longest matching prefix, or the default when none matches |
| Contacts.ShippedDisplayNamesDiffer | apps/backend/app/services/contact_discovery.py:41-54 | no prefix is twice in the table, so one longest match decides |
| Contacts.FaithfulReaderExists | apps/backend/app/services/contact_discovery.py:68-162 | what is relied on about matches can be met by a reader that finds an address and a name with a title, under any word lists |
| ContactExtraction.EmailsIn | apps/backend/app/services/contact_discovery.py:186-197 | every address of the page once, in the order first met, links before text, each with the evidence of its link or of its first spelling |
| ContactExtraction.LinkedEmails | apps/backend/app/services/contact_discovery.py:186-193 | exactly the linked addresses that are whole addresses, once, in the order first linked |
| ContactExtraction.NameNear | apps/backend/app/services/contact_discovery.py:200-214 | the last person within the window around the needle, if any |
| ContactExtraction.NearbyWindow | apps/backend/app/services/contact_discovery.py:200-214 | the window is a part of the page around the needle, at most 400 characters longer |
| ContactExtraction.ReadAddress | apps/backend/app/services/contact_discovery.py:228-255 | one address adds exactly its own contact, at the end, unless it is ignored or known; then that contact is there |
| ContactExtraction.ReadPerson | apps/backend/app/services/contact_discovery.py:257-281 | one name and title add exactly their own contact, at the end, unless they are no person or that person of the page is known; then the person is there |
| ContactExtraction.ReadPhone | apps/backend/app/services/contact_discovery.py:283-300 | one phone number adds exactly its own contact, at the end, unless it is known; then it is there |
| ContactExtraction.ExtractContacts | apps/backend/app/services/contact_discovery.py:217-302 | contacts have pairwise distinct keys, each was read from a page of its URL, nothing usable on any page is missing, and the list is that of the pages' offers in their order, each kept unless known |
| ContactExtraction.OffersStayInOrder | apps/backend/app/services/contact_discovery.py:217-302 | the list is a subsequence of what the pages offer, page by page, addresses before names before numbers |
| ContactExtraction.OffersAreKnown | apps/backend/app/services/contact_discovery.py:226-302 | everything a page offers is in the end there by its key or, for a bare name, by its person |
| ContactExtraction.EvidenceOfContact | apps/backend/app/services/contact_discovery.py:217-302 | a contact's evidence is a part of its page, or the linked address or number itself, and holds what was read; a name and its title are on the page |
| ContactExtraction.KindOfContact | apps/backend/app/services/contact_discovery.py:217-302 | no extracted address is of an ignored mailbox, it counts as a department exactly when its mailbox does, and a contact is a named one exactly when it has a name |
| ContactExtraction.ConfidenceOfContact | apps/backend/app/services/contact_discovery.py:228-300 | the confidence of each kind of contact |
| ContactExtraction.AddressIsThere | apps/backend/app/services/contact_discovery.py:228-255 | every usable address of any page is that of a contact of its URL |
| ContactExtraction.PersonIsThere | apps/backend/app/services/contact_discovery.py:257-281 | every person of any page is a contact of its URL |
| ContactExtraction.NumberIsThere | apps/backend/app/services/contact_discovery.py:283-300 | every number of any page is that of a contact of its URL |
| ContactExtraction.NothingTwice | apps/backend/app/services/contact_discovery.py:219-300 | no two contacts of a URL agree in name and address unless they are different numbers |
| ContactRanking.RankContacts | apps/backend/app/services/contact_discovery.py:305-372 | primary, alternatives and rejected are the sorted scores cut after one and five; supporting is the rest; review is asked for unless the primary is a named person |
| ContactRanking.SelectionIsPermutation | apps/backend/app/services/contact_discovery.py:315-372 | every contact is in exactly one place, with its score, and none is invented |
| ContactRanking.SelectionIsSorted | apps/backend/app/services/contact_discovery.py:352-352 | the order is by score, address and name, and ties keep the order they came in |
| ContactRanking.SortSorts | apps/backend/app/services/contact_discovery.py:352-352 | the sort orders its list and keeps its entries |
| ContactRanking.SortIsStable | apps/backend/app/services/contact_discovery.py:352-352 | entries the key cannot tell apart keep their order |
| ContactRanking.NoPrimaryIff | apps/backend/app/services/contact_discovery.py:354-361 | there is no primary exactly when no contact has an address or is a named person |
| ContactRanking.MailboxScores | apps/backend/app/services/contact_discovery.py:331-346 | a mailbox scores from 0.05 to 0.5, and at least 0.14 with twelve prefixes or fewer |
| ContactRanking.MailboxScoreIs | apps/backend/app/services/contact_discovery.py:332-341 | the first department prefix scores 0.5, each later one 0.03 less, down to 0.05 |
| ContactRanking.MailboxesInOrder | apps/backend/app/services/contact_discovery.py:331-352 | wherever they stand, a mailbox of one of the first fifteen prefixes comes before every mailbox of none up to it |
| ContactRanking.PersonsInOrder | apps/backend/app/services/contact_discovery.py:316-352 | of two persons, reachable alike, the one with the clearly surer role comes first; an address outweighs 0.28 of it |
| ContactRanking.SupportingAre | apps/backend/app/services/contact_discovery.py:347-361 | supporting contacts are exactly those without address and person's name, they score 0.1 and are never ranked |
| ContactRanking.PersonScores | apps/backend/app/services/contact_discovery.py:316-330 | a person with an address and a role scores at least 0.65 |
| ContactRanking.PersonBeforeMailbox | apps/backend/app/services/contact_discovery.py:305-372 | wherever they stand, a reachable person comes before a mailbox |
| ContactRanking.PersonIsPrimary | apps/backend/app/services/contact_discovery.py:363-372 | one reachable person makes the primary a named person and no review required |
| ContactRanking.NamedHasRole | apps/backend/app/services/contact_discovery.py:105-116 | an extracted named contact has a title that names known roles with confidence 0.5 or more and a name of two or three plausible words |
| ContactRanking.NamedContactWins | apps/backend/app/services/contact_discovery.py:217-372 | for any pages, an extracted named contact with an address stands before every mailbox, the primary is a named person and no review is asked for |
| ContactRanking.ExtractedIsEvident | apps/backend/app/services/contact_discovery.py:217-302 | every extracted contact has a page of its URL among the pages, with evidence on it |
| ContactRanking.SeparatorsLoseThePreference | apps/backend/app/services/contact_discovery.py:177-183 | a department gets the last preference exactly when its prefix is only found without separators |
| ContactRanking.SupplyChainMailbox | apps/backend/app/services/contact_discovery.py:332-339 | `supply-chain` is a department with the preference of an unknown mailbox |
| ContactRanking.DashedPrefixIgnoresNothing | apps/backend/app/services/contact_discovery.py:177-180 | an ignored prefix with a dash never matches |
| Rounding.NearestIs | apps/backend/app/schemas/mvp.py:759-759 | the nearest whole number, and of two equally near the even one |
| Rounding.RoundingIsMonotone | apps/backend/app/services/contact_discovery.py:323-323 | rounding keeps order |
| Rounding.RoundingIsNear | apps/backend/app/schemas/mvp.py:759-759 | rounding is off by at most half a unit of the last digit |
| ScoreBreakdowns.ValidMeans | apps/backend/app/domain/values.py:241-264 | an assessed dimension has evidence and earns its share of the weight, any other one earns nothing |
| ScoreBreakdowns.RefusedFor | apps/backend/app/domain/values.py:241-264 | a dimension is refused only for one of these defects |
| ScoreBreakdowns.BreakdownAcceptedIff | apps/backend/app/domain/values.py:269-297 | a breakdown is accepted exactly for distinct dimensions and right sums, up to the tolerance |
| ScoreBreakdowns.LegalValues | apps/backend/app/domain/values.py:225-227 | a score is within 0 and 100, a coverage within 0 and 1 |
| ScoreBreakdowns.FromDimensionsSucceedsIff | apps/backend/app/domain/values.py:278-297 | from_dimensions passes its own checks exactly when no dimension is repeated |
| ScoreBreakdowns.TotalWithinAssessed | apps/backend/app/domain/values.py:244-297 | the total is at most the assessed weight, and not below zero, up to the tolerance for each dimension |
| ScoreBreakdowns.AssessingNeverHurts | apps/backend/app/domain/values.py:287-297 | assessing an unknown dimension never lowers the total by more than the tolerance and moves exactly its weight |
| ScoreBreakdowns.ScoreIsLegalIff | apps/backend/app/services/scoring/deterministic.py:118-122 | the coverage is always legal, and the capped total exactly when it is not negative |
| ScoreBreakdowns.ToleratedNegative | apps/backend/app/domain/values.py:90-97 | a valid breakdown whose total is no legal score |
| ScoreBreakdowns.ScorerNeverFails | apps/backend/app/services/scoring/deterministic.py:113-122 | for exactly earned dimensions breakdown, score and coverage are always legal |
| HardGates.EvaluateGates | apps/backend/app/domain/scoring.py:92-109 | no sources, no hits; otherwise one hit for each signal whose marker is a gate, in order, and no constructor refuses |
| HardGates.CheckSignal | apps/backend/app/domain/scoring.py:98-109 | the inner loop adds one hit at most |
| HardGates.HitsAre | apps/backend/app/domain/scoring.py:92-109 | there is a hit exactly when some marker is a gate, and every hit names its signal and carries all the sources |
| HardGates.BlankMarker | apps/backend/app/domain/scoring.py:77-79 | a blank signal names no gate, so a hit always has a reason |
| Qualification.DefaultWeightsAreValid | apps/backend/app/domain/scoring.py:26-58 | the default table passes the checks of its constructor |
| Qualification.WeightsAreParts | apps/backend/app/domain/scoring.py:39-58 | every weight of a valid table is positive and none reaches the whole |
| Qualification.PolicyRefusedIff | apps/backend/app/domain/scoring.py:131-141 | a policy is refused exactly for thresholds out of range or out of order |
| Qualification.TableBounds | apps/backend/app/domain/scoring.py:39-58 | for a full table, total and missing weight together are at most 100 up to the tolerances |
| Qualification.AssessSucceedsIff | apps/backend/app/services/scoring/deterministic.py:107-127 | a full table without gate hits is assessed without an error exactly when its total is not negative |
| Qualification.CompletenessCanBlock | apps/backend/app/domain/scoring.py:154-164 | for every policy with a positive completeness threshold q and a score threshold below q * (100 + 1e-6) + 7e-6 there is a full table with a qualifying score that is not qualified at any confidence |
| Qualification.CompletenessNeverBlocks | apps/backend/app/domain/scoring.py:143-164 | for every other policy a table is qualified exactly by score and confidence |
| Qualification.CoverageBlocksIff | apps/backend/app/domain/scoring.py:143-164 | for confident assessments, a full table with a qualifying score that is not qualified exists if and only if the policy is one of those |
| Qualification.DefaultDecision | apps/backend/app/domain/scoring.py:143-164 | by default, qualified exactly at score 70 and confidence 0.65, more research exactly below 0.4 of the weight, and a human's review otherwise |
| Qualification.QualifiedLacksLittle | apps/backend/app/domain/scoring.py:143-164 | a qualified company has no gate hit and lacks at most 30 of the weight |
| Qualification.DecisionsAre | apps/backend/app/domain/scoring.py:143-164 | for every policy, disqualified exactly with a gate hit, review exactly where nothing else applies, and the action follows from the decision |
| Qualification.NeverDisqualified | apps/backend/app/domain/scoring.py:112-164 | a full table without a gate hit is never disqualified |
| Qualification.GatesDisqualify | apps/backend/app/domain/scoring.py:143-153 | any hit of the gates disqualifies, and the check for evidence never fails |
| Qualification.ShippedGatesDisqualify | apps/backend/app/domain/scoring.py:82-109 | the three gates of the source are distinct markers, and any of them disqualifies |
| Explanation.Explain | apps/backend/app/schemas/mvp.py:723-779 | each assessment is described in turn, and the lists and the weight are those of the obtained, missing and import-blocked dimensions |
| Explanation.EvidenceIsPartitioned | apps/backend/app/schemas/mvp.py:740-750 | obtained and missing are together exactly the dimensions of the assessments; none is both; import-blocked are the missing import dimensions; the next action is set exactly when there is one |
| Explanation.DescriptionsAgree | apps/backend/app/schemas/mvp.py:752-768 | a described dimension has evidence exactly when it is obtained, an unknown reason, its status, exactly when it is missing, and needs import evidence exactly when it is blocked on it |
| Explanation.ContributionIs | apps/backend/app/schemas/mvp.py:752-768 | a contribution is the part of a positive total with four digits, and nothing otherwise |
| Explanation.UnreachableIsOutOfReach | apps/backend/app/schemas/mvp.py:738-776 | total and unreachable weight together never exceed 100, but for tolerances and rounding |
| Explanation.UnreachableIsNotQualified | apps/backend/app/schemas/mvp.py:738-776 | more than 30 unreachable is never qualified |
| Explanation.CustomsEvidenceIsNeeded | apps/backend/app/schemas/mvp.py:740-779 | without any customs dimension 45 is unreachable, the score is at most 55, import evidence is asked for and the company is never qualified |
| Explanation.ContributionsSumToOne | apps/backend/app/schemas/mvp.py:752-768 | the contributions to a positive, uncapped score sum to one, but for the rounding |
| BreakdownJson.BreakdownRoundTrip | apps/backend/app/database/mappers/opportunity.py:50-98 | what was saved loads as the same breakdown exactly when it was valid |
| BreakdownJson.DimensionRoundTrip | apps/backend/app/database/mappers/opportunity.py:56-97 | the same for one dimension with its evidence |
| BreakdownJson.EvidenceRoundTrip | apps/backend/app/database/mappers/opportunity.py:66-94 | the same for evidence |
| BreakdownJson.FaithfulClockExists | apps/backend/app/database/mappers/opportunity.py:28-47 | what is relied on about instants as text can be met |
| BreakdownJson.SourcesRoundTrip | apps/backend/app/database/mappers/opportunity.py:28-47 | the same for sources with their UTC instants |
| BreakdownJson.BuiltBreakdownLoads | apps/backend/app/database/mappers/opportunity.py:75-98 | whatever from_dimensions builds from valid parts can be saved and loaded |
| AggregateJson.FaithfulDatesExist | apps/backend/app/database/mappers/import_evidence.py:219-245 | what is relied on about dates as text can be met |
| AggregateJson.ReloadRestores | apps/backend/app/database/mappers/import_evidence.py:131-250 | loading what was saved restores every column, named metric and inclusion, a blank trend becoming the default; it fails exactly for a blank identity or fingerprint |
| AggregateJson.ReloadTwiceIff | apps/backend/app/database/mappers/import_evidence.py:192-250 | what was loaded is a fixed point of saving and loading exactly when the trend was not blank |
| AggregateJson.ReloadThriceSettles | apps/backend/app/database/mappers/import_evidence.py:192-250 | once more is always enough |
| AggregateJson.OverlayAt | apps/backend/app/database/mappers/import_evidence.py:253-290 | every metric is written under its key, whatever was there, and no other key is touched |
| AggregateJson.OtherMetricsStay | apps/backend/app/database/mappers/import_evidence.py:253-290 | what is not a named metric stays as it was |
| AggregateJson.MetricsOfWritten | apps/backend/app/database/mappers/import_evidence.py:219-245 | reading undoes writing for every metric, but for a blank trend |
| AggregateJson.InclusionColumns | apps/backend/app/database/mappers/import_evidence.py:162-190 | the rows of the inclusions belong to the aggregate and hold the inclusions column by column |
| AggregateJson.RefusedFor | apps/backend/app/database/mappers/import_evidence.py:131-217 | what cannot be saved, and which rows cannot be loaded |
| AggregateJson.ReadAsNumber | apps/backend/app/database/mappers/import_evidence.py:293-299 | a count is read as a number without its fraction, a flag as one or zero, anything else as none |
| AggregateJson.ReadAsTrend | apps/backend/app/database/mappers/import_evidence.py:245-245 | a trend is defaulted exactly where the value counts as false |
| AggregateJson.InclusionsRoundTrip | apps/backend/app/database/mappers/import_evidence.py:162-190 | the inclusions load as they were saved |
| CompanyName.NormalizeTwice | apps/backend/app/shared/normalization.py:38-54 | normalising a key changes nothing |
| CompanyName.SameKeyIff | apps/backend/app/shared/normalization.py:38-54 | two names have the same key exactly when they have the same key words |
| CompanyName.SpellingsShareAKey | apps/backend/app/shared/normalization.py:38-54 | spellings that differ only in case and in which separators stand between words share a key |
| CompanyName.KeyWordsAreKept | apps/backend/app/shared/normalization.py:49-54 | the key's words are the name's tokens in order, every token that is no suffix among them and no suffix unless all tokens are |
| CompanyName.AppendedIsIgnoredIff | apps/backend/app/shared/normalization.py:38-54 | text behind a proper name leaves the key alone exactly when each of its tokens is a suffix by itself |
| CompanyName.EntryIsIgnoredIff | apps/backend/app/shared/normalization.py:11-35 | of the table's entries only those without dot and space are ignored |

## Left out

- PromotionLedger.PromotionRepository.CreateVersion: does not model the association with quality assessments, the foreign keys to companies and aggregates or the check on kind names, which copy arguments and have no effect on versions.
- PromotionLedger.PromotionRepository.Flush: does not model the foreign keys to companies and aggregates, nor the checks of enumerated columns, whose values are datatypes here; the keys of the two tables to themselves are part of `Integrity`, those between them are met at every commit (`PromotionTheory.CommitAccepts`).
- PromotionLedger.PromotionRepository.ApplyCandidates: does not model how the service builds candidates from an aggregate; it is proved for any candidates.
- EvidenceRepository.EvidenceStore.SaveAggregate: does not model the rows of included shipments or the check that a window is positive.
- ContactRanking.RankContacts: does not model the texts of the reasons attached to a ranking and a selection.
- Explanation.Explain: does not model the list of gate hits, which is always empty.
- JobQueue.LeaseIsFenced: does not model heartbeat times and error texts, which do not decide who holds a job.
- JobOutcomes.FinishedHow: does not model the failing of a job by itself, which nothing calls but the report of an error on the last attempt.
- CompanyName.NormalizeTwice: does not model NFKD, case folding or white space outside ASCII; it speaks of the source's keys for ASCII names.
- One clock reading stands for the several readings within one call of a repository; identifiers are arguments, and a batch with used identifiers is not modelled.
- History queries ordered by creation time, upload records, entity matches and upload jobs: they read or insert single rows.
- Sessions, SQL text and isolation levels: committed states are read as READ COMMITTED does, and a failed call is rolled back by its caller.
- The text of the advisory lock values, the chunking lock and chunk storage: one more caller of the same lock, with one key.
- The order among several roots of one content: there is one root at most in every reachable state.
- Worker loops and the batch side effects of a recovered job.
- Regular expressions, HTML decoding and the title classifier: only the contract `Contacts.Faithful` is used, and text outside ASCII is neither folded nor taken for white space.
- Floating point: reals instead, so that the tolerances are exact and rounding is half to even on the exact value.
- The signal detectors of the scorer and its confidence: what is proved holds for any assessments the constructors accept.
- HTTP responses other than the explanation (candidate lists, source summaries).
- Opportunity stage history and the remaining mappers: field-by-field copies.
- JSON payloads of another shape than the mappers write: loading them is an error in the model, without telling the Python errors apart.
