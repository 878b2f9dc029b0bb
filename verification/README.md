# Verified model of the situation-reporting backend

Dafny models of the parts of the backend where correctness depends on more than one
function: the claim protocol around the AI analysis, the life of a situation under
concurrent transactions, idempotent insertion, the KPI counts, and five self-contained
algorithms. `dafny verify dfyconfig.toml` checks everything.

How the models are built:

- **Operations.** What one committed call does is a function on a datatype (`Commit`,
  `Patch`, `Resolve`, `Merge`, `Materialized`, ...). Where the source updates rows step by
  step, a class performs the same statements on mutable fields and every method's `ensures`
  ties the new state to that function of the old one (`AnalysisRows`, `SituationRows`,
  `KeyedTable`, `LegacyCompatibleTransaction`, `ActionsTable`, `MigrationTables`). What the
  functions compute is stated apart from them, column by column and with the exact
  conditions of acceptance (`IsAssessmentOf`, `EditedTo`, `ConsequenceInto`, `CreatedFrom`,
  `UpdatedTo`, ...). Loops of the source are loops, proved against a filter-and-count or
  sorted-list specification.
- **Runs.** Protocols are state machines: a sequence of events is feasible when each event
  is enabled where it happens, and the theorems speak of every feasible sequence, with any
  number of attempts, requests or transactions.
- **Late saves.** `PATCH` reads a situation without a lock and later saves the whole
  entity, claim columns included. Both machines have the read and the save as events of
  their own, and the save breaks what the code otherwise guarantees. For the claim protocol,
  a save makes an unfenced commit possible exactly when the copy carries the token of an
  attempt that was overtaken and has not given up (`StaleSaves.StaleSaveIsSafeIff`), and it
  costs the current claimant its analysis exactly when the row was read before the grant
  (`FirstSaveCostsTheAnalysisIff`). For the lifecycle, a save is sound and a step forward
  exactly when its status is not behind the stored one (`StalePatchIsSoundIff`). Concrete
  runs show each failure. A run is *guarded* when none of its saves meets the failing
  condition; the safety theorems hold for every guarded run, those on availability for
  every run. Runs without late saves are guarded.
- **Assumptions.** Claim tokens and generated ids are fresh. A transaction that holds
  `FOR UPDATE` blocks other writers of that row until it ends. The analysis runs let the clock
  jump in both directions; the situation runs use one clock that never goes back.

Files: `AnalysisStore`, `AnalysisRuns`, `AnalysisClaims`, `AnalysisLog`, `StaleSaves` (claim, commit, runs);
`Situations`, `SituationRuns` (lifecycle); `KeyedInsert`, `Fingerprint`, `ReportedChanges` (idempotent registration);
`KpiCounting`, `KpiLaws`, `KpiRelations` (indicators); `VersionDiff`, `ImpactCandidates`,
`RecommendedActions`, `CoordinationMerge` (algorithms); `Common`, `Text`, `Seqs` (shared).

## Model

| member | source | states |
|---|---|---|
| AnalysisRuns.CommitIsFenced | src/ai-orchestration/ai-orchestrator.service.ts:296-364 | In every guarded run, under any clock, a commit comes from an attempt that was granted the claim and after whose grant nobody else was granted it |
| AnalysisRuns.OvertakenWritesNothing | src/ai-orchestration/ai-orchestrator.service.ts:472-534 | Once another grant followed its own, no step of an attempt changes sessions, record, assessment, recommendations or version entries, and its release clears no claim but a token of its own that a save put back |
| AnalysisRuns.ResultsAgree | src/ai-orchestration/ai-orchestrator.service.ts:611-641 | After every guarded run versions are 1..n; record, session n and assessment come from one analysis, the assessment figure by figure and trimmed text by text; the recommendations are those of all sessions in order |
| AnalysisRuns.HistoryIsExact | src/ai-orchestration/ai-orchestrator.service.ts:345-361 | Version v is announced exactly once, and a re-analysis entry exists exactly for each v > 1, from v - 1 to v, although "previous" was read before the slow call |
| AnalysisRuns.SessionsOnlyGrow | src/ai-analysis-sessions/ai-analysis-sessions.service.ts:19-46 | Stored sessions never change, and there are exactly as many as commits in the run |
| AnalysisRuns.ExpiryIsOneLease | src/ai-orchestration/ai-orchestrator.service.ts:472-495 | In every run, whatever was saved, a stored expiry is one lease after the grant of the token stored with it |
| AnalysisRuns.BlockedAtMostOneLease | src/ai-orchestration/ai-orchestrator.service.ts:472-508 | From every reachable unlocked state, whatever was saved, a claim is granted exactly when no expiry is stored or the stored one is past, and refused otherwise; a refusal means a grant at most one lease ago |
| AnalysisClaims.ClaimProtectsItsLease | src/ai-orchestration/ai-orchestrator.service.ts:472-495 | While a claim is held, neither released nor overwritten by a save, the next grant to anybody comes only after its whole lease |
| AnalysisClaims.FinishFreesTheClaim | src/ai-orchestration/ai-orchestrator.service.ts:498-508 | After a release the attempt holds nothing and, if it held the claim, any newcomer gets it at any clock; another's claim is left alone |
| AnalysisClaims.CheckDecides | src/ai-orchestration/ai-orchestrator.service.ts:514-534 | An attempt enters the transaction exactly when the unlocked row carries its token, gives up exactly when it carries another or none, and its release waits for the lock |
| AnalysisLog.TimelineTellsTheAttempts | src/ai-orchestration/ai-orchestrator.service.ts:250-466 | After every run the timeline tells exactly the starts and the logged failures that happened, in their order |
| AnalysisClaims.LockHolderIsRunning | src/ai-orchestration/ai-orchestrator.service.ts:514-534 | Whoever holds the row lock can fail or crash, and either frees it |
| AnalysisRuns.StepKeepsInv | src/ai-orchestration/ai-orchestrator.service.ts:250-466 | Every step of every attempt, and every harmless save, keeps claim columns, lock, remembered version and stored results consistent |
| AnalysisRuns.NoSavesGuarded | src/ai-orchestration/ai-orchestrator.service.ts:250-466 | Every run without late saves is guarded, so the theorems on guarded runs hold for all of its interleavings |
| StaleSaves.StaleSaveIsSafeIff | src/situations/situations.service.ts:696-813 | After a guarded run, a save can be followed by an unfenced commit exactly when the copy's token belongs to an attempt that was overtaken and may still commit; otherwise the run stays guarded |
| StaleSaves.HarmfulMeans | src/situations/situations.service.ts:701-813 | In terms of the run: the copied token was granted, a later grant followed, and its attempt is claimed, looked up, running or analysed |
| StaleSaves.HolderCommits | src/ai-orchestration/ai-orchestrator.service.ts:250-364 | Whoever holds the stored token of an unlocked row and is on its way can reach its commit, undisturbed |
| StaleSaves.FirstSaveCostsTheAnalysisIff | src/situations/situations.service.ts:701-813 | The first save of a run leaves the current claimant a way to commit exactly when the row was read after its grant |
| StaleSaves.StaleSaveBreaksFencing | src/situations/entities/situation.entity.ts:170-180 | A concrete run in which an overtaken attempt, refused before such a save, commits after it under its successor's lease |
| AnalysisStore.CommitKeepsConsistent | src/ai-orchestration/ai-orchestrator.service.ts:296-364 | One commit with the right previous version adds exactly the next version, keeps all stored results and entries consistent, and keeps the assessment's identity |
| AnalysisStore.Latest | src/ai-analysis-sessions/ai-analysis-sessions.service.ts:27-31 | The latest session is a stored one with the greatest version; none exactly when there is no session |
| AnalysisStore.LatestOfNumbered | src/ai-analysis-sessions/ai-analysis-sessions.service.ts:27-31 | With versions 1..n the latest version is n |
| AnalysisStore.AnalysisRows.ClaimAnalysis | src/ai-orchestration/ai-orchestrator.service.ts:472-495 | Granted exactly when no expiry is stored or it is past, for 150 seconds from now; otherwise nothing changes |
| AnalysisStore.AnalysisRows.ReleaseAnalysisClaim | src/ai-orchestration/ai-orchestrator.service.ts:498-508 | Clears the claim only for the token that holds it |
| AnalysisStore.AnalysisRows.SaveAssessment | src/situation-impact/situation-impact.service.ts:192-241 | Stores summary, reasoning and each description trimmed under their own names, figures and levels as given; refuses a missing situation or a second assessment and then changes nothing |
| AnalysisStore.AnalysisRows.ReplaceAssessment | src/situation-impact/situation-impact.service.ts:243-295 | The same columns under the same id; refuses a missing situation or assessment and then changes nothing |
| AnalysisStore.AnalysisRows.PersistAnalysis | src/ai-analysis/ai-analysis.service.ts:66-109 | Always succeeds: the assessment column by column under its old id if it had one, one trimmed recommendation and one entry for each given, in order, then the entry of the analysis |
| AnalysisStore.AnalysisRows.CreateSession | src/ai-analysis-sessions/ai-analysis-sessions.service.ts:19-46 | Appends one session, one version above the latest |
| AnalysisStore.AnalysisRows.UpdateCurrentAnalysisRecord | src/ai-orchestration/ai-orchestrator.service.ts:611-641 | Creates or overwrites the current record to name the session and its result |
| AnalysisStore.AnalysisRows.CommitAnalysis | src/ai-orchestration/ai-orchestrator.service.ts:296-364 | When the token is held: assessment, recommendations, session, record and every entry, each as the analysis gives it; otherwise nothing |
| AnalysisStore.CommitPersists | src/ai-orchestration/ai-orchestrator.service.ts:296-364 | One commit leaves exactly the assessment, recommendations and entries of its analysis, then the entries of its version |
| SituationRuns.LifecycleIsSound | src/situations/situations.service.ts:903-1038 | Every guarded run of PATCHes in two steps and interleaved resolve/add-consequence transactions from a created case keeps status, dates, learning, due date, areas and consequence dates sound |
| SituationRuns.CaseOnlyMovesForward | src/situations/situation-status.transitions.ts:7-40 | Between any two points of a guarded run the case moves forward only, and closing freezes status, dates, consequences and learning |
| SituationRuns.AtMostOneResolution | src/situations/situations.service.ts:916-1001 | At most one of any number of resolutions commits; CLOSED exactly when one has, with its learning and author |
| SituationRuns.DecidedOnTheStoredCase | src/situations/situations.service.ts:916-960 | A decision under the lock is a decision on the stored row: no lost update, and a closed case rejects it |
| SituationRuns.AcceptedConsequenceIsStored | src/situations/situation-consequences.service.ts:64-150 | A committed consequence stays stored with its trimmed text, its author and its given date (the captured instant when none), is on the timeline with that date, and was captured no later than the close |
| SituationRuns.RequestIsWhatBegan | src/situations/situation-consequences.service.ts:53-76 | A transaction works on the request it began with; a consequence captured the clock of that moment |
| SituationRuns.BeginChecksInput | src/situations/situation-consequences.service.ts:53-76 | A transaction begins exactly for a text that is not blank and a date that is one and not in the future |
| SituationRuns.ClosedWhenDecided | src/situations/situations.service.ts:947-1001 | A case is closed at the clock of the step that decided its resolution under the lock |
| SituationRuns.StepKeepsInv | src/situations/situation-consequences.service.ts:76-150 | Every step but a PATCH that goes back keeps the run invariant and moves the stored case forward |
| SituationRuns.StalePatchIsSoundIff | src/situations/situations.service.ts:696-813 | What an accepted PATCH saves is sound and a step forward exactly when its status is not behind the stored one, and sound at all exactly when no close happened between read and save |
| SituationRuns.LateSaveColumns | src/situations/situations.service.ts:701-831 | Whenever it saves, an accepted PATCH stores every column of the copy it read with its own changes, tells the status change from the copy, and leaves resolution, consequences and history as stored |
| SituationRuns.PromptPatch | src/situations/situations.service.ts:701-813 | A PATCH saved before anything else happens never goes back and stores what the one-step `Patch` says |
| SituationRuns.StalePatchUndoesTheClose | src/situations/situations.service.ts:701-813 | On every fresh case a resolution between read and save leaves a resolution without a close |
| SituationRuns.StalePatchTakesBackTheAdvance | src/situations/situations.service.ts:701-813 | On every OPEN case a PATCH saved after another advanced it takes it back to OPEN, with the change to IN_PROGRESS still on the timeline |
| Situations.CreateIsSound | src/situations/situations.service.ts:160-509 | Whatever contract the request used, an accepted case is OPEN, sound, dated now, with catalogued areas and a category exactly for INTERNAL |
| Situations.CreateOutcome | src/situations/situations.service.ts:160-509 | Exactly which requests each contract accepts, and every column of the case they leave, first consequence and REPORTED change included |
| Situations.RelatedResolved | src/situations/situations.service.ts:1223-1251 | Related coordinations are exactly the trimmed nonempty ids other than the origin, once each |
| Situations.RelatedAccepted | src/situations/situations.service.ts:1233-1251 | They are accepted whole and only when all are active; a refusal means some given id is not |
| Situations.RelatedInOrder | src/situations/situations.service.ts:1223-1251 | They keep the order in which they were first given |
| Situations.PatchedRow | src/situations/situations.service.ts:753-813 | An accepted PATCH gives each column the trimmed value of its own field or leaves it, keeps INTERNAL areas in step, and changes status only from OPEN to IN_PROGRESS with the actor assigned |
| Situations.SameFieldSameValue | src/situations/situations.service.ts:753-813 | Two requests on one row that agree on a field leave the same value in its column |
| Situations.PatchOutcome | src/situations/situations.service.ts:696-813 | Exactly when a PATCH is accepted, what each refusal means, and what an accepted one leaves beside the row |
| Situations.PatchKeepsSound | src/situations/situations.service.ts:696-813 | An accepted PATCH keeps a sound case sound and moves it forward |
| Situations.PatchAgainSavesTheSameIff | src/situations/situations.service.ts:794-813 | Repeating a PATCH saves the same row, except exactly when a status change came with a blank comment |
| Situations.ResolveKeepsSound | src/situations/situations.service.ts:947-1001 | An accepted resolution keeps the case sound and moves it forward |
| Situations.ResolveOutcome | src/situations/situations.service.ts:903-1001 | Exactly when a resolution is accepted, what each refusal means, and what it leaves: dates, learning, author, entry |
| Situations.AddConsequenceKeepsSound | src/situations/situation-consequences.service.ts:64-150 | An accepted consequence, with an instant captured earlier, keeps the case sound and moves it forward |
| Situations.ConsequenceOutcome | src/situations/situation-consequences.service.ts:53-150 | What an accepted consequence has and leaves, its date between the case's and the captured instant, and what each refusal means |
| Situations.ConsequenceAccepted | src/situations/situation-consequences.service.ts:53-150 | A request that meets every condition is accepted |
| Situations.WhoOperates | src/auth/services/operational-scope.service.ts:328-452 | Resolving and advancing are for the analyst of the general coordination or the coordinator of the responsible one, each with its permission |
| Situations.WhoEdits | src/auth/services/operational-scope.service.ts:494-501 | Exactly who may edit a case, and when a refusal hides that it exists |
| Situations.WhoAddsConsequences | src/auth/services/operational-scope.service.ts:126-308 | Exactly who may add consequences, and who may read the case |
| Situations.SlaVerdictAgreesWithHealth | src/situations/situation-sla.policy.ts:76-124 | Closed on time exactly when not overdue at that instant; health only worsens while alive; a new case is on track |
| Situations.HealthByInstants | src/situations/situation-sla.policy.ts:76-124 | The four verdicts exclude one another and are told by the instants; the promised instant itself is still in time |
| Situations.SituationRows.ApplyStatusTransition | src/situations/situations.service.ts:1091-1126 | For each target status the whole row: status, comment, assignment, resolution and closing dates; refused exactly for an unknown user |
| Situations.SituationRows.EditFields | src/situations/situations.service.ts:753-792 | Each edited column gets the value of its own field, the affected area follows the responsible one for INTERNAL, and the refusals are exact |
| Situations.SituationRows.Update | src/situations/situations.service.ts:696-813 | PATCH, checks in the source's order: column by column the stored row, and the entry of a status change; nothing is saved otherwise |
| Situations.SituationRows.ResolveSituation | src/situations/situations.service.ts:903-1038 | Resolution under the lock: closed now, with trimmed learning, author and entry, everything else untouched; otherwise nothing changes |
| Situations.SituationRows.AddSituationConsequence | src/situations/situation-consequences.service.ts:53-150 | Consequence under the lock: one row with trimmed text, given date or captured instant and author, one entry with the same date; otherwise nothing changes |
| KeyedInsert.AtMostOneRowPerKey | src/database/migrations/1787200000001-CreateSituationClientRequestUniqueIndex.ts:19-23 | In every reachable state, deletions included, a key has at most one row, and child rows match rows one to one |
| KeyedInsert.SuccessfulRepliesAgree | src/ai-orchestration/ai-orchestrator.service.ts:130-179 | All successful replies for one key name one row and at most one says it was not a replay, unless one of the rows named was deleted during the run; registrations never are |
| KeyedInsert.RegistrationVerdict | src/ai-orchestration/ai-orchestrator.service.ts:553-575 | Every answered keyed registration succeeds exactly when the stored row has its fingerprint, and otherwise is told the key was reused |
| KeyedInsert.LosingInsertLeavesNoTrace | src/ai-orchestration/ai-orchestrator.service.ts:130-179 | A request that lost the insert, was answered from another's row, was refused or failed before inserting has no row and no child at any point of the run |
| KeyedInsert.WriterOwnsItsRow | src/situation-evidence/situation-evidence.service.ts:28-119 | A request has a row exactly when it inserted one that was not deleted since, and then that row alone |
| KeyedInsert.EvidenceAnnouncedOnce | src/situation-evidence/situation-evidence.service.ts:28-92 | Over all interleavings an evidence is announced on the timeline exactly once when its request was answered as the one that inserted it, and never otherwise |
| KeyedInsert.SearchAndInsertAnswer | src/situation-evidence/situation-evidence.service.ts:34-68 | The first search answers, and the insert is refused, exactly when a row has the key; the second search answers exactly then too |
| KeyedInsert.SearchComesFirst | src/situation-evidence/situation-evidence.service.ts:34-55 | A keyed request searches before it inserts and waits exactly for an insert of its key in flight; one without key inserts at once |
| KeyedInsert.StepKeepsInv | src/situation-evidence/situation-evidence.service.ts:28-92 | Every step keeps the unique index, the drawn ids and the inserts in flight apart |
| KeyedInsert.Lookup | src/situation-evidence/situation-evidence.service.ts:163-170 | The lookup finds a row of the key, or there is none |
| KeyedInsert.KeyedTable.FindByKey | src/ai-orchestration/ai-orchestrator.service.ts:536-551 | The search loop returns the row `Lookup` specifies |
| KeyedInsert.KeyedTable.Insert | src/database/migrations/1787400000001-CreateSituationEvidenceClientKeyIndex.ts:16-22 | Refused exactly on a key that is taken, leaving the table as it was |
| KeyedInsert.KeyedTable.Submit | src/situation-evidence/situation-evidence.service.ts:28-92 | find, insert, find again, with insertions and evidence deletions by others in between: a success names the row stored under the key and is "not replayed" only for the request that inserted it; no answer only for evidence deleted in between |
| Fingerprint.CanonicalEqualIff | src/situations/registration-fingerprint.ts:17-40 | Two requests have one canonical form exactly when their trimmed fields, the presence of card fields and their sets of related ids agree |
| Fingerprint.RelatedEqualIffSameSet | src/situations/registration-fingerprint.ts:27-31 | The canonical related list is equal exactly for equal sets of trimmed nonempty ids |
| Fingerprint.PaddingAndOrderInvisible | src/situations/registration-fingerprint.ts:20-37 | Padding every trimmed text, and reordering, repeating or padding related ids, does not change the form |
| Fingerprint.LegacyFields | src/situations/registration-fingerprint.ts:10-16 | Without card fields the form has exactly the seven fields of the previous contract, in order |
| Fingerprint.CardFields | src/situations/registration-fingerprint.ts:20-37 | A request with every field writes the twelve of them, each with its own value, in order |
| Fingerprint.EmitInjective | src/situations/registration-fingerprint.ts:20-37 | Leaving undefined properties out loses nothing: equal output means equal properties |
| ReportedChanges.EachPathEndsWithOne | src/situations/situations.service.ts:463-474 | After any committed mix of the create path, legacy inserts and other writers, a situation created by either path has exactly one REPORTED row, dated and graded like the situation |
| ReportedChanges.ReportedRowOfInserted | src/database/migrations/1788100000000-LegacySituationInsertCompatibility.ts:80-116 | After any commit each inserted situation has its writer's REPORTED row if there was one and the trigger's otherwise |
| ReportedChanges.OthersUntouched | src/database/migrations/1788100000000-LegacySituationInsertCompatibility.ts:80-116 | Situations stored before the transaction keep their row, and their history but for changes the statements write themselves |
| ReportedChanges.BeforeInsert | src/database/migrations/1788100000000-LegacySituationInsertCompatibility.ts:46-68 | A new-shaped row is left alone; a legacy one gets its severity as reported severity and, if INTERNAL without affected area, the responsible one; nothing else changes |
| ReportedChanges.FireAllAdds | src/database/migrations/1788100000000-LegacySituationInsertCompatibility.ts:80-116 | The deferred triggers add a REPORTED row exactly to a marked, queued situation that has none |
| ReportedChanges.LegacyCompatibleTransaction.RunInsertSituation | src/database/migrations/1788100000000-LegacySituationInsertCompatibility.ts:46-68 | An insert through the trigger is `Execute`, or is refused and changes nothing |
| ReportedChanges.LegacyCompatibleTransaction.HasReported | src/database/migrations/1788100000000-LegacySituationInsertCompatibility.ts:92-100 | The search finds a REPORTED row exactly when there is one |
| ReportedChanges.LegacyCompatibleTransaction.FireDeferredTriggers | src/database/migrations/1788100000000-LegacySituationInsertCompatibility.ts:80-116 | The loop over queued rows is `FireAll` and empties the queue |
| KpiLaws.Balance | src/operational-kpis/operational-kpi-history.repository.ts:58-162 | For any data and filter: stock at the end + closed = stock at the start + created, with rows closed before creation taken out of both flows |
| KpiLaws.StockFlowIff | src/operational-kpis/operational-kpi-history.repository.ts:117-162 | The stock/flow identity of a bucket holds exactly when as many corrupt creations as corrupt closings fall in it; always on sound data |
| KpiLaws.StockFlowTelescoped | src/operational-kpis/operational-kpi-history.repository.ts:58-162 | Over contiguous buckets: last stock = stock before the first + all created - all closed |
| KpiLaws.BucketsPartition | src/operational-kpis/operational-kpi-resolution.repository.ts:50-99 | Bucket totals add up to the total of the span |
| KpiLaws.Movement | src/operational-kpis/operational-kpi.service.ts:622-640 | The series the aggregation loops compute balance bucket by bucket and in total |
| KpiLaws.Resolutions | src/operational-kpis/operational-kpi-resolution.repository.ts:50-150 | Solved series and per-bucket closed counts agree and sum to the summary's closedCount |
| KpiLaws.SummarizeClosed | src/operational-kpis/operational-kpi-resolution.repository.ts:105-150 | The summary counts exactly the cases closed in the period |
| KpiLaws.GroupByPartitions | src/operational-kpis/operational-kpi-history.repository.ts:241-343 | Grouping puts every counted row in exactly one group, null included, and each group counts exactly its rows |
| KpiLaws.CountGroups | src/operational-kpis/operational-kpi-history.repository.ts:241-293 | The counting loop computes the grouping |
| KpiLaws.AggregateActiveInternalByCategory | src/operational-kpis/operational-kpi-history.repository.ts:241-293 | The lines of each bucket are exactly the groups by category of its active internal cases |
| KpiLaws.AggregateActiveExternalByCoordination | src/operational-kpis/operational-kpi-history.repository.ts:296-343 | The lines of each bucket are exactly the groups by affected coordination of its active external cases |
| KpiLaws.BreakdownsMatch | src/operational-kpis/operational-kpi-history.repository.ts:164-343 | At every cut each breakdown has distinct lines and sums to its part of the load |
| KpiLaws.StateLoad | src/operational-kpis/operational-kpi.service.ts:563-657 | At every bucket the load is the number of active cases = internal + external, each the sum of its breakdown, and what is shown under a category id, the uncategorised one included, is exactly its active cases |
| KpiLaws.CategoryLineIsExact | src/operational-kpis/operational-kpi-history.repository.ts:241-343 | A breakdown line counts exactly the active cases of its category or affected coordination, missing ones included |
| KpiLaws.ShownCategoriesDistinct | src/operational-kpis/operational-kpi-history.repository.ts:273-292 | The lines shown have distinct category ids exactly when no two category columns in use (none, empty, the reserved id) share the uncategorised entry |
| KpiLaws.SharedIsUncategorised | src/operational-kpis/operational-kpi-history.repository.ts:273-292 | Two different category columns share a shown id exactly when both are among none, empty and the reserved id |
| KpiLaws.ShownUnderCounts | src/operational-kpis/operational-kpi-history.repository.ts:241-293 | For any data, the lines shown under one category id add up to its counted rows |
| KpiCounting.AggregateEventMetric | src/operational-kpis/operational-kpi-history.repository.ts:58-115 | The map holds, for exactly the bucket keys, the number of creations or closings in each bucket |
| KpiCounting.AggregateBacklog | src/operational-kpis/operational-kpi-history.repository.ts:117-162 | The map holds the open cases at each cut |
| KpiCounting.AggregateActiveByKind | src/operational-kpis/operational-kpi-history.repository.ts:188-238 | The map holds the active internal and external cases at each cut |
| KpiCounting.AggregateClosedByBucket | src/operational-kpis/operational-kpi-resolution.repository.ts:50-99 | The map holds the closings of each bucket |
| KpiCounting.KeysIncrease | src/operational-kpis/operational-kpi-history.repository.ts:58-92 | Keys of contiguous buckets increase strictly, so no bucket overwrites another |
| KpiCounting.PartnerSeries | src/operational-kpis/operational-kpi-history.repository.ts:353-376 | A series by partner takes INTER cases whose owner is responsible in a commitment and affected in a dependency |
| KpiCounting.OwnSeries | src/operational-kpis/operational-kpi-history.repository.ts:377-397 | Any other series is the responsible coordination's, narrowed by kind and by category, missing category included |
| KpiCounting.LoadColumns | src/operational-kpis/domain/kpi-active-at-cut.ts:20-40 | The load is the responsible coordination's stock without the INTER cases that affect itself |
| KpiCounting.CountIsFilter | src/operational-kpis/operational-kpi-history.repository.ts:58-115 | A count is the number of rows that satisfy the condition |
| KpiRelations.CommitmentsAreDependencies | src/operational-kpis/operational-kpi-relations.repository.ts:32-64 | X's commitments toward Y equal Y's dependencies on X for every metric and range |
| KpiRelations.LineIsExact | src/operational-kpis/operational-kpi-relations.repository.ts:32-141 | Column by column which cases the line of Y counts among X's commitments and among X's dependencies, for each metric |
| KpiRelations.SeriesMatchesLine | src/operational-kpis/operational-kpi-history.repository.ts:345-376 | The history series filtered by a partner adds up to the line of that partner |
| KpiRelations.LinesNamePartners | src/operational-kpis/operational-kpi-relations.repository.ts:66-141 | Every line names a catalogued partner other than the owner, with at least one case |
| KpiRelations.SideTotal | src/operational-kpis/operational-kpi-relations.repository.ts:66-141 | The lines of one coordination sum to its cases with another catalogued partner |
| KpiRelations.TotalsAgree | src/operational-kpis/operational-kpi-relations.repository.ts:66-141 | Summed over all coordinations, each side counts every case with two different catalogued ends exactly once |
| VersionDiff.ComparisonClassifies | src/ai-analysis-sessions/ai-analysis-comparison.service.ts:106-137 | Added, removed and changed hold exactly the titles new, gone and re-prioritised, last duplicate winning |
| VersionDiff.OneMoreEntry | src/ai-analysis-sessions/ai-analysis-comparison.service.ts:117-134 | The lists follow the order of the versions: one more entry goes last in the list it belongs to |
| VersionDiff.PutKeepsPlaces | src/ai-analysis-sessions/ai-analysis-comparison.service.ts:110-115 | A repeated title keeps its place, a new one goes last |
| VersionDiff.ComparisonReplays | src/ai-analysis-sessions/ai-analysis-comparison.service.ts:106-137 | Replaying the comparison on the old version gives the new one |
| VersionDiff.TitleSetsDisjoint | src/ai-analysis-sessions/ai-analysis-comparison.service.ts:106-137 | No title appears in two of the three lists |
| VersionDiff.EmptyIffSameContent | src/ai-analysis-sessions/ai-analysis-comparison.service.ts:106-137 | The comparison is empty exactly when both versions say the same |
| VersionDiff.SwapFlips | src/ai-analysis-sessions/ai-analysis-comparison.service.ts:106-137 | Swapping the versions swaps added with removed and flips every change |
| VersionDiff.AreasClassified | src/ai-analysis-sessions/ai-analysis-comparison.service.ts:159-190 | The comparison of affected areas classifies codes the same way and is empty exactly for the same content |
| VersionDiff.MapOfSays | src/ai-analysis-sessions/ai-analysis-comparison.service.ts:110-115 | The insertion-ordered map has distinct titles and the content of the list, last duplicate winning |
| ImpactCandidates.SelectSimulatedCandidates | src/situation-impact/situation-impact.service.ts:383-412 | The loop with its mutated `seen` set computes filter, stable sort, first of each, map |
| ImpactCandidates.SelectionIsRanking | src/situation-impact/situation-impact.service.ts:383-412 | For any order of codes, each eligible coordination appears exactly once with its highest level, in order of level then code |
| ImpactCandidates.OrderIndependent | src/situation-impact/situation-impact.service.ts:383-412 | The (id, level) list depends only on the set of rows, when the locale tells the codes of different coordinations apart |
| ImpactCandidates.TiesKeepInputOrder | src/situation-impact/situation-impact.service.ts:391-396 | When it does not, two coordinations of one level are shown in input order |
| ImpactCandidates.SimulationMatchesContext | src/situation-impact/situation-impact.service.ts:96-187 | A simulation shows something exactly when the context says it is available, at most two, and they dominate all others |
| ImpactCandidates.ContextIsExact | src/situation-impact/situation-impact.service.ts:96-122 | A simulation is available exactly when nothing was declared and some row other than the origin's loads its coordination |
| ImpactCandidates.FirstOfEachCovers | src/situation-impact/situation-impact.service.ts:397-401 | Dropping repeated ids from a sorted list keeps one that ranks at least as high |
| ImpactCandidates.FirstOfEachDistinct | src/situation-impact/situation-impact.service.ts:397-401 | No id is kept twice |
| RecommendedActions.UpdateKeepsWellTimed | src/recommended-actions/recommended-actions.service.ts:198-251 | Every accepted update leaves times, note and observation as the new status demands |
| RecommendedActions.UpdateOutcome | src/recommended-actions/recommended-actions.service.ts:198-338 | Exactly which updates are accepted, and every column of what they leave |
| RecommendedActions.NewColumns | src/recommended-actions/recommended-actions.service.ts:154-192 | Every column of a first materialisation: the override's values, or those the status calls for |
| RecommendedActions.RunKeepsWellTimed | src/recommended-actions/recommended-actions.service.ts:198-338 | So does every sequence of requests under a forward clock, with identity unchanged |
| RecommendedActions.FirstStartIsKept | src/recommended-actions/recommended-actions.service.ts:221-245 | A start survives every run without PENDING, and a new one is the instant of a request that started or executed the action |
| RecommendedActions.NewIsWellTimedIff | src/recommended-actions/recommended-actions.service.ts:154-192 | A seeded action is well timed exactly when there is no override or the override fits its status |
| RecommendedActions.MaterializedRows | src/recommended-actions/recommended-actions.service.ts:124-196 | Existing rows stay, and exactly one row per action index is added where missing |
| RecommendedActions.MaterializingAgainSavesNothing | src/recommended-actions/recommended-actions.service.ts:124-196 | Materialising again, at any time and with any overrides, saves nothing |
| RecommendedActions.ActionsTable.MaterializeFromInterpretation | src/recommended-actions/recommended-actions.service.ts:124-196 | The loop returns the stored row of every index in order, and new rows without override are well timed |
| RecommendedActions.ActionsTable.UpdateActionStatus | src/recommended-actions/recommended-actions.service.ts:198-251 | Column by column the row after an accepted request; otherwise nothing changes |
| CoordinationMerge.MergeIsImage | src/database/migrations/1786600000000-MergeSocialLabAndAddServicios.ts:38-68 | The merged relation is exactly the old one with the old id read as the new one |
| CoordinationMerge.MergeKeepsUnique | src/database/migrations/1786600000000-MergeSocialLabAndAddServicios.ts:38-68 | Delete-then-rewrite never breaks the per-parent unique constraint |
| CoordinationMerge.MergeDropsOnePerParent | src/database/migrations/1786600000000-MergeSocialLabAndAddServicios.ts:38-68 | Exactly one row less for each parent that had both |
| CoordinationMerge.MergeIsSafe | src/database/migrations/1786600000000-MergeSocialLabAndAddServicios.ts:25-80 | All constraints hold afterwards and nothing names the deleted coordination |
| CoordinationMerge.MergeRowByRow | src/database/migrations/1786600000000-MergeSocialLabAndAddServicios.ts:25-80 | Users and situations move row by row, the old coordination and its dependencies on either side go, every other row stays as often as it was there |
| CoordinationMerge.UnifyRemovesSocialLab | src/database/migrations/1786600000000-MergeSocialLabAndAddServicios.ts:14-100 | Whichever branch runs, the old code is gone |
| CoordinationMerge.ReferencesFollow | src/database/migrations/1786600000000-MergeSocialLabAndAddServicios.ts:14-97 | Whichever branch runs, users of the old coordination end in one with the new code, anybody else stays |
| CoordinationMerge.ReorderedRows | src/database/migrations/1786600000000-MergeSocialLabAndAddServicios.ts:123-150 | Reordering touches display orders only, known codes by the table |
| CoordinationMerge.AddedRow | src/database/migrations/1786600000000-MergeSocialLabAndAddServicios.ts:99-121 | The new coordination is added when there is none of its code, and only then |
| CoordinationMerge.UpTwiceIsUpOnce | src/database/migrations/1786600000000-MergeSocialLabAndAddServicios.ts:14-152 | Running the migration again changes nothing |
| CoordinationMerge.MigrationTables.MergeInto | src/database/migrations/1786600000000-MergeSocialLabAndAddServicios.ts:25-80 | The ordered statements compute `Merge` |
| CoordinationMerge.MigrationTables.RunUp | src/database/migrations/1786600000000-MergeSocialLabAndAddServicios.ts:14-152 | The whole migration is `Up` and is idempotent |

## Left out

- SituationRuns.LifecycleIsSound: speaks of guarded runs; `StalePatchIsSoundIff` says exactly which saves leave them. Automatic escalation is absent, as no policy is configured in production. Lost edits of title, description or dates between two PATCHes are outside `Evolves`.
- SituationRuns.StalePatchUndoesTheClose: the save is taken to write back every mapped column of the copy. The copy also carries the resolution relation it loaded (`findByIdWithRelations` asks for it), null before the close; if the ORM tries to write that null back, the primary key of `situation_resolutions` refuses the save and the PATCH fails instead of undoing the close. The ORM is not part of this model. The other late saves do not depend on it.
- AnalysisRuns.CommitIsFenced: the only other writers of the claim columns are whole-row saves. The commit transaction is atomic apart from its row lock.
- AnalysisStore.AnalysisRows.CommitAnalysis: the timeline entries carry their type, versions and ids, not their texts; audit log, prompt and provider metadata are absent. The provider is a step with an arbitrary result or failure.
- Fingerprint.CanonicalEqualIff: compares the list of JSON properties; the JSON text and its SHA-256 digest are not part of this model.
- Situations.SituationRows.Update: fields come from a validated request, checks are taken in the order of the code, and lookups that the code starts in parallel are taken in listing order. SLA breach marks, evidence ids and audit entries are absent.
- Situations.CreateIsSound: the initial consequence carries the reported occurrence date, which may be later than the creation instant within the same day; only creation instants are ordered. After a PATCH an INTER case may have equal ends, so their difference is stated at creation only.
- ImpactCandidates.SelectionIsRanking: the locale's comparison of codes is a parameter, any total order with ties.
- KpiLaws.StateLoad: display order, names and labels of the lines are absent, as are future buckets, which show no numbers.
- KpiLaws.Resolutions: only the closed counts; medians, percentiles and on-time shares are absent.
- KpiCounting.AggregateEventMetric: days are integers with the fixed offset of Bogotá; the calendar that builds the buckets is not part of this model, its contiguity is a precondition.
- RecommendedActions.ActionsTable.MaterializeFromInterpretation: the match of a suggested area with the catalogue and the descriptive texts are absent; an override list is a map from index, and its author's name is stored untrimmed as there.
- CoordinationMerge.MigrationTables.RunUp: colours, icons and short names of the coordinations, and `down`.
- ReportedChanges.EachPathEndsWithOne: savepoints and changes of constraint mode inside a transaction.
- Text comparison of impact and confidence between versions: field-by-field differences without a law of their own.
- The related coordinations read from legacy descriptions by a regular expression: the declared list is a parameter of `ImpactContext`.
- Controllers, request validation, guards, tokens, logging, health checks, seeds, dashboards, user and role management: wiring and simple reads.
