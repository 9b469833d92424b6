# Collation and the EC8A reader, verified

A Dafny model of the election collation service and of the reader for photographed EC8A forms, with
proofs of what they promise over every run and every input. `dafny verify dfyconfig.toml` checks the
whole project.

## What is modelled

**The collation workflow.** Results are collected at polling units (PU), rolled up into wards and
from there into LGAs. `Workflow` describes the service as a state machine: one row per place, an
append-only action log, and one step per endpoint with its guards in the order of the code, its error
and the state it leaves. A run is any sequence of calls by any users with any arguments, interleaved
with jobs of the asynchronous photo check. `Service` is the class with the mutable rows and log; each
endpoint is proved to take exactly its step and to keep every invariant.

| module | subject |
|---|---|
| `Tallies` | ward and LGA rows agree with the approved places below them, under every step |
| `Endpoints` | every endpoint from outside: exactly when it succeeds and what it stores |
| `Drafts` | what drafts store, over whole runs; conservation down to what was typed |
| `Flags` | the units an LGA names when returning a ward, and their way back |
| `Conservation` | two-level conservation of all eight figures and all party votes |
| `Lifecycle`, `Evidence` | log language, status, photos, flags; all invariants of reachable stores |
| `Finality` | approved wards never change; LGA totals never decrease |
| `Liveness` | a scheduler with a decreasing measure: no ward is ever stuck |
| `Bulk` | bulk approval refines single approvals; the bulk return is total |
| `CleanSheets` | how the EC8A identities behave under the rollups |
| `RaceBoard` | tracked parties, the outcome of an LGA, statewide standings from PU sheets |
| `Verification`, `Vision`, `Reconcile` | the EC8A identities, completing a photo reading, merging it with the typed sheet |
| `NumberWords`, `ColumnReader` | numbers in words; reading a whole column of scores |
| `LabelMatching` | the greedy matcher of labels to numbers |
| `RowClustering` | the greedy row clusterer with its drifting mean |
| `Collections`, `Sheets`, `Geography` | sums and filters, sheets and their totals, places and levels |

**Assumptions.**

- There is one campaign, and the geography does not change during a run.
- A user's scope type matches the level of the role (src/modules/agents/agents.service.ts:149-203),
  and a result is found by level and scope, of which there is one (db/prisma/schema.prisma:641).
- Each endpoint is one atomic step.
- The route guards admit the five collation roles (shared/src/collation.ts:20-26). They are not part of
  this model, which lets the older role names call as well, so what holds for all users covers both.
- Figures are natural numbers or missing, party votes are integers, and a missing number adds as 0. A
  null party record is the empty record.
- In a draft an absent field leaves the stored one alone and an explicit null clears it.
- The schedule that unsticks a ward assumes that each place has an officer with a non-empty id.
- Sums fit their columns, which are 32-bit integers (db/prisma/schema.prisma:601-615); the draft sets no
  maximum on a figure, and a rollup beyond 2^31 - 1 would be refused after the child was marked APPROVED.
- Coordinates of words on a photo are real numbers.
- `trim` and `toUpperCase` act on ASCII.

## What the proofs found

- A draft saved by an LGA officer is shown on the race board although no polling unit reported
  (`RaceBoard.LgaDraftReachesBoard`). `RaceBoard.BoardEntryExactly` says exactly for which runs an entry
  is right, and `RaceBoard.BoardTotalExactly` by how much the statewide totals are off.
- A readable photo turns a sheet with no typed figures from CHECK_PHOTO into APPROVE
  (`Vision.EmptySheetIsApproved`), while the arithmetic check calls it incomplete.
- A clean sheet with missing figures can make its ward row fail an identity
  (`CleanSheets.IncompleteSheetTurnsUnclean`); `CleanSheets.RollupFailsExactly` says exactly when.
- The report stored with a draft judges only the figures sent with it, not those kept from before
  (`Drafts.DraftReportJudgesWhatWasSent`).
- The branch of the column reader that compares a figure with the words behind it never changes what is
  read (`ColumnReader.FiguresAreIgnored`); a figure matters only by parting two numerals.
- Numerals without figures run together exactly when the first leaves room for the second
  (`NumberWords.StopsBeforeNumeral`), for example twenty and five; the reading is then too large.
- Completing a reading writes the used-ballot sum that the rating then checks, so a missing
  used-ballot count can never spoil the rating (`Reconcile.FullRatingExactly`).
- The bulk approval keeps a ward's flags where a single approval clears them, which is the only
  difference between the two (`Bulk.BulkRefinesSequential`).
- The tolerance does not bound the height of a row (`RowClustering.RowSpanReached`).

## Model

| member | source | states |
|---|---|---|
| `Conservation.LgaConservation` | src/modules/collation/collation.service.ts:1829-1919 | with at least one approved ward, the LGA row is APPROVED, shows all eight figures, and every figure and every party total on it is the sum over the polling units of its approved wards, through both rollups |
| `Conservation.LgaRollupCountsUnits` | src/modules/collation/collation.service.ts:1851-1874 | the total of an LGA's approved wards, column by column, is a sum over polling units: no vote is lost or counted twice between the levels |
| `Conservation.RollupCell` | src/modules/collation/collation.service.ts:1815-1827 | a rolled-up column is the sum over all places below, where a place counts only while APPROVED |
| `Tallies.StepKeepsTallies` | src/modules/collation/collation.service.ts:738-812 | every endpoint, also a failing or partly done one, keeps the indexes: a ward row exists whenever a polling unit of it is approved, an existing ward row equals the sum of exactly its approved polling units and is never DRAFT, an approved ward has all its polling units approved, and an LGA with an approved ward is APPROVED and equals their sum |
| `Tallies.SaveDraftKeepsTallies` | src/modules/collation/collation.service.ts:863-937 | saving a draft cannot disturb any ward or LGA total: only editable rows change, and ward rows are refused |
| `Tallies.ApproveKeepsTallies` | src/modules/collation/collation.service.ts:1058-1135 | approving a child and rewriting the parent by the rollup keeps all indexes at every level |
| `Tallies.RejectKeepsTallies` | src/modules/collation/collation.service.ts:1137-1249 | rejecting keeps all indexes; when an APPROVED polling unit is pulled back, the rebuild removes exactly its share from the ward |
| `Tallies.ResubmitKeepsTallies` | src/modules/collation/collation.service.ts:1255-1321 | resubmitting a ward rewrites it to the sum it already had to equal |
| `Tallies.ReturnFlaggedKeepsTallies` | src/modules/collation/collation.service.ts:1327-1380 | a bulk return keeps all indexes, also when it stops at an error |
| `Tallies.ApproveAllKeepsTallies` | src/modules/collation/collation.service.ts:738-812 | a bulk approval and its single rollup keep all indexes |
| `Tallies.OcrJobKeepsTallies` | src/modules/collation/ocr-verify.worker.ts:18-54 | the asynchronous photo check, whatever it reads, keeps all indexes |
| `Tallies.RollupEffect` | src/modules/collation/collation.service.ts:1829-1919 | the rollup changes the parent's row only: its sheet becomes the total of the approved children and its status follows from the level |
| `Tallies.RebuildEffect` | src/modules/collation/collation.service.ts:1427-1544 | the rebuild changes the ward's row only; status REJECTED is kept unless resubmission is forced, and the flags survive exactly while the ward is REJECTED |
| `Tallies.RollupDependsOnApproved` | src/modules/collation/collation.service.ts:1836-1849 | a rollup depends on nothing but the sheets of the approved children |
| `Finality.WardIsFinal` | src/modules/collation/collation.service.ts:1066-1078 | over every later run: an APPROVED ward and all its polling units keep status, figures, party totals, photos and flags, whatever any user does |
| `Finality.LgaNeverDecreases` | src/modules/collation/collation.service.ts:1851-1919 | from the first approved ward on, none of the LGA's eight totals ever decreases, over every run |
| `Finality.StepKeepsFinal` | src/modules/collation/collation.service.ts:1140-1157 | no endpoint, called by any user with any arguments, changes an approved ward or its polling units; the recovery path for approved units is closed because the ward is not REJECTED |
| `Liveness.NoWardIsStuck` | src/modules/collation/collation.service.ts:972-1056 | from every reachable store, for every ward with n polling units, a schedule of at most 4n + 2 calls, all successful, ends with the ward APPROVED |
| `Liveness.NextStepProgress` | src/modules/collation/collation.service.ts:1058-1135 | the call the scheduler picks always succeeds and lowers the measure of polling-unit and ward statuses, also in half-approved and returned wards |
| `Liveness.Schedule` | src/modules/collation/collation.service.ts:1255-1321 | following the scheduler takes at most as many calls as the measure says and ends with the ward APPROVED |
| `Liveness.ApproveUnitRows` | src/modules/collation/collation.service.ts:1058-1135 | the ward officer can always approve a SUBMITTED unit; afterwards the ward waits for the LGA and the other units are as before |
| `Liveness.ApproveWardRows` | src/modules/collation/collation.service.ts:1080-1082 | the LGA officer can approve a SUBMITTED ward whose units are all approved, and the units stay as they are |
| `Liveness.ResubmitRows` | src/modules/collation/collation.service.ts:1268-1321 | a REJECTED ward whose units are all approved can be resubmitted, and the units stay as they are |
| `Bulk.BulkRefinesSequential` | src/modules/collation/collation.service.ts:738-812 | for any order of the pending wards: with nothing pending both change nothing and only the bulk call reports an error; otherwise both succeed together, exactly when every pending ward is ready, or the bulk call changes nothing and both report the same error; on success both act on the same number and agree on every row (status, figures, parties, photos) and on every place's log, but for the flags |
| `Bulk.ApproveEachReady` | src/modules/collation/collation.service.ts:1058-1135 | approving ready wards one at a time, in any order, approves exactly them and leaves the LGA row at their rollup |
| `Bulk.ApproveEachUnready` | src/modules/collation/collation.service.ts:1676-1691 | one unready ward makes the sequence of single approvals fail, wherever it stands in the order |
| `Bulk.ApproveAllReady` | src/modules/collation/collation.service.ts:750-812 | the bulk call approves exactly the pending wards and reports their number |
| `Bulk.BulkReturnIsTotal` | src/modules/collation/collation.service.ts:1327-1380 | the bulk return never fails partway: exactly the flagged units that are SUBMITTED or APPROVED become REJECTED, all other units are unchanged, the ward stays REJECTED with its flags, its totals equal the units still approved, the count is exact, and afterwards no flagged unit is APPROVED or SUBMITTED |
| `Bulk.ReturnEachSucceeds` | src/modules/collation/collation.service.ts:1355-1379 | returning distinct units of a returned ward one after another succeeds for each, and the effects add up |
| `Lifecycle.ReachableIsSound` | src/modules/collation/collation.service.ts:1022-1034 | every reachable store satisfies all invariants at once: the indexes, the log language with status and evidence of each polling unit, and the flags of each ward |
| `Lifecycle.ApplyKeepsUnit` | src/modules/collation/collation.service.ts:943-957 | every event keeps a polling unit's log in (SUBMITTED APPROVED? REJECTED)* (SUBMITTED APPROVED?)?, its status equal to the last logged one (DRAFT or none when there is none; REJECTED or DRAFT after a return), and a photo on every result that is not DRAFT |
| `Lifecycle.LogWordGrows` | src/modules/collation/collation.service.ts:1188-1203 | the log language is closed under exactly the moves the guards allow |
| `Lifecycle.LogBalance` | src/modules/collation/collation.service.ts:1092-1105 | in a log of the language, submissions minus returns is 0 when it is empty or ends in REJECTED and 1 otherwise |
| `Lifecycle.StepKeepsFlags` | src/modules/collation/collation.service.ts:1382-1398 | the flags of a ward always name polling units of that ward, under every endpoint |
| `Lifecycle.UnitStepKeepsSound` | src/modules/collation/collation.service.ts:996-1003 | each way an event can touch one polling unit keeps its log, status and evidence consistent |
| `Evidence.CountedVotesArePhotographed` | src/modules/collation/collation.service.ts:996-1003 | in every reachable store, a polling unit that contributes to an LGA is APPROVED, has a photo, and its last log entry is the approval |
| `Evidence.LogTellsStatus` | src/modules/collation/collation.service.ts:1022-1034 | in every reachable store, submissions minus returns in a unit's log is 1 exactly while it is SUBMITTED or APPROVED, else 0 |
| `CleanSheets.CleanTotal` | src/modules/collation/ocr-verification.ts:121-190 | the sum of complete sheets without a failing EC8A identity has none either, and is complete |
| `CleanSheets.CleanWard` | src/modules/collation/collation.service.ts:1459-1481 | when all approved polling-unit sheets of a ward are complete and clean, the ward row has no arithmetic diff |
| `CleanSheets.CleanLga` | src/modules/collation/collation.service.ts:1851-1874 | and so has the LGA row built from such wards |
| `CleanSheets.RollupFailsExactly` | src/modules/collation/ocr-verification.ts:121-190 | what a rollup of any sheets fails, exactly: the sum of the shortfalls below, with null as 0, is not zero (or positive, for the register), and for the party sum some sheet below has a party record |
| `CleanSheets.IncompleteSheetTurnsUnclean` | src/modules/collation/collation.service.ts:1851-1874 | a concrete sheet with missing figures that is clean itself and whose rollup is not: null sums as 0 |
| `RaceBoard.BoardTotalExactly` | src/modules/collation/collation-browse.service.ts:1045-1055 | after any run, each party's statewide total is the sum over the polling units of all approved wards, plus the votes in the last accepted draft of each LGA that has no approved ward yet |
| `RaceBoard.BoardCountsPollingUnits` | src/modules/collation/collation-browse.service.ts:1045-1055 | after any run in which no LGA-level user saves a draft, each party's statewide total is the sum over the polling units of all approved wards |
| `RaceBoard.OutcomesCountPollingUnits` | src/modules/collation/collation-browse.service.ts:1057-1067 | after any run without LGA-level drafts, the LGAs won, tied and undecided on the board are as many as the polling-unit sums decide |
| `RaceBoard.OutcomeOfApprovedLga` | src/modules/collation/collation-browse.service.ts:1053-1067 | in every tallied store, an LGA with an approved ward is won, tied or undecided on the board exactly as the sums over its approved wards' polling units say |
| `RaceBoard.BoardEntryExactly` | src/modules/collation/collation-browse.service.ts:1046-1051 | after any run, one LGA's entry for a party is right if and only if a ward of it is approved or the last draft accepted for the LGA itself (with a party record) gave the party no votes |
| `RaceBoard.BoardEntryAfterRun` | src/modules/collation/collation-browse.service.ts:1046-1051 | after any run, one LGA's entry is the polling-unit sum plus the votes of that draft while no ward is approved |
| `RaceBoard.EntryIsLastDraft` | src/modules/collation/collation.service.ts:863-937 | over every run, without an approved ward an LGA's stored party votes are those of the last accepted draft |
| `RaceBoard.ApplyOnEntry` | src/modules/collation/collation.service.ts:910-934 | while an LGA has no approved ward, no event but an accepted draft with a party record changes its party votes, and that one replaces them |
| `RaceBoard.LgaDraftReachesBoard` | src/modules/collation/collation-browse.service.ts:1046-1051 | the concrete failing run: an LGA collation officer's draft, in any geography with that LGA, shows seven votes where the polling-unit sum is 0 |
| `RaceBoard.RaceAnalytics` | src/modules/collation/collation-browse.service.ts:1040-1067 | column totals are sums over the LGAs; wins, ties and pending count exactly the LGAs won, tied and undecided; wins + losses + ties + pending is the number of LGAs |
| `RaceBoard.AddLga` | src/modules/collation/collation-browse.service.ts:1045-1067 | one turn of the loop adds one LGA's votes and puts it in exactly one bucket |
| `RaceBoard.ComputeOutcome` | src/modules/collation/collation-browse.service.ts:71-101 | WIN iff the named client is tracked, has votes and strictly beats every other tracked party, with the margin over the runner-up (or over zero); TIE iff it leads together with another; PENDING iff there is no client or no vote; otherwise LOSS by the distance to the first leader |
| `RaceBoard.FindLeaders` | src/modules/collation/collation-browse.service.ts:71-84 | the greatest positive vote, the columns that have it, and the first of them in column order |
| `RaceBoard.MaxVotes` | src/modules/collation/collation-browse.service.ts:76-79 | the maximum of the columns' votes and zero |
| `RaceBoard.ParsingKeepsOutcome` | shared/src/parties.ts:50-65 | reading only tracked columns, with zero for what is missing, changes no outcome |
| `RaceBoard.NormalizeTrackedParties` | shared/src/parties.ts:24-44 | an empty list gives the full register; otherwise the entries that are parties are kept at their first occurrence, in order; either way the columns are distinct |
| `RaceBoard.RegisterDistinct` | shared/src/parties.ts:10 | the built-in register lists no code twice |
| `RaceBoard.FirstOccurrencesExact` | shared/src/parties.ts:29-43 | the kept codes are pairwise distinct up to case, and a code is kept exactly when it was listed |
| `RaceBoard.DistinctColumns` | shared/src/parties.ts:20-22 | codes kept by normalisation give distinct columns |
| `RaceBoard.RunKeepsFromWards` | src/modules/collation/collation.service.ts:1829-1919 | without LGA-level drafts an LGA row only ever comes from approved wards |
| `Service.CollationService.UpsertResult` | src/modules/collation/collation.service.ts:863-937 | takes exactly the draft step: refusals by role, level and status, fields not sent stay, status back to DRAFT, a fresh arithmetic report for polling units |
| `Service.CollationService.AttachEc8aPhoto` | src/modules/collation/collation.service.ts:939-960 | appends one photo to an own editable result and refreshes the report, or refuses without change |
| `Service.CollationService.CheckOwned` | src/modules/collation/collation.service.ts:1726-1741 | which error a user gets who may not touch a result as its owner |
| `Service.CollationService.SubmitResult` | src/modules/collation/collation.service.ts:972-1056 | takes exactly the submission step: photo required for polling units, one log entry, report awaiting the photo check |
| `Service.CollationService.ApproveResult` | src/modules/collation/collation.service.ts:1058-1135 | takes exactly the approval step: guards in order, readiness gate for wards, flags cleared, log entry, rollup |
| `Service.CollationService.CheckRejection` | src/modules/collation/collation.service.ts:1137-1186 | all guards of a rejection in order, the cleaned flags and whether the recovery path applies |
| `Service.CollationService.RejectResult` | src/modules/collation/collation.service.ts:1137-1249 | takes exactly the rejection step, with the rebuild of the ward when an approved unit is pulled back |
| `Service.CollationService.ResubmitWardToLga` | src/modules/collation/collation.service.ts:1255-1321 | takes exactly the resubmission step |
| `Service.CollationService.ReturnLgaFlaggedPus` | src/modules/collation/collation.service.ts:1327-1380 | the loop of single returns equals the recursive specification, including its count and what is left behind on an error |
| `Service.CollationService.ApproveAllLgaWardResults` | src/modules/collation/collation.service.ts:738-812 | takes exactly the bulk approval step, and nothing at all when it refuses |
| `Service.CollationService.RollupToParent` | src/modules/collation/collation.service.ts:1829-1919 | the loop over approved children writes exactly the specified rollup |
| `Service.CollationService.RebuildWardRollup` | src/modules/collation/collation.service.ts:1427-1544 | the second rollup implementation writes exactly the specified rebuild |
| `Service.SumFigures` | src/modules/collation/collation.service.ts:1851-1872 | the reduction over children gives the column sum of each of the eight figures, null as 0 |
| `Service.AggregatePartyResults` | src/modules/collation/collation.service.ts:1815-1827 | the nested loop gives each party's sum over all sheets, for exactly the parties some sheet mentions |
| `Service.CollationService.ValidatePuIdsInWard` | src/modules/collation/collation.service.ts:1382-1398 | the distinct trimmed ids, and accepted exactly when each is a polling unit of the ward |
| `Service.CollationService.IsWardReturnedByLga` | src/modules/collation/collation.service.ts:1400-1425 | true exactly when the unit's ward has a REJECTED row |
| `Service.CollationService.GroupByWard` | src/modules/collation/collation.service.ts:1598-1638 | the index map gives every asked ward exactly its polling units, in order |
| `Service.CollationService.CountReadiness` | src/modules/collation/collation.service.ts:1640-1671 | the counters are the numbers of units in each status, add up to the unit count, and the gate is open exactly when there are units and all are APPROVED; the verification counters count the units with a result by what its verification recommends |
| `Service.CollationService.GetWardPuReadinessMap` | src/modules/collation/collation.service.ts:1582-1674 | the same for every ward of a batch, through the index maps |
| `Service.CollationService.AllPollingUnitsApproved` | src/modules/collation/collation.service.ts:1676-1691 | the gate of ward approval equals: the ward has polling units and all are APPROVED |
| `Service.CollationService.CountByStatus` | src/modules/collation/collation.service.ts:417-430 | each counter is the number of units in that status, NOT_STARTED the number without a row, and they add up to the unit count |
| `Service.CollationService.ListWardPuSubmissions` | src/modules/collation/collation.service.ts:307-547 | the flag canResubmitToLga, counted separately, is true exactly when resubmitWardToLga would succeed; refusals by access and role |
| `Service.CollationService.HandleOcrJob` | src/modules/collation/ocr-verify.worker.ts:18-54 | writes nothing but the verification of a polling-unit row |
| `Service.CollationService.WriteActionLog` | src/modules/collation/collation.service.ts:1693-1715 | appends one entry and changes no row |
| `Workflow.ApprovedChildren` | src/modules/collation/collation.service.ts:1836-1849 | exactly the approved places directly below the parent |
| `Workflow.CleanIds` | src/modules/collation/collation.service.ts:1382-1386 | exactly the trimmed, non-empty ids of the list, each once |
| `Workflow.ToReturn` | src/modules/collation/collation.service.ts:1348-1372 | exactly the flagged units that are APPROVED or SUBMITTED, each once |
| `Workflow.Pending` | src/modules/collation/collation.service.ts:746-764 | exactly the SUBMITTED wards of the LGA |
| `Geography.LevelBelowFollowsHierarchy` | shared/src/collation.ts:67-73 | getParentLevel returns the preceding entry of the hierarchy, that is, the level below |
| `Sheets.TotalCell` | src/modules/collation/collation.service.ts:1851-1874 | every column of a total, shown or absent, reads as the sum of that column |
| `Sheets.TotalVotes` | src/modules/collation/collation.service.ts:1815-1827 | adding up by party and adding up by sheet give the same number of votes |
| `Drafts.DraftStores` | src/modules/collation/collation.service.ts:895-933 | after an accepted draft, figure by figure: a number sent is the number stored, a null sent leaves none, a figure not sent is as before; likewise the party record and the photo list; the row is DRAFT, keeps its flags, and nothing else changes |
| `Drafts.DraftAcceptedExactly` | src/modules/collation/collation.service.ts:863-888 | a draft is accepted exactly from a user with access who is no ward officer, for a result that is new, DRAFT or REJECTED; a refusal changes nothing |
| `Drafts.DraftReportJudgesWhatWasSent` | src/modules/collation/collation.service.ts:895-908 | the report stored with a unit's draft is RETURN iff an identity fails on the figures sent with this draft alone, without those kept from before |
| `Drafts.FigureIsTyped` | src/modules/collation/collation.service.ts:910-934 | after any run, a polling unit's figure is the one in the last accepted draft that sent it |
| `Drafts.PartiesAreTyped` | src/modules/collation/collation.service.ts:910-934 | after any run, a polling unit's party record is that of the last accepted draft that sent one |
| `Drafts.PhotosAreSent` | src/modules/collation/collation.service.ts:939-960 | after any run, a polling unit's photos are those of the last accepted draft that sent a list, followed by the photos attached since, in order |
| `Drafts.LgaCountsWhatWasTyped` | src/modules/collation/collation.service.ts:1829-1919 | conservation down to the forms: after any run, each number of an LGA with an approved ward is the sum of what was typed last at the polling units of its approved wards |
| `Drafts.ApplyOnTyped` | src/modules/collation/collation.service.ts:863-960 | no event but an accepted draft or photo for a polling unit changes the figures, parties or photos stored for it |
| `Flags.ReturnWardExactly` | src/modules/collation/collation.service.ts:1161-1186 | an LGA officer's return of a submitted ward is refused, with the error about foreign units, exactly when an id named is no polling unit of the ward; otherwise the ward is REJECTED, flags exactly the trimmed, non-empty ids named, and nothing else changes |
| `Flags.NamedUnitsComeBack` | src/modules/collation/collation.service.ts:1327-1380 | composed with the ward's bulk return: exactly the named units that were submitted or approved become REJECTED, and every other place but the ward stays as it was |
| `Flags.TrimExactly` | src/modules/collation/collation.service.ts:1383 | trimming an id cuts white space only, and leaves none at either end |
| `Endpoints.AttachExactly` | src/modules/collation/collation.service.ts:939-960 | exactly when a photo is accepted, and that it is added behind the others |
| `Endpoints.AttachJudgesFigures` | src/modules/collation/collation.service.ts:948-954 | the report refreshed with a photo is RETURN iff an identity fails on the stored figures |
| `Endpoints.SubmitExactly` | src/modules/collation/collation.service.ts:972-1034 | exactly when a submission succeeds, in any order of the guards, with its effect and log entry |
| `Endpoints.SubmitAwaitsPhoto` | src/modules/collation/collation.service.ts:1005-1021 | the report stored with a unit's submission is RETURN iff an identity fails, and otherwise waits for the photo check with the pending flag |
| `Endpoints.ApproveExactly` | src/modules/collation/collation.service.ts:1058-1105 | exactly when an approval succeeds; the row becomes APPROVED with its flags dropped, one log entry, and nothing but it and the parent changes |
| `Endpoints.RejectExactly` | src/modules/collation/collation.service.ts:1137-1249 | exactly when a rejection succeeds, on the standard and the recovery path, and what it leaves unchanged |
| `Endpoints.ResubmitExactly` | src/modules/collation/collation.service.ts:1255-1321 | exactly when a resubmission succeeds; the ward is SUBMITTED without flags |
| `Endpoints.ApproveAllExactly` | src/modules/collation/collation.service.ts:738-768 | exactly when the bulk approval succeeds: a waiting ward, and every waiting ward with units, all approved |
| `Endpoints.ApproveAllLogs` | src/modules/collation/collation.service.ts:781-799 | the bulk approval logs one approval from SUBMITTED for each waiting ward, in order, behind the earlier log |
| `Endpoints.PhotoCheckVerdict` | src/modules/collation/ocr-verify.worker.ts:18-54 | what the photo check stores, by the typed figures, the photos and what was read: RETURN, CHECK_PHOTO or APPROVE, never pending, and nothing but the report |
| `Geography.RolesOfLevels` | shared/src/collation.ts:47-57 | which roles stand at each level |
| `Geography.ChildrenExactly` | src/modules/collation/collation.service.ts:1784-1813 | the places an officer reviews: those under the officer's place, or all states for the country |
| `Sheets.AllPartiesExactly` | src/modules/collation/collation.service.ts:1815-1827 | a total names exactly the parties that some sheet names |
| `Service.AdviceOfRow` | src/modules/collation/ocr-verification.ts:270-275 | what counts for a result: its stored report; without one, nothing when no figure was typed, else RETURN iff an identity fails |
| `Verification.FailsExactly` | src/modules/collation/ocr-verification.ts:121-190 | on any sheet, complete or not: an identity fails exactly when something is typed on both of its sides and, with null as 0, they differ (or the accredited voters exceed the register) |
| `Verification.ZeroForMissingPart` | src/modules/collation/ocr-verification.ts:147-176 | typing a 0 for a missing part changes nothing about an identity once another part of that side is typed |
| `Verification.ZeroKeepsVerdict` | src/modules/collation/ocr-verification.ts:147-176 | so a 0 for missing spoiled, rejected or unused ballots never changes the verdict then |
| `Verification.PartialSheetIsReturned` | src/modules/collation/ocr-verification.ts:147-162 | used ballots that do not match the only part typed are found |
| `Verification.DiffsNameTypedNumbers` | src/modules/collation/ocr-verification.ts:77-89 | each failing identity has a diff at the figure that stands alone, with the number typed there, the number expected, off by exactly the shortfall, and both in its message |
| `Verification.FlagsExactly` | src/modules/collation/ocr-verification.ts:121-190 | each flag in terms of the identity it stands for |
| `Verification.ReportHeader` | src/modules/collation/ocr-verification.ts:98-110 | status, engine, confidence and photo count of a report |
| `Verification.VerdictIsThreefold` | src/modules/collation/ocr-verification.ts:98-202 | CHECK_PHOTO without any figure, else APPROVE or RETURN |
| `Verification.ReasonIsFirstMessages` | src/modules/collation/ocr-verification.ts:192-198 | the suggested reason is made of the first two messages, in order |
| `Vision.PhotoDisagreesExactly` | src/modules/collation/ocr-ec8a-parse.ts:503-548 | the disagreement in numbers: a field, a party or the party sum that both sides have and that differs |
| `Vision.FailedExactly` | src/modules/collation/ocr-ec8a-parse.ts:485 | a photo counts as failed when it is unreadable or came with a non-empty error |
| `Vision.MergedDiffsNameBothNumbers` | src/modules/collation/ocr-ec8a-parse.ts:503-534 | each contradicted field and party has a diff with what was typed and what the photo reads, on the right sides |
| `Vision.PartySumNamed` | src/modules/collation/ocr-ec8a-parse.ts:536-547 | the party sum is reported exactly when it differs and the photo does not already contradict the valid votes |
| `Vision.MergedFlags` | src/modules/collation/ocr-ec8a-parse.ts:503-534 | exactly the contradicted fields and parties are flagged |
| `Vision.MergedKeepsFlags` | src/modules/collation/ocr-ec8a-parse.ts:563-566 | a merge drops no arithmetic flag but the pending one, and a failed photo adds none |
| `Vision.MergedHeader` | src/modules/collation/ocr-ec8a-parse.ts:480-497 | engine, confidence, photo count, error and the numbers read, on a readable and a failed photo |
| `Vision.DedupeExactly` | src/modules/collation/ocr-ec8a-parse.ts:553-556 | the dedupe leaves no two diffs of equal field and message, invents none, and keeps one for each it was given |
| `Reconcile.GapsAreFilled` | src/modules/collation/ocr-ec8a-parse.ts:373-397 | what the completion writes where nothing was read: a party sum of at least 10, the used ballots from their parts or the accredited voters, the issued ballots as used plus unused, and nothing else |
| `NumberWords.ParseStopsAtOtherWord` | src/modules/collation/ocr-ec8a-words.ts:127-181 | in front of an unknown word, a blank, a zero or a figure the parser stops, with exactly the number before it |
| `NumberWords.ParseStartsAtNumberWord` | src/modules/collation/ocr-ec8a-words.ts:128-136 | no number starts at an unknown word, a blank, an "and" or a figure |
| `NumberWords.LexUnknown` | src/modules/collation/ocr-ec8a-words.ts:111-114 | a token whose letters are no spelling of the tables is an unknown word, whatever digits stand among them |
| `NumberWords.LexMisreadings` | src/modules/collation/ocr-ec8a-words.ts:2-51 | the misread spellings mean what the tables and aliases say |
| `NumberWords.LexByLetters` | src/modules/collation/ocr-ec8a-words.ts:111-114 | only the letters of a token count, unless it is a figure |
| `ColumnReader.FiguresAreIgnored` | src/modules/collation/ocr-ec8a-parse.ts:261-271 | a figure never changes what is read, whatever stands behind it: the branch that compares it with the words makes no difference |
| `LabelMatching.GroupsExactly` | src/modules/collation/ocr-ec8a-parse.ts:159-169 | the groups are exactly the stretches of labels from one cut to the next, a cut being the start, the end, or a label with some number between it and its predecessor |
| `LabelMatching.LabelOnItsOwn` | src/modules/collation/ocr-ec8a-parse.ts:149-195 | on labels and numbers alone: a label with a number in front of it and in front of the next gets the first number up to the next label that is 10 or more, or any if the field may be small; and nothing if there is none |
| `LabelMatching.LabelsInARow` | src/modules/collation/ocr-ec8a-parse.ts:149-195 | labels with no number between one and the next: the k-th gets the k-th number behind the last of them, as far as they go, when none is too small |
| `RowClustering.HeightsExactly` | src/modules/collation/ocr-ec8a-layout.ts:73 | the median is taken over the positive heights, each as often as it occurs |
| `RowClustering.TokensInReadingOrder` | src/modules/collation/ocr-ec8a-layout.ts:76 | before the cut the tokens stand from top to bottom, and from left to right at the same height |
| `RaceBoard.KeptInOrder` | shared/src/parties.ts:29-43 | the kept parties stand in the order of the list, at exactly the positions whose code is new |
| `RaceBoard.UpperExactly` | shared/src/parties.ts:39 | codes are compared with the letters a to z as capitals |
| `Verification.ArithmeticVerdict` | src/modules/collation/ocr-verification.ts:91-211 | the verdict is RETURN iff some EC8A identity fails, iff there are diffs, iff there is a reject reason; APPROVE iff something was typed and nothing fails; each failing identity has its flag |
| `Verification.CheckIdentity` | src/modules/collation/ocr-verification.ts:121-190 | each of the five checks fails exactly when both sides of its identity are typed, in part or whole, and differ with null as 0; its diff names the typed number and the shortfall |
| `Verification.CheckIdentities` | src/modules/collation/ocr-verification.ts:121-190 | diffs and flags are those of the failing identities, in the order of the checks |
| `Verification.ArithmeticVerification` | src/modules/collation/ocr-verification.ts:91-211 | computes exactly the specified report |
| `Verification.SumPartyVotes` | src/modules/collation/ocr-verification.ts:49-61 | the loop gives null on an empty record and else the sum of all votes |
| `Verification.OcrVerificationWrite` | src/modules/collation/ocr-verification.ts:277-299 | a stored report is RETURN iff an identity fails, and never APPROVE while a photo awaits its check |
| `Verification.ResolveOcrVerification` | src/modules/collation/ocr-verification.ts:270-275 | the stored report if any; without one, nothing exactly when no figure was typed, and else APPROVE or RETURN, as the identities hold or not |
| `Verification.CountPuVerifications` | src/modules/collation/ocr-verification.ts:325-340 | each counter is the number of results with that recommendation, stored or computed, and they add up to the number of results |
| `Vision.MergeIsExact` | src/modules/collation/ocr-ec8a-parse.ts:473-579 | the merged verdict is RETURN iff an identity fails on the typed figures or the readable photo disagrees in a field, a party or the party sum, iff diffs remain after dedupe, iff a reason exists; it is APPROVE only with a readable photo |
| `Vision.ReadableMerge` | src/modules/collation/ocr-ec8a-parse.ts:500-578 | the same for an arbitrary arithmetic report: a RETURN is never lost |
| `Vision.FailedMerge` | src/modules/collation/ocr-ec8a-parse.ts:485-498 | an unreadable photo keeps RETURN, diffs and reason, and turns everything else into CHECK_PHOTO |
| `Vision.PhotoDiffsExact` | src/modules/collation/ocr-ec8a-parse.ts:503-547 | the photo adds a diff iff it adds a flag iff it disagrees somewhere |
| `Vision.NothingDeduplicated` | src/modules/collation/ocr-ec8a-parse.ts:553-556 | against the report of the same sheet the dedupe never drops a diff |
| `Vision.DedupeKeeps` | src/modules/collation/ocr-ec8a-parse.ts:553-556 | a list without two diffs of equal field and message passes the dedupe unchanged |
| `Vision.EmptySheetIsApproved` | src/modules/collation/ocr-ec8a-parse.ts:549-552 | on a sheet with nothing typed, any readable photo turns CHECK_PHOTO into APPROVE |
| `Vision.MergeVisionWithArithmetic` | src/modules/collation/ocr-ec8a-parse.ts:473-579 | the loops compute exactly the specified merge |
| `Vision.CompareFields` | src/modules/collation/ocr-ec8a-parse.ts:503-516 | diffs and flags of exactly the fields that differ, in field order |
| `Vision.CompareParties` | src/modules/collation/ocr-ec8a-parse.ts:518-534 | diffs and flags of exactly the parties that differ, in record order |
| `Vision.ComparePhoto` | src/modules/collation/ocr-ec8a-parse.ts:503-547 | field, party and party-sum diffs together; the sum is compared only when the valid votes were not already flagged |
| `Reconcile.ReconcileExtract` | src/modules/collation/ocr-ec8a-parse.ts:373-397 | the in-place completion equals a field-by-field specification |
| `Reconcile.ReconcileIdempotent` | src/modules/collation/ocr-ec8a-parse.ts:373-397 | completing a second time changes nothing |
| `Reconcile.ReconcileKeepsReadings` | src/modules/collation/ocr-ec8a-parse.ts:373-397 | a number that was read changes if and only if it is a votesCast below 10 and the party sum is at least 10, and then becomes that sum |
| `Reconcile.FinishExtract` | src/modules/collation/ocr-ec8a-parse.ts:417-441 | confidence reaches 0.75 iff an identity holds, and is else the share of the 16 items, at most 0.65; unreadable iff nothing was read, or no identity holds and at most 7 items were read |
| `Reconcile.FullRatingExactly` | src/modules/collation/ocr-ec8a-parse.ts:373-441 | when the completed reading gets the full rating, in terms of the raw one: a missing used-ballot count can never spoil it |
| `NumberWords.ParseNumberWords` | src/modules/collation/ocr-ec8a-words.ts:127-181 | the loop over tokens computes the specified scan, from any start position |
| `NumberWords.ParseWordsAt` | src/modules/collation/ocr-ec8a-words.ts:127-181 | the same on lexed words |
| `NumberWords.ScanWords` | src/modules/collation/ocr-ec8a-words.ts:134-180 | the loop with total, current and consumed equals the recursive scan |
| `NumberWords.Parse` | src/modules/collation/ocr-ec8a-words.ts:127-181 | a parsed number uses at least one word and no more than there are |
| `NumberWords.ParseInvertsNumeral` | src/modules/collation/ocr-ec8a-words.ts:127-181 | the parser inverts the English numeral of every number below 1000000, with or without "and", and stops at the right token, whatever follows that does not continue it |
| `NumberWords.ParseRunsOn` | src/modules/collation/ocr-ec8a-words.ts:147-162 | in front of words that do continue it, the parser reads a larger number |
| `NumberWords.StopsBeforeNumeral` | src/modules/collation/ocr-ec8a-words.ts:147-162 | whether a numeral for n stops before one for m, as a condition on n and m alone |
| `NumberWords.ReadsNumeral` | src/modules/collation/ocr-ec8a-words.ts:134-180 | reading a whole numeral leaves its last three digits in the open group |
| `NumberWords.LexToken` | src/modules/collation/ocr-ec8a-words.ts:111-114 | every figure and every word that numerals are made of is recognised under its own spelling |
| `NumberWords.LexSpell` | src/modules/collation/ocr-ec8a-words.ts:1-51 | the tables and aliases contain every canonical number word |
| `NumberWords.DecimalValue` | src/modules/collation/ocr-ec8a-parse.ts:261-262 | reading the decimal digits of a number gives the number |
| `NumberWords.NumeralWords` | src/modules/collation/ocr-ec8a-words.ts:1-42 | numerals use only words of the tables |
| `ColumnReader.ExtractWordScores` | src/modules/collation/ocr-ec8a-parse.ts:251-276 | the loop and the trimming at the end equal the recursive specification |
| `ColumnReader.ColumnRoundTrip` | src/modules/collation/ocr-ec8a-parse.ts:246-276 | a printed column whose lines cannot run together, each with or without "and", and with any names and figures behind its score, is read back exactly, up to the expected number; one extra score, the total, is dropped |
| `ColumnReader.ColumnReadsBackExactly` | src/modules/collation/ocr-ec8a-parse.ts:246-276 | with as many scores expected as lines, the column is read back if and only if each line is parted from the next, by a figure, by an unknown word, or by the numbers themselves |
| `ColumnReader.ColumnWithTotalReadsBackExactly` | src/modules/collation/ocr-ec8a-parse.ts:246-276 | with fewer scores expected than lines, as for a column with its total at the foot, the expected scores are read back if and only if each of their lines is parted from the next |
| `ColumnReader.FiguresSeparate` | src/modules/collation/ocr-ec8a-parse.ts:261-271 | a figure in front of every later line, even a wrong one, is enough |
| `ColumnReader.NonZeroLastDigitsSeparate` | src/modules/collation/ocr-ec8a-parse.ts:255-260 | without figures, scores that are 0 or do not end in the digit 0 are enough |
| `ColumnReader.CollectGoesWrong` | src/modules/collation/ocr-ec8a-parse.ts:255-260 | the first line that runs into the next is read as a larger number |
| `ColumnReader.TokensReadAsWords` | src/modules/collation/ocr-ec8a-words.ts:111-114 | the tokens of a printed column are read as the words they were printed from |
| `ColumnReader.ReadOne` | src/modules/collation/ocr-ec8a-parse.ts:254-273 | one turn of the loop: words first, then a figure confirmed by words, else skip |
| `LabelMatching.AssignClusteredFields` | src/modules/collation/ocr-ec8a-parse.ts:149-195 | the loop with one forward position gives the same fields as matching each group on its own |
| `LabelMatching.FieldIsWhatItsGroupPicked` | src/modules/collation/ocr-ec8a-parse.ts:167-192 | field by field: a label's field holds exactly the number that first fit in its group's window gives it, none if it gives none, and never a value below 10 in a large field |
| `LabelMatching.FitIsFirstFit` | src/modules/collation/ocr-ec8a-parse.ts:175-186 | the greedy loop is first fit: each field takes the first number after the previous pick that is not too small, and stays empty only when nothing suitable is left |
| `LabelMatching.FirstFitIsUnique` | src/modules/collation/ocr-ec8a-parse.ts:175-186 | the declarative first fit has only one answer |
| `LabelMatching.WindowIsASuffix` | src/modules/collation/ocr-ec8a-parse.ts:170-174 | a group looks only at numbers between its last label's end and the next group's start, and at all of them |
| `LabelMatching.LaterGroupsTakeLaterNumbers` | src/modules/collation/ocr-ec8a-parse.ts:159-194 | a later group only takes later numbers, so no number is used twice |
| `LabelMatching.PicksIncrease` | src/modules/collation/ocr-ec8a-parse.ts:175-186 | within a group numbers are taken in text order, each once |
| `LabelMatching.KthLabelGetsKthNumber` | src/modules/collation/ocr-ec8a-parse.ts:187-192 | when no window number is too small for any label of the group, the k-th label gets the k-th number |
| `LabelMatching.EveryLabelHasAGroup` | src/modules/collation/ocr-ec8a-parse.ts:159-169 | the groups cover all labels |
| `LabelMatching.GroupShape` | src/modules/collation/ocr-ec8a-parse.ts:160-167 | a label's group contains it and ends at the first later label with some number between it and its predecessor |
| `LabelMatching.TakeNumbers` | src/modules/collation/ocr-ec8a-parse.ts:175-186 | the inner loop takes exactly the first-fit picks and never goes past the group's window |
| `LabelMatching.GiveNumbers` | src/modules/collation/ocr-ec8a-parse.ts:187-192 | the second check for small values never drops one |
| `LabelMatching.FindGroupEnd` | src/modules/collation/ocr-ec8a-parse.ts:160-166 | the loop over labels stops at the first later label with some number between it and its predecessor |
| `RowClustering.ClusterRows` | src/modules/collation/ocr-ec8a-layout.ts:71-89 | the loop cuts the tokens in reading order greedily into rows and sorts each row |
| `RowClustering.RowsPartitionTokens` | src/modules/collation/ocr-ec8a-layout.ts:71-89 | rows are non-empty, run from left to right, and together hold every token exactly once; no rows without tokens |
| `RowClustering.RowsAreUnique` | src/modules/collation/ocr-ec8a-layout.ts:78-87 | the greedy cut is determined by the tokens |
| `RowClustering.RowsSeparate` | src/modules/collation/ocr-ec8a-layout.ts:78-87 | no token of a later row lies above one of an earlier row, and every token of the next row lies beyond the row's mean plus the tolerance |
| `RowClustering.RowSpanBounded` | src/modules/collation/ocr-ec8a-layout.ts:84-86 | two tokens of a row of k tokens lie at most tol (1 + 1/2 + ... + 1/(k-1)) apart, in spite of the drifting mean |
| `RowClustering.RowSpanReached` | src/modules/collation/ocr-ec8a-layout.ts:84-86 | for every k there are k tokens for which that bound is reached: rows can be arbitrarily high |
| `RowClustering.MeanDrift` | src/modules/collation/ocr-ec8a-layout.ts:84-85 | the mean of a row of k tokens has moved at most tol (1/2 + ... + 1/k) from its first token |
| `RowClustering.SortSorted` | src/modules/collation/ocr-ec8a-layout.ts:76-88 | the sort orders its input |
| `RowClustering.SortPermutes` | src/modules/collation/ocr-ec8a-layout.ts:76-88 | the sort permutes its input |
| `RowClustering.SortStable` | src/modules/collation/ocr-ec8a-layout.ts:76-88 | the sort is stable |
| `RowClustering.Tolerance` | src/modules/collation/ocr-ec8a-layout.ts:75 | the tolerance is the larger of 18 and seven tenths of the median height |
| `RowClustering.MedianIsInTheMiddle` | src/modules/collation/ocr-ec8a-layout.ts:73-74 | the height picked from the sorted positive heights is one of them, more than half are at most it and at least half are at least it |

## Left out

- Regular expressions and raw text: label patterns, number search, location codes, the party table, the pattern fields and the cut at "total valid votes" (src/modules/collation/ocr-ec8a-parse.ts:104-147, 197-244, 248-249, 278-371); label hits, found numbers and lower-case tokens are inputs.
- The split of joined words in `tokenizeOcr` (src/modules/collation/ocr-ec8a-words.ts:53-64, 116-125): tokens are taken as they come out of it. The one word its lookup confuses with a built-in property, `constructor`, makes the split fail; in the number parser it is an unknown word, as in the model.
- ColumnReader.ExtractWordScores: starts from the tokens, after the cut at "total valid votes" and the split of joined words.
- Service.CollationService.UpsertResult: an explicit null for the party record or the photo list is not modelled, because what the database client makes of it is not in the repository.
- Verification.ResolveOcrVerification: a stored report is taken as well-formed, without the sanitising of its JSON (src/modules/collation/ocr-verification.ts:213-268).
- The summary and party readers on top of the rows, and the choice between text and layout (src/modules/collation/ocr-ec8a-layout.ts:91-180, src/modules/collation/ocr-ec8a-parse.ts:443-465).
- RowClustering.RowSpanBounded: floating-point rounding of the mean is not modelled, because coordinates are real numbers.
- Conservation.LgaConservation: stops at LGA level; an LGA rollup is APPROVED without rolling up further, and a STATE or NATIONAL rollup resets its row to DRAFT (src/modules/collation/collation.service.ts:1875-1883).
- Interleavings inside one endpoint, which reads and then writes without a transaction.
- Time stamps, names, actors, comments, rejection reasons, notifications and the words of error messages; a diff message is kept as its template and numbers.
- Sorting, filtering and paging of lists, name lookups, the dashboard and the read-only viewers.
- Ranking, shares, race lead, reporting and incident maps of the race board (src/modules/collation/collation-browse.service.ts:29-69, 1095-1160, 1208-1350).
- Party votes that are not numbers, which the program skips or reads as zero.
- Prisma, HTTP, authentication, queues, Google Vision, caches, uploads and metrics: a query is a filter over the stored rows, and what the vision service returns is an input.
