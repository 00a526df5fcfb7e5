# Grant ingestion pipeline, modelled in Dafny

This project models the ingestion core of the knowledge_system grant
repository. That core turns raw Writing Schedule rows into typed
grant-task records:

- the date and decimal parsing helpers;
- the row decomposer, which yields natural keys and one of four task blueprints;
- the blueprint and task-entity records, with their non-negative-amount invariants;
- the orchestrator, which resolves natural keys against three reference
  tables and then builds entities, plus its batch loop;
- the status-semantics tables and the predicates derived from them;
- the legacy row parser, with its keyword classifiers;
- the constructor validators of the Funder, DevTeamMember, Grant, LOI,
  Proposal and Document entities;
- the Timeline and the statistics value objects.

Each source file becomes one Dafny module:

| module | source |
|---|---|
| `DataParsing` | `data/services/data_parsing.py` |
| `Decomposer` | `data/services/writing_schedule_decomposer.py` |
| `TaskService` | `data/services/task_service.py` |
| `ScheduleTask` | `data/basic_entities/schedule_task.py` |
| `Orchestrator` | `data/services/orchestrator.py` |
| `StatusSemantics` | `data/services/status_semantics.py` |
| `Parser` | `data/adapters/writing_schedule/parser.py` |
| `Schema` | `data/adapters/writing_schedule/schema.py` |
| `FunderEntity`, `DevTeam`, `GrantEntity`, `LoiEntity`, `ProposalEntity`, `ReportEntity`, `DocumentEntity` | `data/entities/*.py` |
| `ValueObjects` | `data/entities/value_objects.py` |

Four support modules stand in for the Python standard library:

- `Wrappers`: `Option` and `Result`.
- `Seqs`: associativity of list concatenation, stated once.
- `Text`: ASCII `lower`, `strip`, substring search and digit strings.
- `Calendar`: naive `datetime` values, with their order and the floor of a
  difference in days.

Modelling conventions:

- **Raising constructors.** A dataclass whose `__post_init__` raises
  becomes a `Create` function. It returns the record, or the error that is
  raised first.
- **Funder.** `__post_init__` and `add_alias` rewrite `all_names` in
  place, so `Funder` is a class. Its methods are specified by pure
  functions on the name list.
- **The database.** The SQLite database becomes the `ReferenceStore`
  class. It holds three maps and two id counters, and its insert methods
  are specified by pure functions on a `StoreState` snapshot.
- **The batch loop.** `process_batch` is a `while` loop. Its invariants tie
  the counters, the error log and the store to functions of the rows
  processed so far.
- **The clock.** The clock is a `now` parameter wherever the source reads
  `datetime.now()`. A call that reads the clock twice gets one instant for
  both reads (see Decomposer.BuildCore under "## Left out").
- **One-line properties.** `DashboardData.HasUrgentItems`,
  `DashboardData.FilteredCount`, `FunderOverview.GrantCount` and
  `FunderOverview.DocumentCount` transcribe one-line properties of
  value_objects.py. Nothing further is proved about them, so they have no
  row in the table.
- **Amounts.** Exact decimals are `Decimal(negative, coefficient, scale)`.
  Python floats are Dafny `real`s, which only take part in sign checks and
  guarded divisions.

Two points where the source's own text could suggest other behaviour:

- The funder identifier. The error message at data/entities/funder.py:66
  speaks of "BN + 6 hex digits", but the checks at
  data/entities/funder.py:58 and :64 test only the `BN` prefix and a length
  of 8. The model checks exactly those two things.
- `"Proposal & Report"` rows. Unlike
  data/adapters/writing_schedule/parser.py:67-72, which returns a proposal
  and a report for them, `decompose_row` sends these rows to the Reminder
  branch (data/services/writing_schedule_decomposer.py:90-92).

## Model

| member | source | states |
|---|---|---|
| DataParsing.ParseDate | data/services/data_parsing.py:18-42 | None or "" gives None. Any result is a valid calendar date at midnight. |
| DataParsing.ParseFields | data/services/data_parsing.py:39-40 | A zero-padded `YYYY-MM-DD` text for a real date parses to that date at midnight. |
| DataParsing.ParseFormattedDate | data/services/data_parsing.py:39-40 | Round trip: parsing the formatted date gives the date at midnight. |
| DataParsing.ParsedDateFormatsBack | data/services/data_parsing.py:39-40 | Round trip: a text that parses formats back to itself, so the accepted texts are exactly the canonical ones. |
| DataParsing.ParseDateExample | data/services/data_parsing.py:28-30 | "2024-08-30" gives 2024-08-30 00:00. |
| DataParsing.ParseDateRejects | data/services/data_parsing.py:41-42 | An impossible date ("2023-02-29") and non-date text give None, not an exception. |
| DataParsing.IsNegativeMeansBelowZero | data/services/task_service.py:116 | A decimal's sign flag with a non-zero coefficient means exactly `value < 0`. |
| DataParsing.ParseDecimal | data/services/data_parsing.py:45-71 | None, "" and whitespace-only text give None. |
| DataParsing.ParseFormattedDecimal | data/services/data_parsing.py:68-69 | Round trip: every decimal's canonical text parses back to that exact decimal. |
| DataParsing.ParseDecimalExample | data/services/data_parsing.py:55-57 | "100000.50" gives exactly 100000.50, with no rounding. |
| DataParsing.ParseDecimalRejectsStray | data/services/data_parsing.py:70-71 | Text with a character that is not a digit, not the point and not a sign gives None, not an exception. |
| DataParsing.ParseDecimalRejectsWord | data/services/data_parsing.py:62-63 | "invalid" gives None. |
| DataParsing.ParseDecimalRejectsBarePoint | data/services/data_parsing.py:70-71 | "." gives None. |
| DataParsing.ParseDecimalRejectsTwoPoints | data/services/data_parsing.py:70-71 | "1.2.3" gives None. |
| Decomposer.OrElse | data/services/writing_schedule_decomposer.py:42-45 | `s or default`: the string when present and non-empty, otherwise the default. |
| Schema.IsPresent | data/services/writing_schedule_decomposer.py:42-45 | Python truthiness of an optional string: neither None nor "". OrElse and the parser's `if not row.type` (data/adapters/writing_schedule/parser.py:54) read it. |
| Schema.IsReportType | data/services/writing_schedule_decomposer.py:87 | The membership test `row.type in ("Report", "Final Report", "Interim Report")`, which data/adapters/writing_schedule/parser.py:64 repeats. DecomposeRowDispatch and ParseDispatch state the dispatch through it. |
| Decomposer.BuildCore | data/services/writing_schedule_decomposer.py:66-78 | The core repeats the keys, copies the task id, the type (default "Unknown") and the program fields, and takes each date parsed, or `now` when it does not parse. |
| Decomposer.BuildProposalBlueprint | data/services/writing_schedule_decomposer.py:106-126 | Fails iff the amount parses to a negative number. Otherwise the amount is the parsed one, or zero. |
| Decomposer.ExtractTaskBlueprint | data/services/writing_schedule_decomposer.py:53-92 | A result keeps the core and satisfies the blueprint invariant. |
| Decomposer.DecomposeRow | data/services/writing_schedule_decomposer.py:29-50 | Failure iff a Proposal row's amount is negative. The defaults are "UNKNOWN", "Unknown Funder" and "Unknown". `owner_name` is None iff the owner is missing or empty. The core repeats the keys, and the blueprint satisfies its invariant. |
| Decomposer.DecomposeRowCopiesRow | data/services/writing_schedule_decomposer.py:66-78 | The core copies the row's task id, type (default "Unknown") and program fields. Each date is parsed, or is the clock when it does not parse. |
| Decomposer.DecomposeRowDispatch | data/services/writing_schedule_decomposer.py:80-92 | The blueprint kind follows the exact type string, as four iffs. "Proposal & Report" and every other string give a reminder. |
| Decomposer.DecomposeRowFields | data/services/writing_schedule_decomposer.py:95-148 | Every kind-specific field of the four blueprints, copied or parsed from the row. |
| Decomposer.BuildLoiBlueprint | data/services/writing_schedule_decomposer.py:95-104 | The LOI fields, which DecomposeRowFields states field by field for a decomposed LOI row. |
| Decomposer.BuildReportBlueprint | data/services/writing_schedule_decomposer.py:129-141 | The report fields. DecomposeRowFields states them for a decomposed report row, whose type is the row's own, so the "Report" default is never reached there. |
| Decomposer.BuildReminderBlueprint | data/services/writing_schedule_decomposer.py:143-148 | The note is the row's dev-team notes, as DecomposeRowFields states. |
| TaskService.NewProposalBlueprint | data/services/task_service.py:84-117 | Fails iff `amount_requested < 0`, with that amount. Otherwise the record holds the given fields and is valid. |
| TaskService.ZeroAmountAccepted | data/services/task_service.py:116-117 | Zero, including negative zero, is accepted. |
| ScheduleTask.NewProposal | data/basic_entities/schedule_task.py:144-197 | Fails iff `amount_requested < 0`. Otherwise the entity holds the given fields. |
| ScheduleTask.Reminder.NotePreview | data/basic_entities/schedule_task.py:296-299 | The whole note when it has at most 30 characters, otherwise its first 30 characters and "...". |
| ScheduleTask.ScheduledTask.Core | data/basic_entities/schedule_task.py:36-56 | The protocol as a closed sum of the four task kinds. Each kind's accessors read its `core`, so `Core` selects the core of whichever kind it is. |
| ScheduleTask.ScheduledTask.TaskId | data/basic_entities/schedule_task.py:122-124 | `task_id` is `core.task_id`, as in each kind (also lines 178-180, 243-245, 280-282). BuildTaskEntityRoundTrip relies on it. |
| ScheduleTask.ScheduledTask.Deadline | data/basic_entities/schedule_task.py:126-128 | `deadline` is `core.deadline`, as in each kind (also lines 182-184, 247-249, 284-286). |
| ScheduleTask.ScheduledTask.TaskType | data/basic_entities/schedule_task.py:130-132 | `task_type` is `core.task_type`, as in each kind (also lines 186-188, 251-253, 288-290). |
| ScheduleTask.ScheduledTask.StatusId | data/basic_entities/schedule_task.py:134-136 | `status_id` is `core.status_id`, as in each kind (also lines 190-192, 255-257, 292-294). |
| ScheduleTask.ScheduledTask.Valid | data/basic_entities/schedule_task.py:194-197 | Only the proposal kind has an invariant, the non-negative requested amount. NewProposal establishes it and BuildTaskEntity keeps it. |
| Orchestrator.InsertOrIgnoreStatus | data/services/orchestrator.py:135-138 | An absent key gets the next id. A present key leaves the store unchanged. Ids stay positive, bounded and distinct. |
| Orchestrator.InsertOrReplaceFunder | data/services/orchestrator.py:150-153 | Last write wins: that row is replaced and every other funder is kept. |
| Orchestrator.InsertOrIgnoreOwner | data/services/orchestrator.py:162-165 | An absent name gets the next id. A present name leaves the store unchanged. Ids stay valid. |
| Orchestrator.ReferenceStore.InsertOrIgnoreStatusRow | data/services/orchestrator.py:135-138 | The new state is `InsertOrIgnoreStatus` of the old one. The result says whether a row was inserted. |
| Orchestrator.ReferenceStore.SelectStatus | data/services/orchestrator.py:140-146 | Some id iff the key is in the table, and then its id. |
| Orchestrator.ReferenceStore.InsertOrReplaceFunderRow | data/services/orchestrator.py:150-153 | The new state is `InsertOrReplaceFunder` of the old one. |
| Orchestrator.ReferenceStore.InsertOrIgnoreOwnerRow | data/services/orchestrator.py:161-167 | The new state is `InsertOrIgnoreOwner` of the old one. The result says whether a row was inserted. |
| Orchestrator.ReferenceStore.SelectOwner | data/services/orchestrator.py:169-174 | Some id iff the name is in the table, and then its id. |
| Orchestrator.StatusResolutionIdempotent | data/services/orchestrator.py:135-146 | Resolving the same (text, source) pair again gives the same id and leaves the status table alone. The first resolution adds only that key. |
| Orchestrator.FunderUpsert | data/services/orchestrator.py:149-155 | Afterwards `funders[bernie] == canonical` and `funder_id == bernie`. The status flag is false, from the row count after a SELECT. The funder flag is true on every write. |
| Orchestrator.OwnerResolution | data/services/orchestrator.py:157-174 | A missing or empty name gives no owner id, the flag false and the table unchanged. Otherwise the name is inserted only if absent, the flag holds iff it was new, and the id is that name's row. |
| Orchestrator.ResolvePreservesValid | data/services/orchestrator.py:114-185 | Resolution keeps the surrogate ids positive, below the counters and distinct, and the status id is one of them. |
| Orchestrator.Resolve | data/services/orchestrator.py:114-185 | The resolution as a function of the store. Its properties are stated by StatusResolutionIdempotent, FunderUpsert, OwnerResolution and ResolvePreservesValid, and ResolveForeignKeys is proved against it. |
| Orchestrator.TaskOrchestrator.ResolveForeignKeys | data/services/orchestrator.py:114-185 | The SQL steps in source order. The new store and the result are exactly `Resolve` of the old store. |
| Orchestrator.BuildTaskEntity | data/services/orchestrator.py:187-255 | Fails iff the blueprint breaks the Proposal invariant. Otherwise the core is the blueprint's core with the resolved ids, the variant is kept and the entity is valid. |
| Orchestrator.BuildTaskEntityRoundTrip | data/services/orchestrator.py:199-255 | Every field is copied: putting the natural keys back into the entity gives the blueprint again. The entity carries the resolved status and owner ids. |
| Orchestrator.RowFailure | data/services/orchestrator.py:94-101 | A row fails iff the funder check, the owner check (when an owner is present) or the blueprint invariant fails. A funder error comes first. A row-level failure is never the unpack error. |
| Orchestrator.UnknownFunderWrittenThenRejected | data/services/orchestrator.py:84-97 | A row with bernie number "UNKNOWN" writes its funder row and is then rejected with an invalid-prefix error. |
| Orchestrator.TaskOrchestrator.ProcessDecomposedRow | data/services/orchestrator.py:60-112 | The store is always advanced by the resolution, whether or not the row then fails. The row fails iff `RowFailure` does, with that error. A success returns a fresh valid funder, the owner record, the built task and the lineage metadata. |
| Orchestrator.ElementFailure | data/services/orchestrator.py:286-320 | An element fails with the unpack error iff it is a tuple too short to unpack. |
| Orchestrator.ErrorLog | data/services/orchestrator.py:314-318 | One entry per failing row, in input order, never more entries than rows. |
| Orchestrator.SucceededCount | data/services/orchestrator.py:312 | Successes plus logged errors equal the number of rows. |
| Orchestrator.RowEntity | data/services/orchestrator.py:286-303 | An element adds at most one entry, and it adds none exactly when it fails. |
| Orchestrator.ExpectedEntitiesCount | data/services/orchestrator.py:298-312 | One entry per processed row: the entities list and the success count have the same length. |
| Orchestrator.FlagTallies | data/services/orchestrator.py:305-310 | Over a batch's entries, the status flag is never set and the funder flag always is. The owner flag is set at most once per entry. |
| Orchestrator.ExpectedFundersPass | data/services/orchestrator.py:84-97 | Every entry of a batch comes from a row whose bernie number and name pass the Funder checks. |
| Orchestrator.ReportedFundersValid | data/services/orchestrator.py:94-97 | A processed row that holds such an entry carries a valid funder. |
| Orchestrator.StepFailed | data/services/orchestrator.py:314-318 | A failing element extends the error log by its tagged error. It leaves `entities`, the counters and the expected entries unchanged. |
| Orchestrator.StepSucceeded | data/services/orchestrator.py:298-312 | A passing element's processed row is appended. The counters grow by its flags, and the results still report the expected entries. |
| Orchestrator.MiddleRowRejected | data/services/orchestrator.py:267-320 | A three-row batch whose middle proposal has a negative amount processes two rows. It logs one error, tagged with the middle task's id and carrying the negative-amount rejection. Its entries are the first and third rows', in order. |
| Orchestrator.MiddleRowLogged | data/services/orchestrator.py:314-318 | In such a batch the error log holds the middle row's error alone. |
| Orchestrator.MiddleRowRecords | data/services/orchestrator.py:298-303 | In such a batch the entries are those of the first and last rows. |
| Orchestrator.FirstRowRecord | data/services/orchestrator.py:298-303 | A passing row followed by a failing one gives the first row's entry alone. |
| Orchestrator.NegativeProposalRejected | data/services/orchestrator.py:99-101 | A proposal row whose amount is negative fails with the negative-amount error. |
| Orchestrator.PassingRecord | data/services/orchestrator.py:60-112 | A row that passes every check gives one entry, with its bernie number and its task id. |
| Orchestrator.ErrorLogTags | data/services/orchestrator.py:316-318 | A batch whose rows all pass logs nothing. Unpack errors are tagged "unknown". |
| Orchestrator.BatchOrchestrator.ProcessBatch | data/services/orchestrator.py:267-320 | The loop proved against its specification. The error log is `ErrorLog(rows)`, and processed plus errors equals the number of rows. `entities` holds, in input order, one entry per passing row, with that row's funder fields, owner, task and metadata (`ExpectedEntities`). Each counter equals the number of entries whose was-new flag is set, so `new_statuses` is 0 and `new_funders` equals `processed`. Every reported funder is valid. The store is the fold of resolutions over the rows that unpack. |
| Orchestrator.BatchOrchestrator.ProcessElement | data/services/orchestrator.py:287-296 | Unpacking then processing advances the store by one step. The element fails iff `ElementFailure` says so, with that error. On success the result holds the element's entry, with a fresh funder. |
| Orchestrator.BatchOrchestrator.ProcessStep | data/services/orchestrator.py:286-318 | One pass of the loop carries the store, the error log and the report of the expected entries from the first `i` rows to the first `i + 1`. |
| StatusSemantics.DefaultSemantics | data/services/status_semantics.py:280-290 | NEEDS_REVIEW, not actionable, not terminal, needs follow-up, with the description "Status {id} needs semantic mapping". |
| StatusSemantics.LoiSemantics | data/services/status_semantics.py:80-169 | Every entry is coherent. Ids outside {1,3,4,5,6,8,10,11} need review with the fixed description. |
| StatusSemantics.ProposalSemantics | data/services/status_semantics.py:171-234 | Every entry is coherent. Ids outside {1,2,4,7,8,9} get the default. |
| StatusSemantics.ReportSemantics | data/services/status_semantics.py:236-278 | Never NEEDS_REVIEW. Ids outside {4,5,7} are ACTIONABLE and actionable. Id 5 is ACTIONABLE yet not actionable. |
| StatusSemantics.GetSemantics | data/services/status_semantics.py:52-78 | Exact dispatch on "LOI", "Proposal" and "Report", with the default otherwise. Every result is coherent: terminal iff unsuccessful or complete, waiting never actionable, review never actionable and always flagged. |
| StatusSemantics.StatusOneExamples | data/services/status_semantics.py:99-106 | Status 1 is SUCCESSFUL for both LOIs and proposals, with their two descriptions. |
| StatusSemantics.UnlistedTypesGetDefault | data/services/status_semantics.py:76-78 | "Reminder" and "Final Report" get the default semantics. |
| StatusSemantics.SuccessIsStatusOne | data/services/status_semantics.py:294-312 | `was_successful` iff status 1 of an LOI or a proposal. It then implies actionable, needs follow-up and not terminal. |
| StatusSemantics.ActionableTasks | data/services/status_semantics.py:315-321 | The result holds only actionable tasks from the input and every actionable task of the input. |
| StatusSemantics.IsActionable | data/services/status_semantics.py:294-298 | The table's flag. ActionableTasks filters by it, and SuccessIsStatusOne shows every successful task is actionable. |
| StatusSemantics.WasSuccessful | data/services/status_semantics.py:301-305 | Characterised by SuccessIsStatusOne: status 1 of an LOI or a proposal. |
| StatusSemantics.NeedsFollowUp | data/services/status_semantics.py:308-312 | The table's flag. SuccessIsStatusOne shows it holds for every successful task. |
| StatusSemantics.ActionableTasksAppend | data/services/status_semantics.py:315-321 | The filter keeps order: it distributes over concatenation. |
| StatusSemantics.ActionableTasksIdempotent | data/services/status_semantics.py:315-321 | Filtering twice equals filtering once. |
| Parser.ParseAmount | data/adapters/writing_schedule/parser.py:202-218 | None for missing or unparsable text, otherwise the parsed value. |
| Parser.MapStatusToProposal | data/adapters/writing_schedule/parser.py:225-252 | Case-sensitive containment in the order Awarded, Application Submitted, Denied, Withdrawn/Forgone. Each output holds iff its keyword is the first to match. Otherwise 'active'. |
| Parser.MapStatusToReport | data/adapters/writing_schedule/parser.py:255-269 | 'submitted' iff "Report Submitted" or "Follow-Up Complete". Otherwise 'completed' iff "Denied" or "Withdrawn". Otherwise 'active'. |
| Parser.MapStatusToLoi | data/adapters/writing_schedule/parser.py:272-288 | "LOI Submitted" is checked before "Awarded". The output is always in the LOI vocabulary. |
| Parser.MapStatusToProspect | data/adapters/writing_schedule/parser.py:291-307 | Research, then Planned/Draft, then Withdrawn/Forgone/Ineligible, else 'active'. |
| Parser.MissingStatusIsActive | data/adapters/writing_schedule/parser.py:238-239 | A missing or empty status gives 'active' in all four classifiers. |
| Parser.AwardedStatusExample | data/adapters/writing_schedule/parser.py:242-243 | "1. Awarded" is 'awarded' for proposals and 'invited' for LOIs. |
| Parser.InferReportType | data/adapters/writing_schedule/parser.py:314-335 | 'final' iff the type contains "Final". Otherwise 'interim' iff it contains "Interim". Otherwise None. |
| Parser.FinalReportType | data/adapters/writing_schedule/parser.py:330-331 | "Final Report" gives 'final'. |
| Parser.InterimReportType | data/adapters/writing_schedule/parser.py:332-333 | "Interim Report" gives 'interim'. |
| Parser.GenericReportType | data/adapters/writing_schedule/parser.py:334-335 | A type with neither an 'F' nor an 'I' gives None. |
| Parser.PlainReportType | data/adapters/writing_schedule/parser.py:334-335 | "Report" gives None. |
| Parser.CombinedReportType | data/adapters/writing_schedule/parser.py:334-335 | "Proposal & Report" gives None. |
| Parser.ToProposal | data/adapters/writing_schedule/parser.py:83-110 | Fails iff an amount is negative. Otherwise it holds the task id, deadline, mapped status and parsed amounts. |
| Parser.ToReport | data/adapters/writing_schedule/parser.py:113-132 | The deadline comes from `reports_due`, the status from the report classifier and the type from `InferReportType`. |
| Parser.ToLoi | data/adapters/writing_schedule/parser.py:135-156 | Fails iff the amount is negative. Otherwise the status comes from the LOI classifier. |
| Parser.ParseWritingScheduleRow | data/adapters/writing_schedule/parser.py:29-80 | [] for a missing or unrecognised type. At most two entities, all with the row's task id. An error comes only from a dispatched constructor. |
| Parser.ParseDispatch | data/adapters/writing_schedule/parser.py:29-80 | One entity per single type, failing exactly when its constructor fails. Exactly [Proposal, Report] for "Proposal & Report". |
| Parser.CombinedRowSplits | data/adapters/writing_schedule/parser.py:67-72 | A valid combined row gives a Proposal and then a Report. |
| Parser.ReminderGivesNothing | data/adapters/writing_schedule/parser.py:74-80 | "Reminder" rows give []. |
| FunderEntity.FunderCheck | data/entities/funder.py:51-87 | Succeeds iff the BN prefix, length 8, a non-blank name and a 9-digit EIN (when given) all hold. Each failure gives its error, checked in source order. |
| FunderEntity.NormalizeNames | data/entities/funder.py:74-78 | The canonical name is in the result. An empty list becomes [canonical]. A missing canonical name is prepended. The other names keep their order. |
| FunderEntity.NormalizeNamesIdempotent | data/entities/funder.py:74-78 | Normalising twice equals normalising once. |
| FunderEntity.WithAliasSpec | data/entities/funder.py:134-149 | A blank alias changes nothing. The list grows by at most one, by the trimmed alias, exactly when `has_alias` is false. Afterwards the alias is present. |
| FunderEntity.WithAliasIdempotent | data/entities/funder.py:144-149 | Adding the same alias twice equals adding it once. |
| FunderEntity.WithAliasKeepsNames | data/entities/funder.py:144-149 | Existing names are kept. |
| FunderEntity.Funder.PostInit | data/entities/funder.py:51-87 | The error is `FunderCheck` of the fields. `all_names` is normalised iff the bernie and name checks pass. The object is valid iff there is no error. |
| FunderEntity.Funder.AddAlias | data/entities/funder.py:134-149 | `all_names` becomes `WithAlias` of the old list, and the other fields are unchanged. |
| FunderEntity.Create | data/entities/funder.py:51-87 | Fails iff `FunderCheck` fails. A new funder is fresh and valid, with `all_names` normalised. |
| FunderEntity.AliasesAfterAdd | data/entities/funder.py:89-105 | After construction the canonical name is an alias, and so is any non-blank alias added later. |
| FunderEntity.FuzzyMatching | data/entities/funder.py:107-132 | An exact match implies a fuzzy one. For a non-blank name, a fuzzy match holds iff there is lowercase substring containment in either direction. |
| FunderEntity.BlankNameMatchesEveryFunder | data/entities/funder.py:118-130 | As written, " " fuzzily matches every valid funder. The corrected matcher refuses it. |
| FunderEntity.MatchersAgreeOnNonBlank | data/entities/funder.py:118-130 | Both matchers agree on every non-blank name. |
| FunderEntity.Funder.HasAlias | data/entities/funder.py:89-105 | Lower-cased, trimmed membership. AliasesAfterAdd shows the canonical name and every added alias satisfy it. |
| FunderEntity.Funder.MatchesName | data/entities/funder.py:107-132 | The corrected matcher. FuzzyMatching characterises it: exact implies fuzzy, and a blank name never matches. |
| FunderEntity.Funder.MatchesNameAsWritten | data/entities/funder.py:107-132 | The matcher as written. BlankNameMatchesEveryFunder exhibits the blank-name defect, and MatchersAgreeOnNonBlank shows it agrees with MatchesName elsewhere. |
| FunderEntity.WithAlias | data/entities/funder.py:144-149 | The name list after `add_alias`. WithAliasSpec, WithAliasIdempotent and WithAliasKeepsNames state its properties. |
| DevTeam.Create | data/entities/dev_team.py:43-52 | Fails with the missing-name error on a blank name. Otherwise it fails on a non-empty email without '@'. |
| DevTeam.NameCheck | data/entities/dev_team.py:47-48 | A whitespace-only name fails. A missing or empty email is accepted. |
| DevTeam.MatchesNameProperties | data/entities/dev_team.py:54-70 | Self-match, invariance under lowercasing and trimming, and symmetry. |
| DevTeam.NoMatch | data/entities/dev_team.py:67-70 | "" never matches, and a name that differs after lowercasing and trimming does not match. |
| DevTeam.DevTeamMember.MatchesName | data/entities/dev_team.py:54-70 | Case- and whitespace-insensitive name equality. MatchesNameProperties and NoMatch state its properties. |
| GrantEntity.Grant.DaysUntilDeadline | data/entities/grant.py:151-165 | None iff there is no deadline. Otherwise the floor of the difference in days: `days*D <= deadline - now < (days+1)*D`. |
| Calendar.DaysBetween | data/entities/grant.py:164-165 | `timedelta.days`: the floor of the difference in days, `days*D <= later - earlier < (days+1)*D`. It is negative iff `later` is earlier. |
| GrantEntity.Create | data/entities/grant.py:82-112 | Succeeds iff the bernie number, the names and the amounts are valid. Each failure gives its error in source order. |
| GrantEntity.AnyStatusAccepted | data/entities/grant.py:101-105 | The status never affects construction. |
| GrantEntity.UrgentOverdueExclusive | data/entities/grant.py:114-149 | Urgent and overdue exclude each other. Without a deadline the grant is neither. |
| GrantEntity.OverdueIffPassed | data/entities/grant.py:135-149 | Overdue iff the deadline is strictly before `now`. |
| GrantEntity.UrgentWindow | data/entities/grant.py:114-133 | Both directions: urgent iff there is a deadline, it is not before `now`, and it is less than `threshold + 1` days after `now`, that is at most `threshold` whole days. |
| GrantEntity.DeniedInAnyCase | data/entities/grant.py:167-174 | Every status that lower-cases to "denied", such as "Denied" or "DENIED", is inactive. |
| GrantEntity.DeniedSpellings | data/entities/grant.py:167-174 | "Denied" and "DENIED" are both inactive. |
| GrantEntity.AwardedIsActive | data/entities/grant.py:167-174 | "awarded" is active. |
| GrantEntity.IsActiveIgnoresCase | data/entities/grant.py:167-174 | For every status string, `is_active` gives the same answer as for its lower-cased form. |
| GrantEntity.StandardStatusesActive | data/entities/grant.py:167-174 | Of the six standard statuses, exactly denied, withdrawn and completed are inactive. |
| GrantEntity.OpenStatusActive | data/entities/grant.py:167-174 | A status written as "active", "submitted" or "awarded" is active. |
| GrantEntity.ClosedStatusInactive | data/entities/grant.py:167-174 | A status written as "denied", "withdrawn" or "completed" is inactive. |
| GrantEntity.OpenInitial | data/entities/grant.py:167-174 | A status that does not begin with d, w or c, in either case, is active. |
| GrantEntity.Grant.IsUrgent | data/entities/grant.py:114-133 | Characterised in both directions by UrgentWindow. UrgentOverdueExclusive shows it excludes overdue, and that without a deadline a grant is not urgent. |
| GrantEntity.Grant.IsOverdue | data/entities/grant.py:135-149 | Characterised by OverdueIffPassed: overdue iff the deadline is before `now`. |
| GrantEntity.Grant.IsActive | data/entities/grant.py:167-174 | Case-insensitive by IsActiveIgnoresCase. Decided on the standard statuses by StandardStatusesActive. |
| LoiEntity.Create | data/entities/loi.py:50-60 | Fails iff the status is outside {active, submitted, invited, declined} or the amount is negative. The status is checked first. |
| LoiEntity.DefaultsAccepted | data/entities/loi.py:29-37 | The default record, with status 'active' and no amount, is accepted. |
| LoiEntity.AmountSign | data/entities/loi.py:59-60 | With a valid status, a given amount is accepted iff it is at least zero. |
| ProposalEntity.Create | data/entities/proposal.py:57-66 | Fails iff an amount is present and negative. The requested amount is checked first. |
| ProposalEntity.StatusNotValidated | data/entities/proposal.py:57-66 | The status never matters. None amounts and zero amounts are accepted. |
| DocumentEntity.Create | data/entities/document.py:40-46 | Succeeds iff the path and the name are non-empty. The path is checked first. |
| DocumentEntity.CreateExamples | data/entities/document.py:29-46 | The metadata defaults to None. The error messages are "File path is required" and "File name is required". |
| ValueObjects.SortByDate | data/entities/value_objects.py:48-51 | The result is date-ordered and a permutation of the input. |
| ValueObjects.SortByDateStable | data/entities/value_objects.py:48-51 | The sort is stable: events with equal dates keep their input order. |
| ValueObjects.Timeline.SortedEvents | data/entities/value_objects.py:48-51 | A date-ordered permutation of `events`. |
| ValueObjects.PastThenFuture | data/entities/value_objects.py:62-72 | The past events followed by the future events are exactly the sorted events, and the two parts are disjoint. |
| ValueObjects.Timeline.PastEvents | data/entities/value_objects.py:62-66 | The sorted events before `now`. PastThenFuture shows they precede the future events and together give the sorted events. |
| ValueObjects.Timeline.FutureEvents | data/entities/value_objects.py:68-72 | The sorted events at or after `now`, disjoint from the past events by PastThenFuture. |
| ValueObjects.Timeline.NextDeadline | data/entities/value_objects.py:52-60 | Any result is a deadline event strictly after `now`. |
| ValueObjects.NextDeadlineIsEarliest | data/entities/value_objects.py:52-60 | None iff there is no upcoming deadline. Otherwise the result is the earliest one. |
| ValueObjects.GrantStatistics.SuccessRate | data/entities/value_objects.py:101-107 | None iff awarded + denied == 0. Otherwise the percentage, between 0 and 100. |
| ValueObjects.GrantStatistics.PendingRate | data/entities/value_objects.py:109-114 | 0 when there are no grants. Otherwise the percentage. |
| ValueObjects.FunderStatistics.GrantsPerYear | data/entities/value_objects.py:138-143 | 0 when `years_active` is 0. Otherwise the quotient. |
| ValueObjects.FunderOverview.NextDeadline | data/entities/value_objects.py:196-200 | The timeline's next deadline date, which is after `now`. |
| ValueObjects.UrgentGrantsWindow | data/entities/value_objects.py:191-194 | A funder has urgent grants iff one of its deadlines is at or after `now` and less than eight days later. |
| ValueObjects.ActiveGrantsByStatus | data/entities/value_objects.py:186-189 | A funder with an active, submitted or awarded grant has active grants. One whose grants are all denied, withdrawn or completed has none. |
| ValueObjects.FunderOverview.HasActiveGrants | data/entities/value_objects.py:186-189 | `any(is_active)`. ActiveGrantsByStatus decides it from the standard statuses. |
| ValueObjects.FunderOverview.HasUrgentGrants | data/entities/value_objects.py:191-194 | `any(is_urgent)` with the seven-day default. UrgentGrantsWindow states it as a deadline window. |

## Left out

- I/O and the database engine. SQLite connections, SQL text, commits and
  transactions become the `ReferenceStore` maps. Committing is implicit: a
  store write is never undone. scripts/import_writing_schedule.py is not
  part of this model.
- The owner table is assumed to have a UNIQUE `full_name`, as
  `INSERT OR IGNORE` requires. The schema that declares it is not part of
  this model.
- Orchestrator.ResolutionResult flags. These are the cursor's row counts,
  modelled as the source produces them: `was_status_new` is always false,
  read after a SELECT, and `was_funder_new` is always true. The status
  lookup's fallback to id 1 cannot happen in the model.
- Orchestrator.RowData: a tuple with more than five components is not
  modelled. Neither is an exception raised while the error tag is built.
  Error messages are the error values rather than `str(e)`.
- Wall-clock time. `datetime.now()` and `CURRENT_TIMESTAMP` are parameters
  or are left out. Default timestamps such as `created_at` are not modelled.
- Decomposer.BuildCore and Decomposer.DecomposeRow: one `now` stands for
  both clock reads of data/services/writing_schedule_decomposer.py:72-73.
  When neither date parses, the model therefore gives
  `deadline == lastModified`. The source reads the clock twice, so it only
  guarantees `deadline <= last_modified`.
- DataParsing.ParseDate accepts only the canonical zero-padded
  `YYYY-MM-DD`. The leniencies of `strptime`, such as single-digit months,
  are left out.
- DataParsing.ParseDecimal accepts only an optional sign, digits and at
  most one point, around which blanks are trimmed. Exponents, NaN,
  Infinity and underscores are left out.
- Floating point. Python floats in `grant.py`, `loi.py`, `proposal.py`,
  `_parse_amount` and the statistics are modelled as exact reals, so
  rounding is not modelled.
- Text is ASCII. Unicode case folding, Unicode whitespace and `isdigit`
  semantics are not modelled.
- `__repr__` strings are left out, except the Reminder note preview.
- Parser `_to_prospect` and the Prospect entity are not modelled. Only the
  prospect status classifier is. `opportunity.py` and `prospect.py` have
  no validation.
- Parser.ParseAmount reads amounts with the plain decimal grammar of
  DataParsing.ParseDecimal. `float()` at data/adapters/writing_schedule/parser.py:202-218
  also accepts exponents ("-1e3"), "inf", "-inf", "nan" and underscores
  ("1_000"). The model gives None for all of these. So for "1e3" it has no
  amount where the source has 1000.0. For a negative value such as "-1e3"
  or "-inf", `_to_proposal` and `_to_loi` raise, while the model builds the
  entity without an amount.
- Parser imports. data/adapters/writing_schedule/parser.py:26 imports
  `Proposal, Report, LOI, Prospect` from `data.entities`, but
  data/entities/__init__.py:10-21 exports none of them, so that import fails
  as written. The model binds the names to the classes of
  data/entities/proposal.py, data/entities/loi.py and data/entities/report.py.
- FunderEntity.Create: data/entities/funder.py:39 declares `all_names`
  without a default, so omitting it raises TypeError there. The model gives
  the parameter the default `[]`, which `__post_init__` turns into the
  canonical name alone. The callers that omit it are
  data/services/orchestrator.py:94-97 and every `Funder(` call in
  tests/unit/entities/test_funder.py. The first builds its `Funder` from
  `data.basic_entities`, which is not part of this model.
- FunderEntity.Funder.PostInit normalises `all_names` before the EIN check,
  as the source does. Aliasing of the caller's list object, which
  `insert(0, …)` mutates, is not modelled, because the list is a value.
- FunderEntity.Funder.AddAlias does not restate in its own contract that
  the funder stays valid. WithAliasKeepsNames and WithAliasSpec state the
  facts this rests on.
- ValueObjects: `applied_filters`, the `bloomerang_data` dictionaries and
  the metadata dictionary are not modelled. Percentages are reals.
- Package `__init__` re-export files and the test files are not part of
  this model.

## Findings

| source | as written | input that shows it | evidently intended | confidence | as-written member | corrected member |
|---|---|---|---|---|---|---|
| data/entities/funder.py:118-130 | `if not name` lets a whitespace-only name through; it then trims to "", and "" is contained in every alias, so `matches_name(" ", fuzzy=True)` is true for every funder | `matches_name(" ", fuzzy=True)` on any valid funder | a blank name matches no funder | not executed; derived from the code | FunderEntity.BlankNameMatchesEveryFunder | FunderEntity.FuzzyMatching |
