/** The row decomposer of data/services/writing_schedule_decomposer.py: a
    pure map from a raw Writing Schedule row to the natural keys and a task
    blueprint. The clock (`datetime.now()`) is the parameter `now`. */
module Decomposer {
  import opened Wrappers
  import opened Calendar
  import opened DataParsing
  import opened Schema
  import opened TaskService

  /** `(bernie_number, canonical_name, owner_name, raw_status, task_blueprint)` */
  datatype Decomposed = Decomposed(
    bernieNumber: string,
    canonicalName: string,
    ownerName: Option<string>,
    rawStatus: string,
    blueprint: TaskBlueprint)

  /** `s or default` for an optional string. */
  function OrElse(s: Option<string>, default: string): (r: string)
    ensures IsPresent(s) ==> r == s.value
    ensures !IsPresent(s) ==> r == default
  {
    if IsPresent(s) then s.value else default
  }

  /** The common core: the keys as computed by `DecomposeRow`, the task id,
      the type (default "Unknown"), the parsed dates (the clock when a date
      does not parse) and the program fields. */
  function BuildCore(row: WritingScheduleRow, rawStatus: string, bernieNumber: string,
                     ownerName: Option<string>, now: DateTime): (core: TaskCoreBlueprint)
    ensures core.taskId == row.taskId && core.taskType == OrElse(row.rowType, "Unknown")
    ensures core.bernieNumber == bernieNumber && core.statusText == rawStatus
    ensures core.ownerName == ownerName
    ensures core.deadline == ParseDate(row.deadline).GetOr(now)
    ensures core.lastModified == ParseDate(row.lastModified).GetOr(now)
    ensures core.fiscalYear == row.fiscalYear && core.programArea == row.area
    ensures core.initiative == row.initiative && core.opportunityId == None
  {
    TaskCoreBlueprint(
      taskId := row.taskId,
      taskType := OrElse(row.rowType, "Unknown"),
      bernieNumber := bernieNumber,
      statusText := rawStatus,
      ownerName := ownerName,
      deadline := ParseDate(row.deadline).GetOr(now),
      lastModified := ParseDate(row.lastModified).GetOr(now),
      fiscalYear := row.fiscalYear,
      programArea := row.area,
      initiative := row.initiative,
      opportunityId := None)
  }

  function BuildLoiBlueprint(row: WritingScheduleRow, core: TaskCoreBlueprint): LoiBlueprint {
    LoiBlueprint(
      core := core,
      notificationDate := ParseDate(row.notificationDate),
      amountRequested := ParseDecimal(row.amount),
      relatedProposalId := None,
      devTeamNotes := row.devTeamNotes)
  }

  /** The requested amount defaults to zero when it does not parse; the
      blueprint's own check then rejects a negative one. */
  function BuildProposalBlueprint(row: WritingScheduleRow, core: TaskCoreBlueprint): (r: Result<ProposalBlueprint, BlueprintError>)
    ensures r.Failure? <==> ParseDecimal(row.amount).Some? && ParseDecimal(row.amount).value.Value() < 0.0
    ensures r.Success? ==> r.value.Valid() && r.value.core == core
    ensures r.Success? ==> r.value.amountRequested == ParseDecimal(row.amount).GetOr(Zero)
  {
    IsNegativeMeansBelowZero(Zero);
    var amountRequested := ParseDecimal(row.amount).GetOr(Zero);
    NewProposalBlueprint(
      core := core,
      amountRequested := amountRequested,
      awardAmount := ParseDecimal(row.award),
      submissionDate := None,
      notificationDate := ParseDate(row.notificationDate),
      grantStartDate := ParseDate(row.grantStartDate),
      grantEndDate := ParseDate(row.grantEndDate),
      communities := row.communities,
      membersFunded := row.membersFunded,
      modelFunded := row.modelFunded,
      devTeamNotes := row.devTeamNotes,
      grantGoals := row.grantGoals)
  }

  function BuildReportBlueprint(row: WritingScheduleRow, core: TaskCoreBlueprint): ReportBlueprint {
    ReportBlueprint(
      core := core,
      reportType := OrElse(row.rowType, "Report"),
      relatedProposalId := None,
      submissionDate := None,
      reportingPeriodStart := None,
      reportingPeriodEnd := None,
      acknowledgmentNeeds := row.acknowledgmentNeeds,
      devTeamNotes := row.devTeamNotes)
  }

  function BuildReminderBlueprint(row: WritingScheduleRow, core: TaskCoreBlueprint): ReminderBlueprint {
    ReminderBlueprint(core := core, reminderNote := row.devTeamNotes)
  }

  /** `_extract_task_blueprint`: the core, then dispatch on the exact type
      string. `funderName` is accepted and unused, as in the source. */
  function ExtractTaskBlueprint(row: WritingScheduleRow, rawStatus: string, bernieNumber: string,
                                funderName: string, ownerName: Option<string>, now: DateTime)
    : (r: Result<TaskBlueprint, BlueprintError>)
    ensures r.Success? ==> r.value.Core() == BuildCore(row, rawStatus, bernieNumber, ownerName, now)
    ensures r.Success? ==> r.value.Valid()
  {
    var core := BuildCore(row, rawStatus, bernieNumber, ownerName, now);
    if row.rowType == Some("LOI") then Success(Loi(BuildLoiBlueprint(row, core)))
    else if row.rowType == Some("Proposal") then
      match BuildProposalBlueprint(row, core)
      case Success(b) => Success(Proposal(b))
      case Failure(e) => Failure(e)
    else if IsReportType(row.rowType) then Success(Report(BuildReportBlueprint(row, core)))
    else Success(Reminder(BuildReminderBlueprint(row, core)))
  }

  /** `decompose_row`: the natural keys with their defaults, then the
      blueprint. It fails exactly when a Proposal row's amount parses to a
      negative number. The lemmas after it state what the blueprint holds. */
  function DecomposeRow(row: WritingScheduleRow, now: DateTime): (r: Result<Decomposed, BlueprintError>)
    // failure
    ensures r.Failure? <==>
      row.rowType == Some("Proposal") && ParseDecimal(row.amount).Some? && ParseDecimal(row.amount).value.Value() < 0.0
    ensures r.Failure? ==> r.error == NegativeProposalAmount(ParseDecimal(row.amount).value)
    // natural keys and their defaults
    ensures r.Success? && IsPresent(row.bernieIdentifier) ==> r.value.bernieNumber == row.bernieIdentifier.value
    ensures r.Success? && !IsPresent(row.bernieIdentifier) ==> r.value.bernieNumber == "UNKNOWN"
    ensures r.Success? && IsPresent(row.funder) ==> r.value.canonicalName == row.funder.value
    ensures r.Success? && !IsPresent(row.funder) ==> r.value.canonicalName == "Unknown Funder"
    ensures r.Success? && IsPresent(row.status) ==> r.value.rawStatus == row.status.value
    ensures r.Success? && !IsPresent(row.status) ==> r.value.rawStatus == "Unknown"
    ensures r.Success? ==> (r.value.ownerName == None <==> !IsPresent(row.owner))
    ensures r.Success? && IsPresent(row.owner) ==> r.value.ownerName == row.owner
    // the core repeats the keys
    ensures r.Success? ==> var core := r.value.blueprint.Core();
      && core.bernieNumber == r.value.bernieNumber
      && core.statusText == r.value.rawStatus
      && core.ownerName == r.value.ownerName
    ensures r.Success? ==> r.value.blueprint.Valid()
  {
    var bernieNumber := OrElse(row.bernieIdentifier, "UNKNOWN");
    var canonicalName := OrElse(row.funder, "Unknown Funder");
    var ownerName := if IsPresent(row.owner) then row.owner else None;
    var rawStatus := OrElse(row.status, "Unknown");
    match ExtractTaskBlueprint(row, rawStatus, bernieNumber, canonicalName, ownerName, now)
    case Success(b) => Success(Decomposed(bernieNumber, canonicalName, ownerName, rawStatus, b))
    case Failure(e) => Failure(e)
  }

  /** The core copies the row: the task id, the type (default "Unknown"),
      the program fields, and each date parsed or else the clock. */
  lemma DecomposeRowCopiesRow(row: WritingScheduleRow, now: DateTime)
    ensures var r := DecomposeRow(row, now);
      r.Success? ==> var core := r.value.blueprint.Core();
      && core.taskId == row.taskId
      && (IsPresent(row.rowType) ==> core.taskType == row.rowType.value)
      && (!IsPresent(row.rowType) ==> core.taskType == "Unknown")
      && core.fiscalYear == row.fiscalYear && core.programArea == row.area
      && core.initiative == row.initiative && core.opportunityId == None
    ensures var r := DecomposeRow(row, now);
      r.Success? ==> var core := r.value.blueprint.Core();
      && (ParseDate(row.deadline).Some? ==> core.deadline == ParseDate(row.deadline).value)
      && (ParseDate(row.deadline).None? ==> core.deadline == now)
      && (ParseDate(row.lastModified).Some? ==> core.lastModified == ParseDate(row.lastModified).value)
      && (ParseDate(row.lastModified).None? ==> core.lastModified == now)
  {
  }

  /** The blueprint kind follows the exact type string; "Proposal & Report"
      and every other string give a reminder. */
  lemma DecomposeRowDispatch(row: WritingScheduleRow, now: DateTime)
    ensures var r := DecomposeRow(row, now);
      r.Success? ==> (r.value.blueprint.Loi? <==> row.rowType == Some("LOI"))
    ensures var r := DecomposeRow(row, now);
      r.Success? ==> (r.value.blueprint.Proposal? <==> row.rowType == Some("Proposal"))
    ensures var r := DecomposeRow(row, now);
      r.Success? ==> (r.value.blueprint.Report? <==> IsReportType(row.rowType))
    ensures var r := DecomposeRow(row, now);
      r.Success? ==> (r.value.blueprint.Reminder? <==>
        row.rowType != Some("LOI") && row.rowType != Some("Proposal") && !IsReportType(row.rowType))
  {
  }

  /** The kind-specific fields of each blueprint. */
  lemma DecomposeRowFields(row: WritingScheduleRow, now: DateTime)
    ensures var r := DecomposeRow(row, now);
      r.Success? && r.value.blueprint.Loi? ==> var b := r.value.blueprint.loi;
      && b.notificationDate == ParseDate(row.notificationDate)
      && b.amountRequested == ParseDecimal(row.amount)
      && b.relatedProposalId == None && b.devTeamNotes == row.devTeamNotes
    ensures var r := DecomposeRow(row, now);
      r.Success? && r.value.blueprint.Proposal? ==> var b := r.value.blueprint.proposal;
      && (ParseDecimal(row.amount).Some? ==> b.amountRequested == ParseDecimal(row.amount).value)
      && (ParseDecimal(row.amount).None? ==> b.amountRequested == Zero)
      && b.awardAmount == ParseDecimal(row.award) && b.submissionDate == None
      && b.notificationDate == ParseDate(row.notificationDate)
      && b.grantStartDate == ParseDate(row.grantStartDate) && b.grantEndDate == ParseDate(row.grantEndDate)
      && b.communities == row.communities && b.membersFunded == row.membersFunded
      && b.modelFunded == row.modelFunded && b.devTeamNotes == row.devTeamNotes
      && b.grantGoals == row.grantGoals
    ensures var r := DecomposeRow(row, now);
      r.Success? && r.value.blueprint.Report? ==> var b := r.value.blueprint.report;
      && b.reportType == row.rowType.value
      && b.relatedProposalId == None && b.submissionDate == None
      && b.reportingPeriodStart == None && b.reportingPeriodEnd == None
      && b.acknowledgmentNeeds == row.acknowledgmentNeeds && b.devTeamNotes == row.devTeamNotes
    ensures var r := DecomposeRow(row, now);
      r.Success? && r.value.blueprint.Reminder? ==> r.value.blueprint.reminder.reminderNote == row.devTeamNotes
  {
  }
}
