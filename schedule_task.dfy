/** The scheduled-task entities of data/basic_entities/schedule_task.py: four
    record kinds composed around a shared `TaskCore`, which carries resolved
    foreign keys (`statusId`, `ownerId`). */
module ScheduleTask {
  import opened Wrappers
  import opened Calendar
  import opened DataParsing

  datatype TaskCore = TaskCore(
    taskId: string,
    taskType: string,
    bernieNumber: string,
    statusId: int,
    deadline: DateTime,
    ownerId: Option<int>,
    lastModified: DateTime,
    fiscalYear: Option<string> := None,
    programArea: Option<string> := None,
    initiative: Option<string> := None,
    opportunityId: Option<string> := None)

  datatype Loi = Loi(
    core: TaskCore,
    notificationDate: Option<DateTime>,
    amountRequested: Option<Decimal>,
    relatedProposalId: Option<string> := None,
    devTeamNotes: Option<string> := None)

  /** A proposal entity; only `NewProposal` builds valid ones. */
  datatype Proposal = Proposal(
    core: TaskCore,
    amountRequested: Decimal,
    awardAmount: Option<Decimal> := None,
    submissionDate: Option<DateTime> := None,
    notificationDate: Option<DateTime> := None,
    grantStartDate: Option<DateTime> := None,
    grantEndDate: Option<DateTime> := None,
    communities: Option<string> := None,
    membersFunded: Option<string> := None,
    modelFunded: Option<string> := None,
    devTeamNotes: Option<string> := None,
    grantGoals: Option<string> := None)
  {
    /** The invariant `__post_init__` enforces. */
    predicate Valid() {
      !amountRequested.IsNegative()
    }
  }

  /** Reports carry no amount fields. */
  datatype Report = Report(
    core: TaskCore,
    reportType: string,
    relatedProposalId: Option<string> := None,
    submissionDate: Option<DateTime> := None,
    reportingPeriodStart: Option<DateTime> := None,
    reportingPeriodEnd: Option<DateTime> := None,
    acknowledgmentNeeds: Option<string> := None,
    devTeamNotes: Option<string> := None)

  datatype Reminder = Reminder(
    core: TaskCore,
    reminderNote: Option<string> := None)
  {
    /** The note shown by `__repr__`: the whole note up to 30 characters,
        otherwise its first 30 characters and "...". */
    function NotePreview(): (r: Option<string>)
      ensures r.None? <==> reminderNote.None?
      ensures reminderNote.Some? && |reminderNote.value| <= 30 ==> r == reminderNote
      ensures reminderNote.Some? && |reminderNote.value| > 30 ==>
        |r.value| == 33 && r.value[..30] == reminderNote.value[..30] && r.value[30..] == "..."
    {
      match reminderNote
      case None => None
      case Some(note) => if |note| > 30 then Some(note[..30] + "...") else Some(note)
    }
  }

  /** The `ScheduledTask` protocol: whatever exposes `task_id`, `deadline`,
      `task_type` and `status_id`; here the closed sum of the four kinds. */
  datatype ScheduledTask =
    | LoiTask(loi: Loi)
    | ProposalTask(proposal: Proposal)
    | ReportTask(report: Report)
    | ReminderTask(reminder: Reminder)
  {
    function Core(): TaskCore {
      match this
      case LoiTask(t) => t.core
      case ProposalTask(t) => t.core
      case ReportTask(t) => t.core
      case ReminderTask(t) => t.core
    }

    /** The protocol properties; each reads the core. */
    function TaskId(): string { Core().taskId }
    function Deadline(): DateTime { Core().deadline }
    function TaskType(): string { Core().taskType }
    function StatusId(): int { Core().statusId }

    predicate Valid() {
      ProposalTask? ==> proposal.Valid()
    }
  }

  /** The ValueError `Proposal.__post_init__` raises. */
  datatype TaskError = NegativeAmount(amount: Decimal)

  /** `Proposal(...)`: the entity, or the ValueError raised when the
      requested amount is below zero. */
  function NewProposal(
    core: TaskCore,
    amountRequested: Decimal,
    awardAmount: Option<Decimal> := None,
    submissionDate: Option<DateTime> := None,
    notificationDate: Option<DateTime> := None,
    grantStartDate: Option<DateTime> := None,
    grantEndDate: Option<DateTime> := None,
    communities: Option<string> := None,
    membersFunded: Option<string> := None,
    modelFunded: Option<string> := None,
    devTeamNotes: Option<string> := None,
    grantGoals: Option<string> := None): (r: Result<Proposal, TaskError>)
    ensures r.Failure? <==> amountRequested.Value() < 0.0
    ensures r.Failure? ==> r.error == NegativeAmount(amountRequested)
    ensures r.Success? ==> r.value.Valid()
    ensures r.Success? ==> r.value == Proposal(core, amountRequested, awardAmount,
      submissionDate, notificationDate, grantStartDate, grantEndDate, communities,
      membersFunded, modelFunded, devTeamNotes, grantGoals)
  {
    IsNegativeMeansBelowZero(amountRequested);
    if amountRequested.IsNegative() then Failure(NegativeAmount(amountRequested))
    else Success(Proposal(core, amountRequested, awardAmount, submissionDate,
      notificationDate, grantStartDate, grantEndDate, communities, membersFunded,
      modelFunded, devTeamNotes, grantGoals))
  }
}
