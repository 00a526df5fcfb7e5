/** The blueprints of data/services/task_service.py: the intermediate records
    the decomposer builds, which still carry natural keys (status text and
    owner name) where the entities carry foreign keys. */
module TaskService {
  import opened Wrappers
  import opened Calendar
  import opened DataParsing

  /** Data shared by every task kind. `statusText` and `ownerName` are the
      natural keys the orchestrator resolves to ids. */
  datatype TaskCoreBlueprint = TaskCoreBlueprint(
    taskId: string,
    taskType: string,
    bernieNumber: string,
    statusText: string,
    ownerName: Option<string>,
    deadline: DateTime,
    lastModified: DateTime,
    fiscalYear: Option<string> := None,
    programArea: Option<string> := None,
    initiative: Option<string> := None,
    opportunityId: Option<string> := None)

  datatype LoiBlueprint = LoiBlueprint(
    core: TaskCoreBlueprint,
    notificationDate: Option<DateTime> := None,
    amountRequested: Option<Decimal> := None,
    relatedProposalId: Option<string> := None,
    devTeamNotes: Option<string> := None)

  /** A proposal blueprint; only `NewProposalBlueprint` builds valid ones. */
  datatype ProposalBlueprint = ProposalBlueprint(
    core: TaskCoreBlueprint,
    amountRequested: Decimal,
    awardAmount: Option<Decimal> := None,
    submissionDate: Option<DateTime> := None,
    notificationDate: Option<DateTime> := None,
    grantStartDate: Option<DateTime> := None,
    grantEndDate: Option<DateTime> := None,
    communities: Option<string> := None,
    membersFunded: Option<string> := None,
    modelFunded: Option<string> := None,
    devTeamNotes: Option<string> := None,
    grantGoals: Option<string> := None)
  {
    /** The invariant `__post_init__` enforces. */
    predicate Valid() {
      !amountRequested.IsNegative()
    }
  }

  /** Reports carry no amount fields. */
  datatype ReportBlueprint = ReportBlueprint(
    core: TaskCoreBlueprint,
    reportType: string,
    relatedProposalId: Option<string> := None,
    submissionDate: Option<DateTime> := None,
    reportingPeriodStart: Option<DateTime> := None,
    reportingPeriodEnd: Option<DateTime> := None,
    acknowledgmentNeeds: Option<string> := None,
    devTeamNotes: Option<string> := None)

  datatype ReminderBlueprint = ReminderBlueprint(
    core: TaskCoreBlueprint,
    reminderNote: Option<string> := None)

  /** `TaskBlueprint = LOIBlueprint | ProposalBlueprint | ReportBlueprint |
      ReminderBlueprint` */
  datatype TaskBlueprint =
    | Loi(loi: LoiBlueprint)
    | Proposal(proposal: ProposalBlueprint)
    | Report(report: ReportBlueprint)
    | Reminder(reminder: ReminderBlueprint)
  {
    function Core(): TaskCoreBlueprint {
      match this
      case Loi(b) => b.core
      case Proposal(b) => b.core
      case Report(b) => b.core
      case Reminder(b) => b.core
    }

    predicate Valid() {
      Proposal? ==> proposal.Valid()
    }
  }

  /** The ValueError `ProposalBlueprint.__post_init__` raises. */
  datatype BlueprintError = NegativeProposalAmount(amount: Decimal)

  /** `ProposalBlueprint(...)`: the record, or the ValueError raised when the
      requested amount is below zero. */
  function NewProposalBlueprint(
    core: TaskCoreBlueprint,
    amountRequested: Decimal,
    awardAmount: Option<Decimal> := None,
    submissionDate: Option<DateTime> := None,
    notificationDate: Option<DateTime> := None,
    grantStartDate: Option<DateTime> := None,
    grantEndDate: Option<DateTime> := None,
    communities: Option<string> := None,
    membersFunded: Option<string> := None,
    modelFunded: Option<string> := None,
    devTeamNotes: Option<string> := None,
    grantGoals: Option<string> := None): (r: Result<ProposalBlueprint, BlueprintError>)
    ensures r.Failure? <==> amountRequested.Value() < 0.0
    ensures r.Failure? ==> r.error == NegativeProposalAmount(amountRequested)
    ensures r.Success? ==> r.value.Valid()
    ensures r.Success? ==> r.value == ProposalBlueprint(core, amountRequested, awardAmount,
      submissionDate, notificationDate, grantStartDate, grantEndDate, communities,
      membersFunded, modelFunded, devTeamNotes, grantGoals)
  {
    IsNegativeMeansBelowZero(amountRequested);
    if amountRequested.IsNegative() then Failure(NegativeProposalAmount(amountRequested))
    else Success(ProposalBlueprint(core, amountRequested, awardAmount, submissionDate,
      notificationDate, grantStartDate, grantEndDate, communities, membersFunded,
      modelFunded, devTeamNotes, grantGoals))
  }

  /** Zero is an accepted amount; so is a negative zero. */
  lemma ZeroAmountAccepted(core: TaskCoreBlueprint, scale: nat, negative: bool)
    ensures NewProposalBlueprint(core, Decimal(negative, 0, scale)).Success?
  {
    IsNegativeMeansBelowZero(Decimal(negative, 0, scale));
  }
}
