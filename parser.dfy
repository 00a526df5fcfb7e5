/** The legacy Writing Schedule parser of
    data/adapters/writing_schedule/parser.py: a type dispatch from a raw row
    to zero, one or two legacy entities, keyword classifiers from status
    text to each entity's status vocabulary, and report-type inference.
    Dates are read by `DataParsing.ParseDate`, which behaves as the parser's
    own `_parse_date` does. */
module Parser {
  import opened Wrappers
  import opened Text
  import opened Schema
  import opened DataParsing
  import LoiEntity
  import ProposalEntity
  import ReportEntity

  /** The entities the parser can return. */
  datatype LegacyEntity =
    | ProposalEntry(proposal: ProposalEntity.Proposal)
    | ReportEntry(report: ReportEntity.Report)
    | LoiEntry(loi: LoiEntity.Loi)
  {
    function TaskId(): Option<string> {
      match this
      case ProposalEntry(p) => Some(p.taskId)
      case ReportEntry(r) => r.taskId
      case LoiEntry(l) => l.taskId
    }
  }

  /** A constructor's ValueError, which the parser lets propagate. */
  datatype ParseError =
    | ProposalRejected(proposalError: ProposalEntity.ProposalError)
    | LoiRejected(loiError: LoiEntity.LoiError)

  /** `_parse_amount`: the number the text denotes, or None for missing,
      blank text or text outside the plain decimal grammar. */
  function ParseAmount(s: Option<string>): (r: Option<real>)
    ensures !IsPresent(s) ==> r.None?
    ensures r.None? <==> ParseDecimal(s).None?
    ensures r.Some? ==> r.value == ParseDecimal(s).value.Value()
  {
    match ParseDecimal(s)
    case None => None
    case Some(d) => Some(d.Value())
  }

  // ----- status classifiers ---------------------------------------------------

  /** `_map_status_to_proposal`: the first keyword found, in the order
      "Awarded", "Application Submitted", "Denied", "Withdrawn"/"Forgone",
      decides; otherwise 'active'. */
  function MapStatusToProposal(status: Option<string>): (r: string)
    ensures r in ["active", "awarded", "submitted", "denied", "withdrawn"]
    ensures r == "awarded" <==> IsPresent(status) && Contains(status.value, "Awarded")
    ensures r == "submitted" <==> (IsPresent(status) && !Contains(status.value, "Awarded")
      && Contains(status.value, "Application Submitted"))
    ensures r == "denied" <==> (IsPresent(status) && !Contains(status.value, "Awarded")
      && !Contains(status.value, "Application Submitted") && Contains(status.value, "Denied"))
    ensures r == "withdrawn" <==> (IsPresent(status) && !Contains(status.value, "Awarded")
      && !Contains(status.value, "Application Submitted") && !Contains(status.value, "Denied")
      && (Contains(status.value, "Withdrawn") || Contains(status.value, "Forgone")))
  {
    if !IsPresent(status) then "active"
    else if Contains(status.value, "Awarded") then "awarded"
    else if Contains(status.value, "Application Submitted") then "submitted"
    else if Contains(status.value, "Denied") then "denied"
    else if Contains(status.value, "Withdrawn") || Contains(status.value, "Forgone") then "withdrawn"
    else "active"
  }

  /** `_map_status_to_report`: "Report Submitted" or "Follow-Up Complete"
      give 'submitted', then "Denied" or "Withdrawn" give 'completed';
      otherwise 'active'. */
  function MapStatusToReport(status: Option<string>): (r: string)
    ensures r in ["active", "submitted", "completed"]
    ensures r == "submitted" <==> (IsPresent(status)
      && (Contains(status.value, "Report Submitted") || Contains(status.value, "Follow-Up Complete")))
    ensures r == "completed" <==> (IsPresent(status)
      && !Contains(status.value, "Report Submitted") && !Contains(status.value, "Follow-Up Complete")
      && (Contains(status.value, "Denied") || Contains(status.value, "Withdrawn")))
  {
    if !IsPresent(status) then "active"
    else if Contains(status.value, "Report Submitted") || Contains(status.value, "Follow-Up Complete") then "submitted"
    else if Contains(status.value, "Denied") || Contains(status.value, "Withdrawn") then "completed"
    else "active"
  }

  /** `_map_status_to_loi`: "LOI Submitted" before "Awarded" (an award after
      an LOI is an invitation), then "Denied"/"Withdrawn"; the result is
      always a status the LOI constructor accepts. */
  function MapStatusToLoi(status: Option<string>): (r: string)
    ensures r in LoiEntity.ValidStatuses
    ensures r == "submitted" <==> IsPresent(status) && Contains(status.value, "LOI Submitted")
    ensures r == "invited" <==> (IsPresent(status) && !Contains(status.value, "LOI Submitted")
      && Contains(status.value, "Awarded"))
    ensures r == "declined" <==> (IsPresent(status) && !Contains(status.value, "LOI Submitted")
      && !Contains(status.value, "Awarded")
      && (Contains(status.value, "Denied") || Contains(status.value, "Withdrawn")))
  {
    if !IsPresent(status) then "active"
    else if Contains(status.value, "LOI Submitted") then "submitted"
    else if Contains(status.value, "Awarded") then "invited"
    else if Contains(status.value, "Denied") || Contains(status.value, "Withdrawn") then "declined"
    else "active"
  }

  /** `_map_status_to_prospect`: "Research", then "Planned"/"Draft", then
      "Withdrawn"/"Forgone"/"Ineligible"; otherwise 'active'. */
  function MapStatusToProspect(status: Option<string>): (r: string)
    ensures r in ["active", "researching", "pursuing", "declined"]
    ensures r == "researching" <==> IsPresent(status) && Contains(status.value, "Research")
    ensures r == "pursuing" <==> (IsPresent(status) && !Contains(status.value, "Research")
      && (Contains(status.value, "Planned") || Contains(status.value, "Draft")))
    ensures r == "declined" <==> (IsPresent(status) && !Contains(status.value, "Research")
      && !Contains(status.value, "Planned") && !Contains(status.value, "Draft")
      && (Contains(status.value, "Withdrawn") || Contains(status.value, "Forgone")
          || Contains(status.value, "Ineligible")))
  {
    if !IsPresent(status) then "active"
    else if Contains(status.value, "Research") then "researching"
    else if Contains(status.value, "Planned") || Contains(status.value, "Draft") then "pursuing"
    else if Contains(status.value, "Withdrawn") || Contains(status.value, "Forgone")
         || Contains(status.value, "Ineligible") then "declined"
    else "active"
  }

  /** Without status text, every classifier answers 'active'. */
  lemma MissingStatusIsActive(status: Option<string>)
    requires !IsPresent(status)
    ensures MapStatusToProposal(status) == "active" && MapStatusToReport(status) == "active"
    ensures MapStatusToLoi(status) == "active" && MapStatusToProspect(status) == "active"
  {
  }

  /** A Writing Schedule status such as "1. Awarded" classifies as an award
      for a proposal and as an invitation for an LOI. */
  lemma AwardedStatusExample()
    ensures MapStatusToProposal(Some("1. Awarded")) == "awarded"
    ensures MapStatusToLoi(Some("1. Awarded")) == "invited"
  {
    AwardedText();
  }

  /** "1. Awarded" mentions "Awarded" and not "LOI Submitted". */
  lemma AwardedText()
    ensures Contains("1. Awarded", "Awarded") && !Contains("1. Awarded", "LOI Submitted")
  {
    var s := "1. Awarded";
    assert s[3..10] == "Awarded";
    SliceContained(s, 3, 10);
    ContainsKeepsChars(s, "LOI Submitted", 'L');
  }

  /** `_infer_report_type`: 'final' when the type mentions "Final", else
      'interim' when it mentions "Interim", else None. */
  function InferReportType(rowType: Option<string>): (r: Option<string>)
    ensures r == Some("final") <==> IsPresent(rowType) && Contains(rowType.value, "Final")
    ensures r == Some("interim") <==> (IsPresent(rowType) && !Contains(rowType.value, "Final")
      && Contains(rowType.value, "Interim"))
    ensures r.None? <==> (!IsPresent(rowType)
      || (!Contains(rowType.value, "Final") && !Contains(rowType.value, "Interim")))
  {
    if !IsPresent(rowType) then None
    else if Contains(rowType.value, "Final") then Some("final")
    else if Contains(rowType.value, "Interim") then Some("interim")
    else None
  }

  /** The report types of the three report rows. */
  lemma FinalReportType()
    ensures InferReportType(Some("Final Report")) == Some("final")
  {
    var t := "Final Report";
    assert t[0..5] == "Final";
    SliceContained(t, 0, 5);
  }

  lemma InterimReportType()
    ensures InferReportType(Some("Interim Report")) == Some("interim")
  {
    var t := "Interim Report";
    assert t[0..7] == "Interim";
    SliceContained(t, 0, 7);
    ContainsKeepsChars(t, "Final", 'F');
    assert 'F' !in t;
  }

  /** A type naming neither kind of report has no report type. */
  lemma GenericReportType(t: string)
    requires 'F' !in t && 'I' !in t
    ensures InferReportType(Some(t)) == None
  {
    ContainsKeepsChars(t, "Final", 'F');
    ContainsKeepsChars(t, "Interim", 'I');
  }

  lemma PlainReportType()
    ensures InferReportType(Some("Report")) == None
  {
    GenericReportType("Report");
  }

  /** A combined row's report has no report type. */
  lemma CombinedReportType()
    ensures InferReportType(Some("Proposal & Report")) == None
  {
    GenericReportType("Proposal & Report");
  }

  // ----- converters -----------------------------------------------------------

  /** The record `_to_proposal` hands to the constructor. */
  function ProposalFields(row: WritingScheduleRow, opportunityId: int): ProposalEntity.Proposal {
    ProposalEntity.Proposal(
      opportunityId := opportunityId,
      taskId := row.taskId,
      deadline := ParseDate(row.deadline),
      submissionDate := None,
      notificationDate := ParseDate(row.notificationDate),
      grantStartDate := ParseDate(row.grantStartDate),
      grantEndDate := ParseDate(row.grantEndDate),
      amountRequested := ParseAmount(row.amount),
      amountAwarded := ParseAmount(row.award),
      status := Some(MapStatusToProposal(row.status)),
      fiscalYear := row.fiscalYear,
      programArea := row.area,
      initiative := row.initiative,
      communities := row.communities,
      devTeamNotes := row.devTeamNotes)
  }

  /** `_to_proposal`: fails exactly when an amount parses to a negative
      number; otherwise the fields are mapped from the row. */
  function ToProposal(row: WritingScheduleRow, opportunityId: int): (r: Result<ProposalEntity.Proposal, ProposalEntity.ProposalError>)
    ensures r.Failure? <==>
      (ParseAmount(row.amount).Some? && ParseAmount(row.amount).value < 0.0)
      || (ParseAmount(row.award).Some? && ParseAmount(row.award).value < 0.0)
    ensures r.Success? ==> r.value.taskId == row.taskId && r.value.opportunityId == opportunityId
    ensures r.Success? ==> r.value.deadline == ParseDate(row.deadline) && r.value.submissionDate == None
    ensures r.Success? ==> r.value.status == Some(MapStatusToProposal(row.status))
    ensures r.Success? ==> (r.value.amountRequested == ParseAmount(row.amount)
      && r.value.amountAwarded == ParseAmount(row.award))
    ensures r.Success? ==> r.value.devLeadId == None && r.value.id == None
  {
    ProposalEntity.Create(ProposalFields(row, opportunityId))
  }

  /** `_to_report`: the deadline is read from `reports_due`, not
      `deadline`; reports have no validation, so this cannot fail. */
  function ToReport(row: WritingScheduleRow, opportunityId: int): (r: ReportEntity.Report)
    ensures r.taskId == Some(row.taskId) && r.opportunityId == opportunityId
    ensures r.deadline == ParseDate(row.reportsDue) && r.submissionDate == None
    ensures r.status == MapStatusToReport(row.status)
    ensures r.reportType == InferReportType(row.rowType)
    ensures r.fiscalYear == row.fiscalYear && r.devTeamNotes == row.devTeamNotes
    ensures r.devLeadId == None && r.reportingPeriodStart == None && r.reportingPeriodEnd == None
  {
    ReportEntity.Report(
      opportunityId := opportunityId,
      taskId := Some(row.taskId),
      deadline := ParseDate(row.reportsDue),
      submissionDate := None,
      status := MapStatusToReport(row.status),
      reportType := InferReportType(row.rowType),
      fiscalYear := row.fiscalYear,
      devTeamNotes := row.devTeamNotes)
  }

  /** The record `_to_loi` hands to the constructor. */
  function LoiFields(row: WritingScheduleRow, opportunityId: int): LoiEntity.Loi {
    LoiEntity.Loi(
      opportunityId := opportunityId,
      taskId := Some(row.taskId),
      deadline := ParseDate(row.deadline),
      submissionDate := None,
      notificationDate := ParseDate(row.notificationDate),
      amountRequested := ParseAmount(row.amount),
      status := MapStatusToLoi(row.status),
      fiscalYear := row.fiscalYear,
      programArea := row.area,
      devTeamNotes := row.devTeamNotes)
  }

  /** `_to_loi`: the classified status always passes the LOI check, so it
      fails exactly when the amount parses to a negative number. */
  function ToLoi(row: WritingScheduleRow, opportunityId: int): (r: Result<LoiEntity.Loi, LoiEntity.LoiError>)
    ensures r.Failure? <==> ParseAmount(row.amount).Some? && ParseAmount(row.amount).value < 0.0
    ensures r.Failure? ==> r.error == LoiEntity.NegativeAmount(ParseAmount(row.amount).value)
    ensures r.Success? ==> r.value.taskId == Some(row.taskId) && r.value.opportunityId == opportunityId
    ensures r.Success? ==> (r.value.deadline == ParseDate(row.deadline)
      && r.value.notificationDate == ParseDate(row.notificationDate))
    ensures r.Success? ==> (r.value.status == MapStatusToLoi(row.status)
      && r.value.amountRequested == ParseAmount(row.amount))
  {
    LoiEntity.Create(LoiFields(row, opportunityId))
  }

  // ----- dispatch -------------------------------------------------------------

  /** The type strings the dispatch recognises. */
  predicate IsParsedType(t: Option<string>) {
    t == Some("Proposal") || t == Some("LOI") || IsReportType(t) || t == Some("Proposal & Report")
  }

  /** `parse_writing_schedule_row`: the entities a row denotes, or the
      constructor error that escapes. */
  function ParseWritingScheduleRow(row: WritingScheduleRow, opportunityId: int): (r: Result<seq<LegacyEntity>, ParseError>)
    // nothing for missing, reminder and unrecognised types
    ensures !IsParsedType(row.rowType) ==> r == Success([])
    ensures r.Success? ==> |r.value| <= 2
    ensures r.Success? ==> forall i :: 0 <= i < |r.value| ==> r.value[i].TaskId() == Some(row.taskId)
    // an error comes from a constructor the dispatch called
    ensures r.Failure? ==> IsParsedType(row.rowType) && !IsReportType(row.rowType)
  {
    if !IsPresent(row.rowType) then Success([])
    else if row.rowType == Some("Proposal") then
      match ToProposal(row, opportunityId)
      case Success(p) => Success([ProposalEntry(p)])
      case Failure(e) => Failure(ProposalRejected(e))
    else if row.rowType == Some("LOI") then
      match ToLoi(row, opportunityId)
      case Success(l) => Success([LoiEntry(l)])
      case Failure(e) => Failure(LoiRejected(e))
    else if IsReportType(row.rowType) then Success([ReportEntry(ToReport(row, opportunityId))])
    else if row.rowType == Some("Proposal & Report") then
      match ToProposal(row, opportunityId)
      case Success(p) => Success([ProposalEntry(p), ReportEntry(ToReport(row, opportunityId))])
      case Failure(e) => Failure(ProposalRejected(e))
    else Success([])
  }

  /** What each parsed type gives: one entity of the named kind, and for
      the combined type the proposal, then the report. */
  lemma ParseDispatch(row: WritingScheduleRow, opportunityId: int)
    ensures var r := ParseWritingScheduleRow(row, opportunityId);
      row.rowType == Some("Proposal") ==>
      (r.Success? <==> ToProposal(row, opportunityId).Success?)
      && (r.Success? ==> r.value == [ProposalEntry(ToProposal(row, opportunityId).value)])
    ensures var r := ParseWritingScheduleRow(row, opportunityId);
      row.rowType == Some("LOI") ==>
      (r.Success? <==> ToLoi(row, opportunityId).Success?)
      && (r.Success? ==> r.value == [LoiEntry(ToLoi(row, opportunityId).value)])
    ensures var r := ParseWritingScheduleRow(row, opportunityId);
      IsReportType(row.rowType) ==> r == Success([ReportEntry(ToReport(row, opportunityId))])
    ensures var r := ParseWritingScheduleRow(row, opportunityId);
      row.rowType == Some("Proposal & Report") ==>
      (r.Success? <==> ToProposal(row, opportunityId).Success?)
      && (r.Success? ==> r.value == [ProposalEntry(ToProposal(row, opportunityId).value),
                                     ReportEntry(ToReport(row, opportunityId))])
  {
  }

  /** The parser, unlike the decomposer, splits a combined row: the two
      entities share the row's task id, and the report has no report type. */
  lemma CombinedRowSplits(row: WritingScheduleRow, opportunityId: int)
    requires row.rowType == Some("Proposal & Report")
    requires !IsPresent(row.amount) && !IsPresent(row.award)
    ensures ParseWritingScheduleRow(row, opportunityId).Success?
    ensures var es := ParseWritingScheduleRow(row, opportunityId).value;
      |es| == 2 && es[0].ProposalEntry? && es[1].ReportEntry?
      && es[0].proposal.taskId == row.taskId && es[1].report.taskId == Some(row.taskId)
      && es[1].report.reportType == None
  {
    ParseDispatch(row, opportunityId);
    CombinedReportType();
  }

  /** A reminder row gives nothing. */
  lemma ReminderGivesNothing(row: WritingScheduleRow, opportunityId: int)
    requires row.rowType == Some("Reminder")
    ensures ParseWritingScheduleRow(row, opportunityId) == Success([])
  {
    assert |"Reminder"| == 8;
  }
}
