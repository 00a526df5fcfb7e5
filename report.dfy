/** The legacy Report entity of data/entities/report.py: a plain record with
    no validation. */
module ReportEntity {
  import opened Wrappers
  import opened Calendar

  /** A reporting requirement; `reportType` is 'interim', 'final' or absent. */
  datatype Report = Report(
    opportunityId: int,
    taskId: Option<string> := None,
    devLeadId: Option<int> := None,
    status: string := "active",
    deadline: Option<DateTime> := None,
    submissionDate: Option<DateTime> := None,
    reportType: Option<string> := None,
    reportingPeriodStart: Option<DateTime> := None,
    reportingPeriodEnd: Option<DateTime> := None,
    fiscalYear: Option<string> := None,
    devTeamNotes: Option<string> := None,
    id: Option<int> := None,
    createdAt: Option<DateTime> := None,
    updatedAt: Option<DateTime> := None)
}
