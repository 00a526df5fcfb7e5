/** The raw Writing Schedule row (data/adapters/writing_schedule/schema.py):
    every column is optional text except `task_id`; `is_archive` is an
    optional integer. */
module Schema {
  import opened Wrappers

  /** One row of `writing_schedule_current`. The source's `type` column is
      `rowType` here, since `type` is a Dafny keyword. */
  datatype WritingScheduleRow = WritingScheduleRow(
    taskId: string,
    funder: Option<string> := None,
    opportunity: Option<string> := None,
    bernieIdentifier: Option<string> := None,
    shortName: Option<string> := None,
    rowType: Option<string> := None,
    status: Option<string> := None,
    amount: Option<string> := None,
    award: Option<string> := None,
    deadline: Option<string> := None,
    notificationDate: Option<string> := None,
    grantStartDate: Option<string> := None,
    grantEndDate: Option<string> := None,
    reportsDue: Option<string> := None,
    lastModified: Option<string> := None,
    fiscalYear: Option<string> := None,
    area: Option<string> := None,
    initiative: Option<string> := None,
    state: Option<string> := None,
    communities: Option<string> := None,
    grantGoals: Option<string> := None,
    devTeamNotes: Option<string> := None,
    acknowledgmentNeeds: Option<string> := None,
    membersFunded: Option<string> := None,
    modelFunded: Option<string> := None,
    bloomerangAccount: Option<string> := None,
    owner: Option<string> := None,
    month: Option<string> := None,
    recentPledge: Option<string> := None,
    internalStatus: Option<string> := None,
    noteStub: Option<string> := None,
    updatedAt: Option<string> := None,
    isArchive: Option<int> := None)

  /** Python truthiness of an optional string: neither `None` nor "". */
  predicate IsPresent(s: Option<string>) {
    s.Some? && s.value != ""
  }

  /** The three type strings both adapters treat as a report. */
  predicate IsReportType(t: Option<string>) {
    t == Some("Report") || t == Some("Final Report") || t == Some("Interim Report")
  }
}
