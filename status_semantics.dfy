/** The status interpretation tables of data/services/status_semantics.py:
    a status id and a task type select a workflow meaning; the convenience
    predicates and the actionable-task filter read that meaning. */
module StatusSemantics {
  import opened Seqs
  import opened Text
  import opened ScheduleTask

  datatype WorkflowState = Actionable | Waiting | Successful | Unsuccessful | Complete | NeedsReview

  /** What a status means for the workflow. */
  datatype Semantics = Semantics(
    workflowState: WorkflowState,
    isActionable: bool,
    isTerminal: bool,
    needsFollowUp: bool,
    description: string)

  /** The design rules every table entry keeps: terminal exactly for the
      unsuccessful and complete states, waiting never actionable, and
      needs-review never actionable but always flagged for follow-up. */
  predicate Coherent(s: Semantics) {
    && (s.isTerminal <==> s.workflowState in {Unsuccessful, Complete})
    && (s.workflowState == Waiting ==> !s.isActionable)
    && (s.workflowState == NeedsReview ==> !s.isActionable && s.needsFollowUp)
  }

  /** `_default_semantics`: the safe default that asks for review. */
  function DefaultSemantics(statusId: int): (s: Semantics)
    ensures s.workflowState == NeedsReview && !s.isActionable && !s.isTerminal && s.needsFollowUp
    ensures s.description == "Status " + IntToString(statusId) + " needs semantic mapping"
    ensures Coherent(s)
  {
    Semantics(NeedsReview, false, false, true, "Status " + IntToString(statusId) + " needs semantic mapping")
  }

  /** `_loi_semantics`; unmapped ids need review with a fixed description. */
  function LoiSemantics(statusId: int): (s: Semantics)
    ensures Coherent(s)
    ensures statusId !in {1, 3, 4, 5, 6, 8, 10, 11} ==>
      s == Semantics(NeedsReview, false, false, true, "Unknown status - needs review")
  {
    match statusId
    case 1 => Semantics(Successful, true, false, true, "Invited to submit full proposal")
    case 3 => Semantics(Waiting, false, false, false, "Waiting for invitation decision")
    case 4 => Semantics(Actionable, true, false, false, "Actively drafting LOI")
    case 5 => Semantics(Actionable, true, false, false, "Planned for future submission")
    case 6 => Semantics(Actionable, true, false, false, "Researching opportunity")
    case 8 => Semantics(Unsuccessful, false, true, false, "Not invited to apply")
    case 10 => Semantics(Complete, false, true, false, "Cannot or will not apply")
    case 11 => Semantics(Complete, false, true, false, "Cannot or will not apply")
    case _ => Semantics(NeedsReview, false, false, true, "Unknown status - needs review")
  }

  /** `_proposal_semantics`; unmapped ids fall through to the default. */
  function ProposalSemantics(statusId: int): (s: Semantics)
    ensures Coherent(s)
    ensures statusId !in {1, 2, 4, 7, 8, 9} ==> s == DefaultSemantics(statusId)
  {
    match statusId
    case 1 => Semantics(Successful, true, false, true, "Grant awarded - schedule reports")
    case 2 => Semantics(Waiting, false, false, false, "Waiting for funding decision")
    case 4 => Semantics(Actionable, true, false, false, "Actively drafting proposal")
    case 7 => Semantics(Complete, false, true, false, "Grant complete and closed")
    case 8 => Semantics(Unsuccessful, true, true, true, "Proposal denied - consider feedback")
    case 9 => Semantics(Waiting, false, false, true, "On hold - monitor for updates")
    case _ => DefaultSemantics(statusId)
  }

  /** `_report_semantics`: no entry needs review; unmapped ids are
      actionable, and "Planned" (5) is in the actionable state yet not
      actionable now. */
  function ReportSemantics(statusId: int): (s: Semantics)
    ensures Coherent(s)
    ensures s.workflowState != NeedsReview
    ensures statusId !in {4, 5, 7} ==> s.workflowState == Actionable && s.isActionable
    ensures statusId == 5 ==> s.workflowState == Actionable && !s.isActionable
  {
    match statusId
    case 4 => Semantics(Actionable, true, false, false, "Drafting report")
    case 7 => Semantics(Complete, false, true, false, "Report submitted - complete")
    case 5 => Semantics(Actionable, false, false, false, "Report planned for future")
    case _ => Semantics(Actionable, true, false, false, "Report needs attention")
  }

  /** `get_semantics`: exact string dispatch on the task type; every other
      type string, "Reminder" and "Final Report" included, gets the
      default. */
  function GetSemantics(statusId: int, taskType: string): (s: Semantics)
    ensures Coherent(s)
    ensures taskType == "LOI" ==> s == LoiSemantics(statusId)
    ensures taskType == "Proposal" ==> s == ProposalSemantics(statusId)
    ensures taskType == "Report" ==> s == ReportSemantics(statusId)
    ensures taskType !in {"LOI", "Proposal", "Report"} ==> s == DefaultSemantics(statusId)
  {
    if taskType == "LOI" then LoiSemantics(statusId)
    else if taskType == "Proposal" then ProposalSemantics(statusId)
    else if taskType == "Report" then ReportSemantics(statusId)
    else DefaultSemantics(statusId)
  }

  /** Status 1 means success for both LOIs and proposals, with different
      descriptions. */
  lemma StatusOneExamples()
    ensures GetSemantics(1, "LOI") == Semantics(Successful, true, false, true, "Invited to submit full proposal")
    ensures GetSemantics(1, "Proposal") == Semantics(Successful, true, false, true, "Grant awarded - schedule reports")
  {
  }

  /** The default semantics of reminders and of "Final Report" tasks (the
      table only knows the exact string "Report"). */
  lemma UnlistedTypesGetDefault(statusId: int)
    ensures GetSemantics(statusId, "Reminder") == DefaultSemantics(statusId)
    ensures GetSemantics(statusId, "Final Report") == DefaultSemantics(statusId)
  {
    assert "Reminder" != "LOI" && "Reminder" != "Proposal" && "Reminder" != "Report" by {
      assert |"Reminder"| == 8;
    }
    assert "Final Report" != "LOI" && "Final Report" != "Proposal" && "Final Report" != "Report" by {
      assert |"Final Report"| == 12;
    }
  }

  /** `is_actionable` */
  predicate IsActionable(statusId: int, taskType: string) {
    GetSemantics(statusId, taskType).isActionable
  }

  /** `was_successful` */
  predicate WasSuccessful(statusId: int, taskType: string) {
    GetSemantics(statusId, taskType).workflowState == Successful
  }

  /** `needs_follow_up` */
  predicate NeedsFollowUp(statusId: int, taskType: string) {
    GetSemantics(statusId, taskType).needsFollowUp
  }

  /** Success is status 1 of an LOI or a proposal and nothing else, and a
      successful task is still open: actionable, not terminal, and flagged
      for follow-up. */
  lemma SuccessIsStatusOne(statusId: int, taskType: string)
    ensures WasSuccessful(statusId, taskType) <==> statusId == 1 && taskType in {"LOI", "Proposal"}
    ensures WasSuccessful(statusId, taskType) ==>
      IsActionable(statusId, taskType) && NeedsFollowUp(statusId, taskType)
      && !GetSemantics(statusId, taskType).isTerminal
  {
    if taskType !in {"LOI", "Proposal", "Report"} {
      assert GetSemantics(statusId, taskType).workflowState == NeedsReview;
    }
  }

  /** `get_actionable_tasks`: the tasks whose status is actionable for their
      type, in their original order. */
  function ActionableTasks(tasks: seq<ScheduledTask>): (r: seq<ScheduledTask>)
    ensures |r| <= |tasks|
    ensures forall i :: 0 <= i < |r| ==> IsActionable(r[i].StatusId(), r[i].TaskType())
    ensures forall i :: 0 <= i < |tasks| && IsActionable(tasks[i].StatusId(), tasks[i].TaskType()) ==> tasks[i] in r
    ensures forall t :: t in r ==> t in tasks
  {
    if tasks == [] then []
    else
      var rest := ActionableTasks(tasks[1..]);
      assert forall i :: 1 <= i < |tasks| ==> tasks[i] == tasks[1..][i - 1];
      if IsActionable(tasks[0].StatusId(), tasks[0].TaskType()) then [tasks[0]] + rest else rest
  }

  /** The filter keeps order: filtering a concatenation concatenates the
      filtered parts. */
  lemma {:induction false} ActionableTasksAppend(a: seq<ScheduledTask>, b: seq<ScheduledTask>)
    ensures ActionableTasks(a + b) == ActionableTasks(a) + ActionableTasks(b)
  {
    if a != [] {
      var t := a[1..];
      assert a == [a[0]] + t;
      AppendAssoc([a[0]], t, b);
      assert (a + b)[1..] == t + b;
      ActionableTasksAppend(t, b);
      AppendAssoc([a[0]], ActionableTasks(t), ActionableTasks(b));
    } else {
      assert a + b == b;
    }
  }

  /** Filtering twice is filtering once. */
  lemma {:induction false} ActionableTasksIdempotent(tasks: seq<ScheduledTask>)
    ensures ActionableTasks(ActionableTasks(tasks)) == ActionableTasks(tasks)
  {
    if tasks != [] {
      ActionableTasksIdempotent(tasks[1..]);
      var rest := ActionableTasks(tasks[1..]);
      if IsActionable(tasks[0].StatusId(), tasks[0].TaskType()) {
        assert ([tasks[0]] + rest)[1..] == rest;
      }
    }
  }
}
