/** The legacy LOI entity of data/entities/loi.py: a record validated at
    construction (a closed status vocabulary and a non-negative amount). */
module LoiEntity {
  import opened Wrappers
  import opened Calendar

  /** The statuses `__post_init__` accepts, in the order of its tuple. */
  const ValidStatuses: seq<string> := ["active", "submitted", "invited", "declined"]

  /** A Letter of Intent. The float amount is a `real`. */
  datatype Loi = Loi(
    opportunityId: int,
    taskId: Option<string> := None,
    devLeadId: Option<int> := None,
    status: string := "active",
    deadline: Option<DateTime> := None,
    submissionDate: Option<DateTime> := None,
    notificationDate: Option<DateTime> := None,
    amountRequested: Option<real> := None,
    invitedToApply: Option<bool> := None,
    fiscalYear: Option<string> := None,
    programArea: Option<string> := None,
    devTeamNotes: Option<string> := None,
    id: Option<int> := None,
    createdAt: Option<DateTime> := None,
    updatedAt: Option<DateTime> := None)
  {
    /** What a successfully constructed LOI satisfies. */
    predicate Valid() {
      status in ValidStatuses && (amountRequested.Some? ==> amountRequested.value >= 0.0)
    }
  }

  /** The ValueErrors of `__post_init__`. */
  datatype LoiError = InvalidStatus(status: string) | NegativeAmount(amount: real)

  /** `LOI(...)`: the record when both checks pass; otherwise the error of
      the first failing check, the status before the amount. */
  function Create(l: Loi): (r: Result<Loi, LoiError>)
    ensures r.Success? <==> l.Valid()
    ensures r.Success? ==> r.value == l
    ensures l.status !in ValidStatuses ==> r == Failure(InvalidStatus(l.status))
    ensures l.status in ValidStatuses && l.amountRequested.Some? && l.amountRequested.value < 0.0 ==>
      r == Failure(NegativeAmount(l.amountRequested.value))
  {
    if l.status !in ValidStatuses then Failure(InvalidStatus(l.status))
    else if l.amountRequested.Some? && l.amountRequested.value < 0.0 then
      Failure(NegativeAmount(l.amountRequested.value))
    else Success(l)
  }

  /** With every field at its default, an LOI validates: the default status
      is in the vocabulary and a missing amount passes. */
  lemma DefaultsAccepted(opportunityId: int)
    ensures Create(Loi(opportunityId)).Success?
    ensures Create(Loi(opportunityId)).value.status == "active"
  {
  }

  /** A zero amount is accepted; any amount below zero is not. */
  lemma AmountSign(l: Loi, amount: real)
    requires l.status in ValidStatuses
    ensures Create(l.(amountRequested := Some(amount))).Success? <==> amount >= 0.0
  {
  }
}
