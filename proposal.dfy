/** The legacy Proposal entity of data/entities/proposal.py: a record whose
    constructor checks the sign of both amounts and nothing else. */
module ProposalEntity {
  import opened Wrappers
  import opened Calendar

  /** A full grant application. Float amounts are `real`s. */
  datatype Proposal = Proposal(
    opportunityId: int,
    taskId: string,
    devLeadId: Option<int> := None,
    status: Option<string> := None,
    deadline: Option<DateTime> := None,
    submissionDate: Option<DateTime> := None,
    notificationDate: Option<DateTime> := None,
    grantStartDate: Option<DateTime> := None,
    grantEndDate: Option<DateTime> := None,
    amountRequested: Option<real> := None,
    amountAwarded: Option<real> := None,
    fiscalYear: Option<string> := None,
    programArea: Option<string> := None,
    initiative: Option<string> := None,
    communities: Option<string> := None,
    devTeamNotes: Option<string> := None,
    id: Option<int> := None,
    createdAt: Option<DateTime> := None,
    updatedAt: Option<DateTime> := None)
  {
    /** What a successfully constructed proposal satisfies. */
    predicate Valid() {
      && (amountRequested.Some? ==> amountRequested.value >= 0.0)
      && (amountAwarded.Some? ==> amountAwarded.value >= 0.0)
    }
  }

  /** The ValueErrors of `__post_init__`. */
  datatype ProposalError = NegativeRequested(amount: real) | NegativeAwarded(amount: real)

  /** `Proposal(...)`: the record when both amounts are absent or
      non-negative; otherwise the error of the first failing check, the
      requested amount before the awarded one. */
  function Create(p: Proposal): (r: Result<Proposal, ProposalError>)
    ensures r.Success? <==> p.Valid()
    ensures r.Success? ==> r.value == p
    ensures p.amountRequested.Some? && p.amountRequested.value < 0.0 ==>
      r == Failure(NegativeRequested(p.amountRequested.value))
    ensures (p.amountRequested.None? || p.amountRequested.value >= 0.0)
      && p.amountAwarded.Some? && p.amountAwarded.value < 0.0
      ==> r == Failure(NegativeAwarded(p.amountAwarded.value))
  {
    if p.amountRequested.Some? && p.amountRequested.value < 0.0 then
      Failure(NegativeRequested(p.amountRequested.value))
    else if p.amountAwarded.Some? && p.amountAwarded.value < 0.0 then
      Failure(NegativeAwarded(p.amountAwarded.value))
    else Success(p)
  }

  /** The status is never examined: changing it does not change the
      outcome, and missing or zero amounts pass. */
  lemma StatusNotValidated(p: Proposal, status: Option<string>)
    ensures Create(p.(status := status)).Success? <==> Create(p).Success?
    ensures Create(p.(amountRequested := None, amountAwarded := None)).Success?
    ensures Create(p.(amountRequested := Some(0.0), amountAwarded := Some(0.0))).Success?
  {
  }
}
