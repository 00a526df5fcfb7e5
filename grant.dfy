/** The Grant entity of data/entities/grant.py: constructor guards and the
    deadline predicates. The clock (`datetime.now()`) is the parameter `now`;
    `(deadline - now).days` is `DaysBetween`, a floor. */
module GrantEntity {
  import opened Wrappers
  import opened Text
  import opened Calendar

  /** `GrantStatus` and its string values. */
  datatype GrantStatus = Active | Submitted | Awarded | Denied | Withdrawn | Completed
  {
    function Value(): string {
      match this
      case Active => "active"
      case Submitted => "submitted"
      case Awarded => "awarded"
      case Denied => "denied"
      case Withdrawn => "withdrawn"
      case Completed => "completed"
    }
  }

  /** The status values `is_active` treats as closed. */
  const InactiveStatuses: seq<string> := [Denied.Value(), Withdrawn.Value(), Completed.Value()]

  const DefaultUrgencyThreshold: int := 7

  datatype Grant = Grant(
    bernieNumber: string,
    funderName: string,
    programName: string,
    taskId: Option<string> := None,
    deadline: Option<DateTime> := None,
    devLead: Option<string> := None,
    status: string := "active",
    amountRequested: Option<real> := None,
    amountAwarded: Option<real> := None,
    grantType: Option<string> := None,
    area: Option<string> := None,
    state: Option<string> := None,
    initiative: Option<string> := None,
    grantStartDate: Option<DateTime> := None,
    grantEndDate: Option<DateTime> := None,
    notificationDate: Option<DateTime> := None,
    devTeamNotes: Option<string> := None,
    id: Option<int> := None,
    createdAt: Option<DateTime> := None,
    updatedAt: Option<DateTime> := None)
  {
    /** What a successfully constructed grant satisfies. The status is not
        part of it: non-standard values are accepted. */
    predicate Valid() {
      && bernieNumber != "" && StartsWith(bernieNumber, "BN")
      && Strip(funderName) != "" && Strip(programName) != ""
      && (amountRequested.Some? ==> amountRequested.value >= 0.0)
      && (amountAwarded.Some? ==> amountAwarded.value >= 0.0)
    }

    /** A Python `datetime` deadline is always a real calendar instant. */
    predicate DeadlineValid() {
      deadline.Some? ==> IsValid(deadline.value)
    }

    /** `days_until_deadline`: None without a deadline, otherwise the whole
        days from `now` to the deadline, rounded down (negative once it has
        passed). */
    function DaysUntilDeadline(now: DateTime): (r: Option<int>)
      requires IsValid(now) && DeadlineValid()
      ensures r.None? <==> deadline.None?
      ensures r.Some? ==> r.value * MicrosPerDay <= Micros(deadline.value) - Micros(now) < (r.value + 1) * MicrosPerDay
    {
      match deadline
      case None => None
      case Some(d) => Some(DaysBetween(d, now))
    }

    /** `is_urgent(threshold)`: the deadline is between zero and `threshold`
        whole days away. */
    predicate IsUrgent(now: DateTime, threshold: int := DefaultUrgencyThreshold)
      requires IsValid(now) && DeadlineValid()
    {
      var days := DaysUntilDeadline(now);
      days.Some? && 0 <= days.value <= threshold
    }

    /** `is_overdue`: a negative number of days remain. */
    predicate IsOverdue(now: DateTime)
      requires IsValid(now) && DeadlineValid()
    {
      var days := DaysUntilDeadline(now);
      days.Some? && days.value < 0
    }

    /** `is_active`: the lower-cased status is not a closed one. */
    predicate IsActive() {
      Lower(status) !in InactiveStatuses
    }
  }

  /** The ValueErrors of `__post_init__`. */
  datatype GrantError =
    | MissingBernieNumber
    | InvalidBernieNumber(bernieNumber: string)
    | MissingFunderName
    | MissingProgramName
    | NegativeRequested(amount: real)
    | NegativeAwarded(amount: real)

  /** `Grant(...)`: the checks run in source order and the first failure is
      reported; the status is never rejected. */
  function Create(g: Grant): (r: Result<Grant, GrantError>)
    ensures r.Success? <==> g.Valid()
    ensures r.Success? ==> r.value == g
    ensures g.bernieNumber == "" ==> r == Failure(MissingBernieNumber)
    ensures g.bernieNumber != "" && !StartsWith(g.bernieNumber, "BN") ==>
      r == Failure(InvalidBernieNumber(g.bernieNumber))
    ensures StartsWith(g.bernieNumber, "BN") && Strip(g.funderName) == "" ==>
      r == Failure(MissingFunderName)
    ensures StartsWith(g.bernieNumber, "BN") && Strip(g.funderName) != "" && Strip(g.programName) == "" ==>
      r == Failure(MissingProgramName)
    ensures r.Failure? && r.error.NegativeRequested? ==>
      g.amountRequested == Some(r.error.amount) && r.error.amount < 0.0
    ensures r.Failure? && r.error.NegativeAwarded? ==>
      g.amountAwarded == Some(r.error.amount) && r.error.amount < 0.0
      && (g.amountRequested.Some? ==> g.amountRequested.value >= 0.0)
  {
    if g.bernieNumber == "" then Failure(MissingBernieNumber)
    else if !StartsWith(g.bernieNumber, "BN") then Failure(InvalidBernieNumber(g.bernieNumber))
    else if Strip(g.funderName) == "" then Failure(MissingFunderName)
    else if Strip(g.programName) == "" then Failure(MissingProgramName)
    else if g.amountRequested.Some? && g.amountRequested.value < 0.0 then
      Failure(NegativeRequested(g.amountRequested.value))
    else if g.amountAwarded.Some? && g.amountAwarded.value < 0.0 then
      Failure(NegativeAwarded(g.amountAwarded.value))
    else Success(g)
  }

  /** Any status string is accepted, standard or not. */
  lemma AnyStatusAccepted(g: Grant, status: string)
    ensures Create(g.(status := status)).Success? <==> Create(g).Success?
  {
  }

  /** Urgent and overdue exclude each other, and without a deadline a grant
      is neither. */
  lemma UrgentOverdueExclusive(g: Grant, now: DateTime, threshold: int)
    requires IsValid(now) && g.DeadlineValid()
    ensures !(g.IsUrgent(now, threshold) && g.IsOverdue(now))
    ensures g.deadline.None? ==> !g.IsUrgent(now, threshold) && !g.IsOverdue(now)
  {
  }

  /** Overdue means the deadline is strictly before `now` in the datetime
      order. */
  lemma OverdueIffPassed(g: Grant, now: DateTime)
    requires IsValid(now) && g.DeadlineValid()
    ensures g.IsOverdue(now) <==> g.deadline.Some? && Before(g.deadline.value, now)
  {
    if g.deadline.Some? {
      BeforeIffEarlier(g.deadline.value, now);
    }
  }

  /** Urgent means the deadline has not passed and is less than
      `threshold + 1` days away, that is at most `threshold` whole days. */
  lemma UrgentWindow(g: Grant, now: DateTime, threshold: int)
    requires IsValid(now) && g.DeadlineValid()
    ensures g.IsUrgent(now, threshold) ==>
      !Before(g.deadline.value, now)
      && Micros(g.deadline.value) < Micros(now) + (threshold + 1) * MicrosPerDay
    ensures (g.deadline.Some? && !Before(g.deadline.value, now)
      && Micros(g.deadline.value) < Micros(now) + (threshold + 1) * MicrosPerDay) ==> g.IsUrgent(now, threshold)
  {
    if g.deadline.Some? {
      var days := g.DaysUntilDeadline(now).value;
      BeforeIffEarlier(g.deadline.value, now);
      if g.IsUrgent(now, threshold) {
        assert (days + 1) * MicrosPerDay <= (threshold + 1) * MicrosPerDay;
      }
      if !Before(g.deadline.value, now) && Micros(g.deadline.value) < Micros(now) + (threshold + 1) * MicrosPerDay {
        assert days * MicrosPerDay < (threshold + 1) * MicrosPerDay;
        assert days <= threshold;
        assert 0 <= days;
      }
    }
  }

  /** `is_active` ignores letter case: a status and its lower-cased form
      give the same answer. */
  lemma IsActiveIgnoresCase(g: Grant, s: string)
    ensures g.(status := s).IsActive() <==> g.(status := Lower(s)).IsActive()
  {
    LowerIdempotent(s);
  }

  /** Of the standard statuses, exactly denied, withdrawn and completed are
      closed. */
  lemma StandardStatusesActive(g: Grant, st: GrantStatus)
    ensures g.(status := st.Value()).IsActive() <==> st !in {Denied, Withdrawn, Completed}
  {
    if st in {Denied, Withdrawn, Completed} {
      ClosedStatusInactive(g.(status := st.Value()));
    } else {
      OpenStatusActive(g.(status := st.Value()));
    }
  }

  /** The standard statuses `is_active` leaves open. */
  const OpenStatuses: seq<string> := [Active.Value(), Submitted.Value(), Awarded.Value()]

  /** A grant whose status is written exactly as an open standard value is
      active. */
  lemma OpenStatusActive(g: Grant)
    requires g.status in OpenStatuses
    ensures g.IsActive()
  {
    var k :| 0 <= k < |OpenStatuses| && OpenStatuses[k] == g.status;
    if k == 1 {
      assert g.status[0] == 's';
    } else {
      assert g.status[0] == 'a';
    }
    OpenInitial(g);
  }

  /** The closed statuses begin with 'd', 'w' and 'c'; a status beginning
      with any other letter, in either case, is active. */
  lemma OpenInitial(g: Grant)
    requires |g.status| > 0 && LowerChar(g.status[0]) !in "dwc"
    ensures g.IsActive()
  {
    var l := Lower(g.status);
    assert l[0] == LowerChar(g.status[0]);
    forall k | 0 <= k < |InactiveStatuses|
      ensures l != InactiveStatuses[k]
    {
      assert InactiveStatuses[k][0] in "dwc";
    }
  }

  /** A grant whose status is written exactly as a closed standard value is
      not active. */
  lemma ClosedStatusInactive(g: Grant)
    requires g.status in InactiveStatuses
    ensures !g.IsActive()
  {
    var k :| 0 <= k < |InactiveStatuses| && InactiveStatuses[k] == g.status;
    if k == 0 {
      LowerNoCapitals("denied");
    } else if k == 1 {
      LowerNoCapitals("withdrawn");
    } else {
      LowerNoCapitals("completed");
    }
    assert Lower(g.status) == InactiveStatuses[k];
  }

  /** A closed status is recognised in any letter case: every spelling
      that lower-cases to "denied" is inactive. */
  lemma DeniedInAnyCase(g: Grant, s: string)
    requires Lower(s) == "denied"
    ensures !g.(status := s).IsActive()
  {
    assert Lower(s) == InactiveStatuses[0];
  }

  /** "Denied" and "DENIED" are two such spellings. */
  lemma DeniedSpellings(g: Grant)
    ensures !g.(status := "Denied").IsActive() && !g.(status := "DENIED").IsActive()
  {
    var l := Lower("Denied");
    assert l[0] == 'd';
    assert l == "denied";
    DeniedInAnyCase(g, "Denied");
    var u := Lower("DENIED");
    assert u[0] == 'd';
    assert u == "denied";
    DeniedInAnyCase(g, "DENIED");
  }

  /** The open status "awarded" is active. */
  lemma AwardedIsActive(g: Grant)
    ensures g.(status := "awarded").IsActive()
  {
    var l := Lower("awarded");
    assert l == "awarded";
  }
}
