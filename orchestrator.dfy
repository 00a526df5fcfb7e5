/** The orchestrator of data/services/orchestrator.py: natural keys are
    resolved against three reference tables, then the task entity and the
    funder and owner records are built; a batch loop collects entities,
    counters and per-row errors. The SQLite database is a `ReferenceStore`
    object holding the three tables as maps with id counters. */
module Orchestrator {
  import opened Wrappers
  import opened Text
  import opened Calendar
  import opened DataParsing
  import opened Schema
  import opened TaskService
  import opened ScheduleTask
  import FunderEntity
  import DevTeam
  import Decomposer

  /** The source system every Writing Schedule status is recorded under. */
  const WritingScheduleSource: string := "writing_schedule"

  // ----- the reference tables -------------------------------------------------

  /** A snapshot of the tables: statuses keyed by (text, source system),
      funders by bernie number, owners by full name; the counters give the
      next surrogate id. */
  datatype StoreState = StoreState(
    statuses: map<(string, string), int>,
    nextStatusId: int,
    funders: map<string, string>,
    owners: map<string, int>,
    nextOwnerId: int)

  /** Surrogate ids are positive, below the counter, and distinct. */
  predicate StoreValid(s: StoreState) {
    && 1 <= s.nextStatusId && 1 <= s.nextOwnerId
    && (forall k :: k in s.statuses ==> 1 <= s.statuses[k] < s.nextStatusId)
    && (forall k1, k2 :: k1 in s.statuses && k2 in s.statuses && k1 != k2 ==> s.statuses[k1] != s.statuses[k2])
    && (forall n :: n in s.owners ==> 1 <= s.owners[n] < s.nextOwnerId)
    && (forall n1, n2 :: n1 in s.owners && n2 in s.owners && n1 != n2 ==> s.owners[n1] != s.owners[n2])
  }

  /** `INSERT OR IGNORE INTO raw_statuses`: a new key gets the next id, an
      existing key is left alone. */
  function InsertOrIgnoreStatus(s: StoreState, key: (string, string)): (r: StoreState)
    ensures key in r.statuses && r.statuses.Keys == s.statuses.Keys + {key}
    ensures key in s.statuses ==> r == s
    ensures key !in s.statuses ==> r.statuses[key] == s.nextStatusId
    ensures forall k :: k in s.statuses ==> r.statuses[k] == s.statuses[k]
    ensures r.funders == s.funders && r.owners == s.owners && r.nextOwnerId == s.nextOwnerId
    ensures StoreValid(s) ==> StoreValid(r)
  {
    if key in s.statuses then s
    else s.(statuses := s.statuses[key := s.nextStatusId], nextStatusId := s.nextStatusId + 1)
  }

  /** `INSERT OR REPLACE INTO funders`: the last write wins. */
  function InsertOrReplaceFunder(s: StoreState, bernieNumber: string, canonicalName: string): (r: StoreState)
    ensures bernieNumber in r.funders && r.funders[bernieNumber] == canonicalName
    ensures forall b :: b in s.funders && b != bernieNumber ==> b in r.funders && r.funders[b] == s.funders[b]
    ensures r.funders.Keys == s.funders.Keys + {bernieNumber}
    ensures r.statuses == s.statuses && r.nextStatusId == s.nextStatusId
    ensures r.owners == s.owners && r.nextOwnerId == s.nextOwnerId
  {
    s.(funders := s.funders[bernieNumber := canonicalName])
  }

  /** `INSERT OR IGNORE INTO dev_team_members`. */
  function InsertOrIgnoreOwner(s: StoreState, name: string): (r: StoreState)
    ensures name in r.owners && r.owners.Keys == s.owners.Keys + {name}
    ensures name in s.owners ==> r == s
    ensures name !in s.owners ==> r.owners[name] == s.nextOwnerId
    ensures forall n :: n in s.owners ==> r.owners[n] == s.owners[n]
    ensures r.statuses == s.statuses && r.nextStatusId == s.nextStatusId && r.funders == s.funders
    ensures StoreValid(s) ==> StoreValid(r)
  {
    if name in s.owners then s
    else s.(owners := s.owners[name := s.nextOwnerId], nextOwnerId := s.nextOwnerId + 1)
  }

  /** The database: three tables and their id counters, updated in place. */
  class ReferenceStore {
    var statuses: map<(string, string), int>
    var nextStatusId: int
    var funders: map<string, string>
    var owners: map<string, int>
    var nextOwnerId: int

    function State(): StoreState
      reads this
    {
      StoreState(statuses, nextStatusId, funders, owners, nextOwnerId)
    }

    /** An empty database. */
    constructor ()
      ensures State() == StoreState(map[], 1, map[], map[], 1)
      ensures StoreValid(State())
    {
      statuses := map[];
      nextStatusId := 1;
      funders := map[];
      owners := map[];
      nextOwnerId := 1;
    }

    /** Returns whether a row was inserted. */
    method InsertOrIgnoreStatusRow(text: string, source: string) returns (inserted: bool)
      modifies this
      ensures State() == InsertOrIgnoreStatus(old(State()), (text, source))
      ensures inserted <==> (text, source) !in old(statuses)
    {
      inserted := (text, source) !in statuses;
      if inserted {
        statuses := statuses[(text, source) := nextStatusId];
        nextStatusId := nextStatusId + 1;
      }
    }

    /** `SELECT id FROM raw_statuses WHERE ...` */
    function SelectStatus(text: string, source: string): (r: Option<int>)
      reads this
      ensures r.Some? <==> (text, source) in statuses
      ensures r.Some? ==> r.value == statuses[(text, source)]
    {
      if (text, source) in statuses then Some(statuses[(text, source)]) else None
    }

    method InsertOrReplaceFunderRow(bernieNumber: string, canonicalName: string)
      modifies this
      ensures State() == InsertOrReplaceFunder(old(State()), bernieNumber, canonicalName)
    {
      funders := funders[bernieNumber := canonicalName];
    }

    /** Returns whether a row was inserted. */
    method InsertOrIgnoreOwnerRow(name: string) returns (inserted: bool)
      modifies this
      ensures State() == InsertOrIgnoreOwner(old(State()), name)
      ensures inserted <==> name !in old(owners)
    {
      inserted := name !in owners;
      if inserted {
        owners := owners[name := nextOwnerId];
        nextOwnerId := nextOwnerId + 1;
      }
    }

    /** `SELECT id FROM dev_team_members WHERE full_name = ?` */
    function SelectOwner(name: string): (r: Option<int>)
      reads this
      ensures r.Some? <==> name in owners
      ensures r.Some? ==> r.value == owners[name]
    {
      if name in owners then Some(owners[name]) else None
    }
  }

  // ----- resolution -----------------------------------------------------------

  datatype ResolutionResult = ResolutionResult(
    statusId: int,
    funderId: Option<string>,
    ownerId: Option<int>,
    wasStatusNew: bool,
    wasFunderNew: bool,
    wasOwnerNew: bool)

  /** `_resolve_foreign_keys` over a snapshot: the new tables and the
      resolution. The status flag is the cursor's row count after the
      SELECT, which is never positive; the funder flag is the row count of
      INSERT OR REPLACE, which always is. */
  function Resolve(s: StoreState, bernieNumber: string, canonicalName: string,
                   ownerName: Option<string>, rawStatus: string, source: string): (StoreState, ResolutionResult)
  {
    var s1 := InsertOrIgnoreStatus(s, (rawStatus, source));
    var statusId := s1.statuses[(rawStatus, source)];
    var s2 := InsertOrReplaceFunder(s1, bernieNumber, canonicalName);
    if IsPresent(ownerName) then
      var s3 := InsertOrIgnoreOwner(s2, ownerName.value);
      (s3, ResolutionResult(statusId, Some(bernieNumber), Some(s3.owners[ownerName.value]),
                            false, true, ownerName.value !in s2.owners))
    else
      (s2, ResolutionResult(statusId, Some(bernieNumber), None, false, true, false))
  }

  /** Status resolution is idempotent: one more resolution of the same
      status text and source returns the same id and leaves the status
      table as it is; the first one adds at most that one key. */
  lemma StatusResolutionIdempotent(s: StoreState, rawStatus: string, source: string,
                                   b1: string, c1: string, o1: Option<string>,
                                   b2: string, c2: string, o2: Option<string>)
    ensures var (s1, r1) := Resolve(s, b1, c1, o1, rawStatus, source);
      var (s2, r2) := Resolve(s1, b2, c2, o2, rawStatus, source);
      && r2.statusId == r1.statusId
      && s2.statuses == s1.statuses && s2.nextStatusId == s1.nextStatusId
      && s1.statuses.Keys == s.statuses.Keys + {(rawStatus, source)}
  {
  }

  /** The funder write is last-write-wins, and the funder id is the bernie
      number. */
  lemma FunderUpsert(s: StoreState, bernieNumber: string, canonicalName: string,
                     ownerName: Option<string>, rawStatus: string, source: string)
    ensures var (s1, r) := Resolve(s, bernieNumber, canonicalName, ownerName, rawStatus, source);
      && s1.funders == s.funders[bernieNumber := canonicalName]
      && r.funderId == Some(bernieNumber)
      && !r.wasStatusNew && r.wasFunderNew
  {
  }

  /** Owner resolution: a missing or empty name resolves to no owner and
      leaves the table alone; any other name is inserted only when absent,
      the flag says whether it was, and the id is that name's row. */
  lemma OwnerResolution(s: StoreState, bernieNumber: string, canonicalName: string,
                        ownerName: Option<string>, rawStatus: string, source: string)
    ensures var (s1, r) := Resolve(s, bernieNumber, canonicalName, ownerName, rawStatus, source);
      !IsPresent(ownerName) ==> r.ownerId == None && !r.wasOwnerNew && s1.owners == s.owners
    ensures var (s1, r) := Resolve(s, bernieNumber, canonicalName, ownerName, rawStatus, source);
      IsPresent(ownerName) ==>
        && (r.wasOwnerNew <==> ownerName.value !in s.owners)
        && r.ownerId == Some(s1.owners[ownerName.value])
        && (ownerName.value in s.owners ==> s1.owners == s.owners)
        && s1.owners.Keys == s.owners.Keys + {ownerName.value}
  {
  }

  /** Resolution keeps the surrogate ids positive, bounded and distinct. */
  lemma ResolvePreservesValid(s: StoreState, bernieNumber: string, canonicalName: string,
                              ownerName: Option<string>, rawStatus: string, source: string)
    requires StoreValid(s)
    ensures StoreValid(Resolve(s, bernieNumber, canonicalName, ownerName, rawStatus, source).0)
    ensures var (s1, r) := Resolve(s, bernieNumber, canonicalName, ownerName, rawStatus, source);
      1 <= r.statusId < s1.nextStatusId
  {
    var s1 := InsertOrIgnoreStatus(s, (rawStatus, source));
    var s2 := InsertOrReplaceFunder(s1, bernieNumber, canonicalName);
    ValidIgnoresFunders(s1, s2);
    if IsPresent(ownerName) {
      var s3 := InsertOrIgnoreOwner(s2, ownerName.value);
      assert s3.nextStatusId == s1.nextStatusId;
    }
  }

  /** Validity does not look at the funder table. */
  lemma ValidIgnoresFunders(s: StoreState, t: StoreState)
    requires StoreValid(s)
    requires t.statuses == s.statuses && t.nextStatusId == s.nextStatusId
    requires t.owners == s.owners && t.nextOwnerId == s.nextOwnerId
    ensures StoreValid(t)
  {
  }

  // ----- entity building ------------------------------------------------------

  /** The entity core: the blueprint's core with the resolved status and
      owner ids in place of the status text and owner name. */
  function ResolvedCore(core: TaskCoreBlueprint, res: ResolutionResult): TaskCore {
    TaskCore(
      taskId := core.taskId,
      taskType := core.taskType,
      bernieNumber := core.bernieNumber,
      statusId := res.statusId,
      deadline := core.deadline,
      ownerId := res.ownerId,
      lastModified := core.lastModified,
      fiscalYear := core.fiscalYear,
      programArea := core.programArea,
      initiative := core.initiative,
      opportunityId := core.opportunityId)
  }

  /** `_build_task_entity`: the same variant with every field copied; only
      the proposal constructor can fail. */
  function BuildTaskEntity(b: TaskBlueprint, res: ResolutionResult): (r: Result<ScheduledTask, TaskError>)
    ensures r.Failure? <==> !b.Valid()
    ensures r.Success? ==> r.value.Core() == ResolvedCore(b.Core(), res)
    ensures r.Success? ==> (r.value.LoiTask? <==> b.Loi?) && (r.value.ProposalTask? <==> b.Proposal?)
    ensures r.Success? ==> (r.value.ReportTask? <==> b.Report?) && (r.value.ReminderTask? <==> b.Reminder?)
    ensures r.Success? ==> r.value.Valid()
  {
    var core := ResolvedCore(b.Core(), res);
    match b
    case Loi(l) =>
      Success(LoiTask(ScheduleTask.Loi(core, l.notificationDate, l.amountRequested, l.relatedProposalId, l.devTeamNotes)))
    case Proposal(p) =>
      IsNegativeMeansBelowZero(p.amountRequested);
      var e := NewProposal(core, p.amountRequested, p.awardAmount, p.submissionDate, p.notificationDate,
                           p.grantStartDate, p.grantEndDate, p.communities, p.membersFunded, p.modelFunded,
                           p.devTeamNotes, p.grantGoals);
      if e.Success? then Success(ProposalTask(e.value)) else Failure(e.error)
    case Report(rp) =>
      Success(ReportTask(ScheduleTask.Report(core, rp.reportType, rp.relatedProposalId, rp.submissionDate,
        rp.reportingPeriodStart, rp.reportingPeriodEnd, rp.acknowledgmentNeeds, rp.devTeamNotes)))
    case Reminder(rm) =>
      Success(ReminderTask(ScheduleTask.Reminder(core, rm.reminderNote)))
  }

  /** Going back from an entity to a blueprint, given the natural keys the
      ids were resolved from. */
  function Unresolve(t: ScheduledTask, statusText: string, ownerName: Option<string>): TaskBlueprint {
    var c := t.Core();
    var core := TaskCoreBlueprint(c.taskId, c.taskType, c.bernieNumber, statusText, ownerName,
      c.deadline, c.lastModified, c.fiscalYear, c.programArea, c.initiative, c.opportunityId);
    match t
    case LoiTask(l) => TaskBlueprint.Loi(LoiBlueprint(core, l.notificationDate, l.amountRequested, l.relatedProposalId, l.devTeamNotes))
    case ProposalTask(p) => TaskBlueprint.Proposal(ProposalBlueprint(core, p.amountRequested, p.awardAmount, p.submissionDate,
      p.notificationDate, p.grantStartDate, p.grantEndDate, p.communities, p.membersFunded, p.modelFunded,
      p.devTeamNotes, p.grantGoals))
    case ReportTask(rp) => TaskBlueprint.Report(ReportBlueprint(core, rp.reportType, rp.relatedProposalId, rp.submissionDate,
      rp.reportingPeriodStart, rp.reportingPeriodEnd, rp.acknowledgmentNeeds, rp.devTeamNotes))
    case ReminderTask(rm) => TaskBlueprint.Reminder(ReminderBlueprint(core, rm.reminderNote))
  }

  /** Building copies every blueprint field: putting the natural keys back
      gives the blueprint again, and the entity carries the resolved ids. */
  lemma {:induction false} BuildTaskEntityRoundTrip(b: TaskBlueprint, res: ResolutionResult)
    requires b.Valid()
    ensures BuildTaskEntity(b, res).Success?
    ensures var t := BuildTaskEntity(b, res).value;
      && Unresolve(t, b.Core().statusText, b.Core().ownerName) == b
      && t.StatusId() == res.statusId && t.Core().ownerId == res.ownerId
  {
    var t := BuildTaskEntity(b, res).value;
    assert t.Core() == ResolvedCore(b.Core(), res);
    match b
    case Loi(l) =>
    case Proposal(p) =>
    case Report(rp) =>
    case Reminder(rm) =>
  }

  // ----- one decomposed row ---------------------------------------------------

  datatype Metadata = Metadata(
    statusId: int,
    wasStatusNew: bool,
    wasFunderNew: bool,
    wasOwnerNew: bool,
    rawStatus: string)

  /** The exception a row raises after its keys are resolved. */
  datatype RowError =
    | FunderRejected(funderError: FunderEntity.FunderError)
    | OwnerRejected(ownerError: DevTeam.DevTeamError)
    | TaskRejected(taskError: TaskError)
    | Unpack

  datatype ProcessedRow = ProcessedRow(
    funder: FunderEntity.Funder,
    owner: Option<DevTeam.DevTeamMember>,
    task: ScheduledTask,
    metadata: Metadata)

  /** Which constructor of `process_decomposed_row` raises, in call order:
      the funder, then the owner, then the task. None of them reads the
      store, so the outcome depends on the row alone. */
  function RowFailure(bernieNumber: string, canonicalName: string, ownerName: Option<string>,
                      blueprint: TaskBlueprint): (r: Option<RowError>)
    ensures r.None? <==>
      && FunderEntity.FunderCheck(bernieNumber, canonicalName, None).None?
      && (IsPresent(ownerName) ==> DevTeam.Create(DevTeam.DevTeamMember(ownerName.value)).Success?)
      && blueprint.Valid()
    ensures FunderEntity.FunderCheck(bernieNumber, canonicalName, None).Some? ==>
      r == Some(FunderRejected(FunderEntity.FunderCheck(bernieNumber, canonicalName, None).value))
    ensures r != Some(Unpack)
  {
    if FunderEntity.FunderCheck(bernieNumber, canonicalName, None).Some? then
      Some(FunderRejected(FunderEntity.FunderCheck(bernieNumber, canonicalName, None).value))
    else if IsPresent(ownerName) && DevTeam.Create(DevTeam.DevTeamMember(ownerName.value)).Failure? then
      Some(OwnerRejected(DevTeam.Create(DevTeam.DevTeamMember(ownerName.value)).error))
    else if !blueprint.Valid() then
      Some(TaskRejected(NegativeAmount(blueprint.proposal.amountRequested)))
    else None
  }

  /** The decomposer's default bernie number fails the funder check, while
      its resolution has already written the funder row: resolution is not
      atomic with validation. */
  lemma UnknownFunderWrittenThenRejected(s: StoreState, canonicalName: string, ownerName: Option<string>,
                                         rawStatus: string, blueprint: TaskBlueprint)
    ensures RowFailure("UNKNOWN", canonicalName, ownerName, blueprint) == Some(FunderRejected(FunderEntity.InvalidPrefix("UNKNOWN")))
    ensures var s1 := Resolve(s, "UNKNOWN", canonicalName, ownerName, rawStatus, WritingScheduleSource).0;
      "UNKNOWN" in s1.funders && s1.funders["UNKNOWN"] == canonicalName
  {
    assert !StartsWith("UNKNOWN", "BN") by {
      assert "UNKNOWN"[..2] == "UN";
    }
  }

  class TaskOrchestrator {
    const store: ReferenceStore

    constructor (store: ReferenceStore)
      ensures this.store == store
    {
      this.store := store;
    }

    /** `_resolve_foreign_keys`: the three writes, then the lookups; the
        database is committed before it returns. */
    method ResolveForeignKeys(bernieNumber: string, canonicalName: string, ownerName: Option<string>,
                              rawStatus: string, source: string) returns (res: ResolutionResult)
      modifies store
      ensures (store.State(), res) == Resolve(old(store.State()), bernieNumber, canonicalName, ownerName, rawStatus, source)
    {
      var _ := store.InsertOrIgnoreStatusRow(rawStatus, source);
      var found := store.SelectStatus(rawStatus, source);
      var statusId := if found.Some? then found.value else 1;
      var wasStatusNew := false;
      store.InsertOrReplaceFunderRow(bernieNumber, canonicalName);
      var wasFunderNew := true;
      var ownerId: Option<int> := None;
      var wasOwnerNew := false;
      if IsPresent(ownerName) {
        wasOwnerNew := store.InsertOrIgnoreOwnerRow(ownerName.value);
        ownerId := store.SelectOwner(ownerName.value);
      }
      res := ResolutionResult(statusId, Some(bernieNumber), ownerId, wasStatusNew, wasFunderNew, wasOwnerNew);
    }

    /** `process_decomposed_row`: resolution always updates the store; the
        entities are built afterwards, and the first constructor that
        rejects its input decides the error. */
    method ProcessDecomposedRow(bernieNumber: string, canonicalName: string, ownerName: Option<string>,
                                rawStatus: string, blueprint: TaskBlueprint) returns (r: Result<ProcessedRow, RowError>)
      modifies store
      ensures store.State() == Resolve(old(store.State()), bernieNumber, canonicalName, ownerName, rawStatus, WritingScheduleSource).0
      ensures r.Failure? <==> RowFailure(bernieNumber, canonicalName, ownerName, blueprint).Some?
      ensures r.Failure? ==> r.error == RowFailure(bernieNumber, canonicalName, ownerName, blueprint).value
      ensures r.Success? ==> var res := Resolve(old(store.State()), bernieNumber, canonicalName, ownerName, rawStatus, WritingScheduleSource).1;
        && fresh(r.value.funder) && r.value.funder.Valid()
        && r.value.funder.bernieNumber == bernieNumber && r.value.funder.canonicalName == canonicalName
        && r.value.funder.allNames == [canonicalName] && r.value.funder.ein == None
        && r.value.owner == (if IsPresent(ownerName) then Some(DevTeam.DevTeamMember(ownerName.value)) else None)
        && r.value.task == BuildTaskEntity(blueprint, res).value
        && r.value.metadata == Metadata(res.statusId, res.wasStatusNew, res.wasFunderNew, res.wasOwnerNew, rawStatus)
    {
      var res := ResolveForeignKeys(bernieNumber, canonicalName, ownerName, rawStatus, WritingScheduleSource);
      var funder := FunderEntity.Create(bernieNumber, canonicalName);
      if funder.Failure? {
        return Failure(FunderRejected(funder.error));
      }
      var owner: Option<DevTeam.DevTeamMember> := None;
      if IsPresent(ownerName) {
        var member := DevTeam.Create(DevTeam.DevTeamMember(ownerName.value));
        if member.Failure? {
          return Failure(OwnerRejected(member.error));
        }
        owner := Some(member.value);
      }
      var task := BuildTaskEntity(blueprint, res);
      if task.Failure? {
        return Failure(TaskRejected(task.error));
      }
      var metadata := Metadata(res.statusId, res.wasStatusNew, res.wasFunderNew, res.wasOwnerNew, rawStatus);
      return Success(ProcessedRow(funder.value, owner, task.value, metadata));
    }
  }

  // ----- batches --------------------------------------------------------------

  /** An element of the batch: a decomposer tuple, or a tuple with fewer
      than five components, which fails to unpack. */
  datatype RowData = Full(row: Decomposer.Decomposed) | Malformed

  datatype BatchError = BatchError(row: string, error: RowError)

  datatype BatchResults = BatchResults(
    processed: nat,
    errors: seq<BatchError>,
    newStatuses: nat,
    newFunders: nat,
    newOwners: nat,
    entities: seq<ProcessedRow>)

  /** The error one batch element produces, if any. */
  function ElementFailure(d: RowData): (r: Option<RowError>)
    ensures d.Malformed? <==> r == Some(Unpack)
  {
    match d
    case Malformed => Some(Unpack)
    case Full(row) => RowFailure(row.bernieNumber, row.canonicalName, row.ownerName, row.blueprint)
  }

  /** The tag an error entry carries: the blueprint's task id, or
      "unknown" for a tuple too short to have one. */
  function ElementTag(d: RowData): string {
    match d
    case Malformed => "unknown"
    case Full(row) => row.blueprint.Core().taskId
  }

  /** The error entries of a batch, in input order. */
  function ErrorLog(rows: seq<RowData>): (r: seq<BatchError>)
    ensures |r| <= |rows|
  {
    if rows == [] then []
    else
      var last := rows[|rows| - 1];
      ErrorLog(rows[..|rows| - 1])
        + (if ElementFailure(last).Some? then [BatchError(ElementTag(last), ElementFailure(last).value)] else [])
  }

  /** The store after a batch: every unpacked row is resolved, whether or
      not it then fails. */
  function StoreAfter(s: StoreState, rows: seq<RowData>): StoreState {
    if rows == [] then s
    else StepStore(StoreAfter(s, rows[..|rows| - 1]), rows[|rows| - 1])
  }

  /** The store after one element: a tuple that unpacks is resolved. */
  function StepStore(s: StoreState, e: RowData): StoreState {
    match e
    case Malformed => s
    case Full(row) =>
      Resolve(s, row.bernieNumber, row.canonicalName, row.ownerName, row.rawStatus, WritingScheduleSource).0
  }

  /** The number of rows a batch processes. */
  function SucceededCount(rows: seq<RowData>): (n: nat)
    ensures n + |ErrorLog(rows)| == |rows|
  {
    if rows == [] then 0
    else SucceededCount(rows[..|rows| - 1]) + (if ElementFailure(rows[|rows| - 1]).Some? then 0 else 1)
  }

  /** A successful row's entry in `entities`, with the funder object given
      by the two fields it is built from. */
  datatype EntityRecord = EntityRecord(
    bernieNumber: string,
    canonicalName: string,
    owner: Option<DevTeam.DevTeamMember>,
    task: ScheduledTask,
    metadata: Metadata)

  /** `DevTeamMember(name=owner_name) if owner_name else None` */
  function OwnerRecord(ownerName: Option<string>): Option<DevTeam.DevTeamMember> {
    if IsPresent(ownerName) then Some(DevTeam.DevTeamMember(ownerName.value)) else None
  }

  /** What one element adds to `entities`, given the store the rows before
      it left: nothing when it fails, otherwise the records built from its
      resolution. */
  function RowEntity(before: StoreState, e: RowData): (r: seq<EntityRecord>)
    ensures |r| <= 1
    ensures r == [] <==> ElementFailure(e).Some?
  {
    match e
    case Malformed => []
    case Full(d) =>
      if RowFailure(d.bernieNumber, d.canonicalName, d.ownerName, d.blueprint).Some? then []
      else
        var res := Resolve(before, d.bernieNumber, d.canonicalName, d.ownerName, d.rawStatus, WritingScheduleSource).1;
        [EntityRecord(d.bernieNumber, d.canonicalName, OwnerRecord(d.ownerName),
                      BuildTaskEntity(d.blueprint, res).value,
                      Metadata(res.statusId, res.wasStatusNew, res.wasFunderNew, res.wasOwnerNew, d.rawStatus))]
  }

  /** The entities of a batch in input order, each row resolved against the
      store its predecessors left. */
  function ExpectedEntities(s: StoreState, rows: seq<RowData>): seq<EntityRecord> {
    if rows == [] then []
    else
      var init := rows[..|rows| - 1];
      ExpectedEntities(s, init) + RowEntity(StoreAfter(s, init), rows[|rows| - 1])
  }

  /** The three was-new flags of the metadata. */
  datatype Flag = StatusFlag | FunderFlag | OwnerFlag

  function IsSet(m: Metadata, flag: Flag): bool {
    match flag
    case StatusFlag => m.wasStatusNew
    case FunderFlag => m.wasFunderNew
    case OwnerFlag => m.wasOwnerNew
  }

  /** How many records carry a set flag: the batch counters tally these. */
  function FlagCount(es: seq<EntityRecord>, flag: Flag): nat {
    if es == [] then 0
    else FlagCount(es[..|es| - 1], flag) + (if IsSet(es[|es| - 1].metadata, flag) then 1 else 0)
  }

  /** A processed row holds the record: a funder built from the record's
      bernie number and name alone (so its name list is just that name and
      it has no EIN), the same owner, task and metadata. */
  predicate Holds(p: ProcessedRow, e: EntityRecord)
    reads p.funder
  {
    && p.funder.bernieNumber == e.bernieNumber && p.funder.canonicalName == e.canonicalName
    && p.funder.allNames == [e.canonicalName] && p.funder.ein == None
    && p.owner == e.owner && p.task == e.task && p.metadata == e.metadata
  }

  /** The results report the records: one processed row per record, and
      the counters tally the records' flags. */
  predicate Reports(results: BatchResults, es: seq<EntityRecord>) {
    && results.processed == |results.entities| == |es|
    && results.newStatuses == FlagCount(es, StatusFlag)
    && results.newFunders == FlagCount(es, FunderFlag)
    && results.newOwners == FlagCount(es, OwnerFlag)
  }

  /** Every record of a batch passed the funder check. */
  lemma {:induction false} ExpectedFundersPass(s: StoreState, rows: seq<RowData>)
    ensures forall e :: e in ExpectedEntities(s, rows) ==>
      FunderEntity.FunderCheck(e.bernieNumber, e.canonicalName, None).None?
  {
    if rows != [] {
      var init := rows[..|rows| - 1];
      ExpectedFundersPass(s, init);
      var added := RowEntity(StoreAfter(s, init), rows[|rows| - 1]);
      assert forall e :: e in ExpectedEntities(s, rows) ==> e in ExpectedEntities(s, init) || e in added;
    }
  }

  /** A processed row holding a record that passed the funder check carries
      a valid funder. */
  lemma ReportedFundersValid(entities: seq<ProcessedRow>, es: seq<EntityRecord>)
    requires |entities| == |es| && forall k :: 0 <= k < |es| ==> Holds(entities[k], es[k])
    requires forall e :: e in es ==> FunderEntity.FunderCheck(e.bernieNumber, e.canonicalName, None).None?
    ensures forall k :: 0 <= k < |entities| ==> entities[k].funder.Valid()
  {
    forall k | 0 <= k < |entities|
      ensures entities[k].funder.Valid()
    {
      assert es[k] in es;
    }
  }

  /** The `except` clause: the error is logged with the element's tag. */
  function Logged(results: BatchResults, e: RowData, error: RowError): BatchResults {
    results.(errors := results.errors + [BatchError(ElementTag(e), error)])
  }

  /** The `else` path: the processed row is appended and its flags
      counted. */
  function Appended(results: BatchResults, p: ProcessedRow): BatchResults {
    results.(entities := results.entities + [p],
             newStatuses := results.newStatuses + (if p.metadata.wasStatusNew then 1 else 0),
             newFunders := results.newFunders + (if p.metadata.wasFunderNew then 1 else 0),
             newOwners := results.newOwners + (if p.metadata.wasOwnerNew then 1 else 0),
             processed := results.processed + 1)
  }

  /** A failing element is logged and adds no record, so the report of the
      longer prefix is the report of the shorter one. */
  lemma StepFailed(s: StoreState, rows: seq<RowData>, i: nat, results: BatchResults)
    requires i < |rows| && ElementFailure(rows[i]).Some?
    requires results.errors == ErrorLog(rows[..i]) && Reports(results, ExpectedEntities(s, rows[..i]))
    ensures var next := Logged(results, rows[i], ElementFailure(rows[i]).value);
      && next.errors == ErrorLog(rows[..i + 1])
      && next.entities == results.entities
      && ExpectedEntities(s, rows[..i + 1]) == ExpectedEntities(s, rows[..i])
      && Reports(next, ExpectedEntities(s, rows[..i + 1]))
    ensures StoreAfter(s, rows[..i + 1]) == StepStore(StoreAfter(s, rows[..i]), rows[i])
  {
    PrefixStep(s, rows, i);
    assert ExpectedEntities(s, rows[..i]) + [] == ExpectedEntities(s, rows[..i]);
  }

  /** A passing element adds its one record; a processed row holding that
      record, appended, keeps the report and keeps every row holding its
      record. */
  lemma StepSucceeded(s: StoreState, rows: seq<RowData>, i: nat, results: BatchResults, p: ProcessedRow)
    requires i < |rows| && ElementFailure(rows[i]).None?
    requires results.errors == ErrorLog(rows[..i])
    requires var es := ExpectedEntities(s, rows[..i]);
      && Reports(results, es)
      && forall k :: 0 <= k < |es| ==> Holds(results.entities[k], es[k])
    requires Holds(p, RowEntity(StoreAfter(s, rows[..i]), rows[i])[0])
    ensures var next, es := Appended(results, p), ExpectedEntities(s, rows[..i + 1]);
      && next.errors == ErrorLog(rows[..i + 1])
      && Reports(next, es)
      && forall k :: 0 <= k < |es| ==> Holds(next.entities[k], es[k])
    ensures StoreAfter(s, rows[..i + 1]) == StepStore(StoreAfter(s, rows[..i]), rows[i])
  {
    PrefixStep(s, rows, i);
    var es, added := ExpectedEntities(s, rows[..i]), RowEntity(StoreAfter(s, rows[..i]), rows[i]);
    assert added == [added[0]];
    ReportsAppend(results, es, p, added[0]);
    HoldsAppend(results.entities, es, p, added[0]);
  }

  /** Appending a processed row with the next record's metadata keeps the
      report. */
  lemma ReportsAppend(results: BatchResults, es: seq<EntityRecord>, p: ProcessedRow, e: EntityRecord)
    requires Reports(results, es) && p.metadata == e.metadata
    ensures Reports(Appended(results, p), es + [e])
  {
    FlagCountSnoc(es, [e], StatusFlag);
    FlagCountSnoc(es, [e], FunderFlag);
    FlagCountSnoc(es, [e], OwnerFlag);
  }

  /** Appending a processed row that holds the next record keeps every
      row holding its record. */
  lemma HoldsAppend(entities: seq<ProcessedRow>, es: seq<EntityRecord>, p: ProcessedRow, e: EntityRecord)
    requires |entities| == |es| && forall k :: 0 <= k < |es| ==> Holds(entities[k], es[k])
    requires Holds(p, e)
    ensures forall k :: 0 <= k < |es + [e]| ==> Holds((entities + [p])[k], (es + [e])[k])
  {
  }

  /** One entity per processed row. */
  lemma {:induction false} ExpectedEntitiesCount(s: StoreState, rows: seq<RowData>)
    ensures |ExpectedEntities(s, rows)| == SucceededCount(rows)
  {
    if rows != [] {
      ExpectedEntitiesCount(s, rows[..|rows| - 1]);
    }
  }

  /** The status flag is never set and the funder flag always is, so the
      batch counts no new status and one new funder per entity. */
  lemma {:induction false} FlagTallies(s: StoreState, rows: seq<RowData>)
    ensures var es := ExpectedEntities(s, rows);
      && FlagCount(es, StatusFlag) == 0
      && FlagCount(es, FunderFlag) == |es|
      && FlagCount(es, OwnerFlag) <= |es|
  {
    if rows != [] {
      var init := rows[..|rows| - 1];
      var es, added := ExpectedEntities(s, init), RowEntity(StoreAfter(s, init), rows[|rows| - 1]);
      FlagTallies(s, init);
      FlagCountSnoc(es, added, StatusFlag);
      FlagCountSnoc(es, added, FunderFlag);
      FlagCountSnoc(es, added, OwnerFlag);
    }
  }

  /** Appending at most one record adds its flag, if set. */
  lemma FlagCountSnoc(es: seq<EntityRecord>, more: seq<EntityRecord>, flag: Flag)
    requires |more| <= 1
    ensures FlagCount(es + more, flag) == FlagCount(es, flag) + FlagCount(more, flag)
  {
    if more == [] {
      assert es + more == es;
    } else {
      assert (es + more)[..|es|] == es;
      assert more[..0] == [];
    }
  }

  /** A batch of well-formed rows that all pass validation reports no
      errors; every malformed element is reported as "unknown". */
  lemma {:induction false} ErrorLogTags(rows: seq<RowData>)
    ensures (forall i :: 0 <= i < |rows| ==> ElementFailure(rows[i]).None?) ==> ErrorLog(rows) == []
    ensures forall e :: e in ErrorLog(rows) && e.error == Unpack ==> e.row == "unknown"
  {
    if rows != [] {
      var init, last := rows[..|rows| - 1], rows[|rows| - 1];
      ErrorLogTags(init);
      assert forall i :: 0 <= i < |init| ==> init[i] == rows[i];
      assert ErrorLog(rows) == ErrorLog(init)
        + (if ElementFailure(last).Some? then [BatchError(ElementTag(last), ElementFailure(last).value)] else []);
    }
  }

  /** A batch of three rows whose middle one has a negative requested
      amount: two rows are processed, in order, and the one error names the
      middle row's task. */
  lemma MiddleRowRejected(s: StoreState, a: Decomposer.Decomposed, b: Decomposer.Decomposed,
                          c: Decomposer.Decomposed)
    requires RowFailure(a.bernieNumber, a.canonicalName, a.ownerName, a.blueprint).None?
    requires RowFailure(c.bernieNumber, c.canonicalName, c.ownerName, c.blueprint).None?
    requires FunderEntity.FunderCheck(b.bernieNumber, b.canonicalName, None).None?
    requires IsPresent(b.ownerName) ==> DevTeam.Create(DevTeam.DevTeamMember(b.ownerName.value)).Success?
    requires b.blueprint.Proposal? && b.blueprint.proposal.amountRequested.IsNegative()
    ensures var rows := [Full(a), Full(b), Full(c)];
      && SucceededCount(rows) == 2
      && ErrorLog(rows) == [BatchError(b.blueprint.Core().taskId,
                                       TaskRejected(NegativeAmount(b.blueprint.proposal.amountRequested)))]
    ensures var es := ExpectedEntities(s, [Full(a), Full(b), Full(c)]);
      && |es| == 2
      && es[0].bernieNumber == a.bernieNumber && es[0].task.TaskId() == a.blueprint.Core().taskId
      && es[1].bernieNumber == c.bernieNumber && es[1].task.TaskId() == c.blueprint.Core().taskId
  {
    NegativeProposalRejected(b);
    MiddleRowLogged(a, b, c);
    MiddleRowRecords(s, a, b, c);
  }

  /** The error log of that batch. */
  lemma MiddleRowLogged(a: Decomposer.Decomposed, b: Decomposer.Decomposed, c: Decomposer.Decomposed)
    requires ElementFailure(Full(a)).None? && ElementFailure(Full(c)).None? && ElementFailure(Full(b)).Some?
    ensures ErrorLog([Full(a), Full(b), Full(c)]) == [BatchError(ElementTag(Full(b)), ElementFailure(Full(b)).value)]
  {
    var rows, two, one := [Full(a), Full(b), Full(c)], [Full(a), Full(b)], [Full(a)];
    assert rows[..2] == two && two[..1] == one && one[..0] == [];
    assert ErrorLog(one) == [];
    assert ErrorLog(two) == [BatchError(ElementTag(Full(b)), ElementFailure(Full(b)).value)];
  }

  /** The records of that batch: the first and the last row's. */
  lemma MiddleRowRecords(s: StoreState, a: Decomposer.Decomposed, b: Decomposer.Decomposed, c: Decomposer.Decomposed)
    requires RowFailure(a.bernieNumber, a.canonicalName, a.ownerName, a.blueprint).None?
    requires RowFailure(c.bernieNumber, c.canonicalName, c.ownerName, c.blueprint).None?
    requires ElementFailure(Full(b)).Some?
    ensures var es := ExpectedEntities(s, [Full(a), Full(b), Full(c)]);
      && |es| == 2
      && es[0].bernieNumber == a.bernieNumber && es[0].task.TaskId() == a.blueprint.Core().taskId
      && es[1].bernieNumber == c.bernieNumber && es[1].task.TaskId() == c.blueprint.Core().taskId
  {
    var rows, two := [Full(a), Full(b), Full(c)], [Full(a), Full(b)];
    assert rows[..2] == two;
    FirstRowRecord(s, a, b);
    PassingRecord(StoreAfter(s, two), c);
    assert ExpectedEntities(s, rows) == ExpectedEntities(s, two) + RowEntity(StoreAfter(s, two), Full(c));
  }

  /** The records of its first two rows: the first row's alone. */
  lemma FirstRowRecord(s: StoreState, a: Decomposer.Decomposed, b: Decomposer.Decomposed)
    requires RowFailure(a.bernieNumber, a.canonicalName, a.ownerName, a.blueprint).None?
    requires ElementFailure(Full(b)).Some?
    ensures var es := ExpectedEntities(s, [Full(a), Full(b)]);
      && |es| == 1
      && es[0].bernieNumber == a.bernieNumber && es[0].task.TaskId() == a.blueprint.Core().taskId
  {
    var two, one := [Full(a), Full(b)], [Full(a)];
    assert two[..1] == one && one[..0] == [];
    PassingRecord(StoreAfter(s, []), a);
    assert RowEntity(StoreAfter(s, one), Full(b)) == [];
    assert ExpectedEntities(s, one) == RowEntity(StoreAfter(s, []), Full(a));
  }

  /** A row whose funder and owner pass and whose proposal asks for a
      negative amount fails at the task constructor. */
  lemma NegativeProposalRejected(d: Decomposer.Decomposed)
    requires FunderEntity.FunderCheck(d.bernieNumber, d.canonicalName, None).None?
    requires IsPresent(d.ownerName) ==> DevTeam.Create(DevTeam.DevTeamMember(d.ownerName.value)).Success?
    requires d.blueprint.Proposal? && d.blueprint.proposal.amountRequested.IsNegative()
    ensures ElementFailure(Full(d)) == Some(TaskRejected(NegativeAmount(d.blueprint.proposal.amountRequested)))
  {
  }

  /** A row that passes every check leaves one record, with the row's bernie
      number and task id, whatever the store. */
  lemma PassingRecord(st: StoreState, d: Decomposer.Decomposed)
    requires RowFailure(d.bernieNumber, d.canonicalName, d.ownerName, d.blueprint).None?
    ensures var r := RowEntity(st, Full(d));
      |r| == 1 && r[0].bernieNumber == d.bernieNumber && r[0].task.TaskId() == d.blueprint.Core().taskId
  {
  }

  /** One more row: how the error log, the success count and the store
      extend from a prefix to the next one. */
  lemma PrefixStep(s: StoreState, rows: seq<RowData>, i: nat)
    requires i < |rows|
    ensures var e := rows[i];
      ErrorLog(rows[..i + 1]) == ErrorLog(rows[..i])
        + (if ElementFailure(e).Some? then [BatchError(ElementTag(e), ElementFailure(e).value)] else [])
    ensures StoreAfter(s, rows[..i + 1]) == StepStore(StoreAfter(s, rows[..i]), rows[i])
    ensures ExpectedEntities(s, rows[..i + 1]) == ExpectedEntities(s, rows[..i]) + RowEntity(StoreAfter(s, rows[..i]), rows[i])
  {
    assert rows[..i + 1][..i] == rows[..i];
    assert rows[..i + 1][i] == rows[i];
  }

  class BatchOrchestrator {
    const orchestrator: TaskOrchestrator

    constructor (store: ReferenceStore)
      ensures orchestrator.store == store
    {
      orchestrator := new TaskOrchestrator(store);
    }

    /** The body of the loop's `try`: unpack the tuple, then process the
        row; the error is what the `except` clause catches. */
    method ProcessElement(element: RowData) returns (r: Result<ProcessedRow, RowError>)
      modifies orchestrator.store
      ensures orchestrator.store.State() == StepStore(old(orchestrator.store.State()), element)
      ensures r.Failure? <==> ElementFailure(element).Some?
      ensures r.Failure? ==> r.error == ElementFailure(element).value
      ensures r.Success? ==> var added := RowEntity(old(orchestrator.store.State()), element);
        && fresh(r.value.funder) && |added| == 1 && Holds(r.value, added[0])
    {
      match element {
        case Malformed =>
          return Failure(Unpack);
        case Full(d) =>
          r := orchestrator.ProcessDecomposedRow(d.bernieNumber, d.canonicalName, d.ownerName,
                                                 d.rawStatus, d.blueprint);
      }
    }

    /** One pass of `process_batch`'s loop: the `try` body, then the
        `except` clause logging the error or the `else` path recording the
        entity. It carries the report of the elements before `i` over to
        element `i`. */
    method ProcessStep(results: BatchResults, ghost s: StoreState, rows: seq<RowData>, i: nat) returns (next: BatchResults)
      requires i < |rows| && orchestrator.store.State() == StoreAfter(s, rows[..i])
      requires results.errors == ErrorLog(rows[..i])
      requires var expected := ExpectedEntities(s, rows[..i]);
        && Reports(results, expected)
        && forall k :: 0 <= k < |expected| ==> Holds(results.entities[k], expected[k])
      modifies orchestrator.store
      ensures orchestrator.store.State() == StoreAfter(s, rows[..i + 1])
      ensures next.errors == ErrorLog(rows[..i + 1])
      ensures var expected := ExpectedEntities(s, rows[..i + 1]);
        && Reports(next, expected)
        && forall k :: 0 <= k < |expected| ==> Holds(next.entities[k], expected[k])
    {
      var element := rows[i];
      ghost var es := ExpectedEntities(s, rows[..i]);
      var outcome := ProcessElement(element);
      assert forall k :: 0 <= k < |es| ==> Holds(results.entities[k], es[k]);
      match outcome {
        case Failure(e) =>
          StepFailed(s, rows, i, results);
          next := Logged(results, element, e);
        case Success(p) =>
          StepSucceeded(s, rows, i, results, p);
          next := Appended(results, p);
      }
    }

    /** `process_batch`: each row's failure is caught and logged, and the
        loop goes on with the next row. The entities are the records of the
        rows that pass, in order, and the counters tally their flags. */
    method ProcessBatch(rows: seq<RowData>) returns (results: BatchResults)
      modifies orchestrator.store
      ensures results.processed + |results.errors| == |rows|
      ensures results.processed == SucceededCount(rows)
      ensures results.errors == ErrorLog(rows)
      ensures var expected := ExpectedEntities(old(orchestrator.store.State()), rows);
        && Reports(results, expected)
        && forall k :: 0 <= k < |expected| ==> Holds(results.entities[k], expected[k])
      ensures forall k :: 0 <= k < |results.entities| ==> results.entities[k].funder.Valid()
      ensures results.newStatuses == 0 && results.newFunders == results.processed
      ensures results.newOwners <= results.processed
      ensures orchestrator.store.State() == StoreAfter(old(orchestrator.store.State()), rows)
    {
      var store := orchestrator.store;
      results := BatchResults(0, [], 0, 0, 0, []);
      var i := 0;
      while i < |rows|
        invariant 0 <= i <= |rows|
        invariant store.State() == StoreAfter(old(store.State()), rows[..i])
        invariant results.errors == ErrorLog(rows[..i])
        invariant var expected := ExpectedEntities(old(store.State()), rows[..i]);
          && Reports(results, expected)
          && forall k :: 0 <= k < |expected| ==> Holds(results.entities[k], expected[k])
      {
        results := ProcessStep(results, old(store.State()), rows, i);
        i := i + 1;
      }
      assert rows[..|rows|] == rows;
      ExpectedEntitiesCount(old(store.State()), rows);
      FlagTallies(old(store.State()), rows);
      ExpectedFundersPass(old(store.State()), rows);
      ReportedFundersValid(results.entities, ExpectedEntities(old(store.State()), rows));
    }
  }
}
