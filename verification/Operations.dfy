/** The task store one call at a time: what each call does to the committed rows and what it answers. */
module Operations {
  import opened Text
  import opened Errors
  import opened Auth
  import opened Tasks
  import opened Ordering
  import opened Listing
  import opened Pagination

  /** A call with the database clock, in microseconds, that its write reads. */
  datatype Op =
    | Create(identity: Option<Identity>, task: Option<Task>, now: int)
    | Update(identity: Option<Identity>, request: Option<UpdateRequest>, now: int)
    | Get(identity: Option<Identity>, taskId: Str)
    | List(identity: Option<Identity>, listRequest: Option<ListRequest>)

  datatype Reply = Version(version: int) | Stored(stored: StoredTask) | Listed(response: ListResponse)
      | Failed(error: Error)

  // ---------- the calls ----------

  /** What Create and Update check before they reach the database. */
  function Writable(identity: Option<Identity>, task: Option<Task>): Result<Owner, Error> {
    if task.None? || task.value.id == [] then Err(InvalidParams) else VerifiedOwner(identity)
  }

  function NewRow(owner: Owner, task: Task, now: int): Row {
    Row(owner, task.contextId, task.state, ColumnTime(task.statusTimestamp), task, 1, now)
  }

  function NextRow(row: Row, task: Task, now: int): Row {
    row.(contextId := task.contextId, state := task.state, statusTimestamp := ColumnTime(task.statusTimestamp),
         task := task, version := row.version + 1, updatedAt := now)
  }

  predicate Owns(rows: Table, owner: Owner, id: Str) {
    id in rows && rows[id].owner == owner
  }

  function ApplyCreate(rows: Table, identity: Option<Identity>, task: Option<Task>, now: int): (Table, Reply) {
    match Writable(identity, task)
    case Err(error) => (rows, Failed(error))
    case Ok(owner) =>
      if task.value.id in rows then (rows, Failed(TaskAlreadyExists))
      else (rows[task.value.id := NewRow(owner, task.value, now)], Version(1))
  }

  /** Whether the stored version lets an update through; the last bigint cannot be incremented. */
  function Conflict(stored: int, prevVersion: int): Option<Error> {
    if prevVersion != MISSING_VERSION && prevVersion != stored then Some(ConcurrentModification)
    else if stored >= MAX_VERSION then Some(DatabaseError)
    else None
  }

  function RequestTask(request: Option<UpdateRequest>): Option<Task> {
    if request.None? then None else request.value.task
  }

  function ApplyUpdate(rows: Table, identity: Option<Identity>, request: Option<UpdateRequest>, now: int): (Table,
          Reply) {
    match Writable(identity, RequestTask(request))
    case Err(error) => (rows, Failed(error))
    case Ok(owner) =>
      var task := request.value.task.value;
      if !Owns(rows, owner, task.id) then (rows, Failed(TaskNotFound))
      else
        var row := rows[task.id];
        match Conflict(row.version, request.value.prevVersion)
        case Some(error) => (rows, Failed(error))
        case None => (rows[task.id := NextRow(row, task, now)], Version(row.version + 1))
  }

  function GetTask(rows: Table, identity: Option<Identity>, taskId: Str): Result<StoredTask, Error> {
    if taskId == [] then Err(TaskNotFound)
    else
      var owner :- VerifiedOwner(identity);
      if Owns(rows, owner, taskId) then
        Ok(StoredTask(rows[taskId].task, rows[taskId].version, OwnerKey(OwnerIdentity(owner))))
      else Err(TaskNotFound)
  }

  function Apply(rank: Collation, rows: Table, op: Op): (Table, Reply) {
    match op
    case Create(identity, task, now) => ApplyCreate(rows, identity, task, now)
    case Update(identity, request, now) => ApplyUpdate(rows, identity, request, now)
    case Get(identity, taskId) =>
      (rows, match GetTask(rows, identity, taskId) case Ok(stored) => Stored(stored) case Err(error) => Failed(error))
    case List(identity, request) =>
      (rows, match ListTasks(rank, rows, identity, request)
             case Ok(response) => Listed(response)
             case Err(error) => Failed(error))
  }

  // ---------- what every call keeps ----------

  /** An update that goes through reads a clock no earlier than the row's last write. */
  predicate ClockHolds(rows: Table, op: Op) {
    op.Update? && ApplyUpdate(rows, op.identity, op.request, op.now).1.Version? ==>
      var id := RequestTask(op.request).value.id;
      op.now >= rows[id].updatedAt
  }

  /** What writes may do to a table: rows stay, keep their owner, and change only under a higher version. */
  ghost predicate Evolved(before: Table, after: Table) {
    forall id | id in before ::
      && id in after
      && after[id].owner == before[id].owner
      && after[id].updatedAt >= before[id].updatedAt
      && after[id].version >= before[id].version
      && (after[id].version == before[id].version ==> after[id] == before[id])
  }

  lemma ApplyKeepsConsistent(rank: Collation, rows: Table, op: Op)
    requires Consistent(rows)
    ensures Consistent(Apply(rank, rows, op).0)
  {
    hide ListTasks, VerifiedOwner, OwnerKey;
  }

  /**
   Rows never vanish, change owner, or change without a new version; with a steady clock they never
   move back in time.
   */
  lemma ApplyEvolves(rank: Collation, rows: Table, op: Op)
    requires ClockHolds(rows, op)
    ensures Evolved(rows, Apply(rank, rows, op).0)
  {
    hide ListTasks, VerifiedOwner, OwnerKey;
  }

  /** Reads and refused writes change nothing. */
  lemma FailureChangesNothing(rank: Collation, rows: Table, op: Op)
    ensures !Apply(rank, rows, op).1.Version? ==> Apply(rank, rows, op).0 == rows
  {
    hide ListTasks, VerifiedOwner, OwnerKey, GetTask;
  }

  lemma OwnersKey(identity: Option<Identity>)
    requires VerifiedOwner(identity).Ok?
    ensures identity.Some? && OwnerKey(OwnerIdentity(VerifiedOwner(identity).value)) == OwnerKey(identity.value)
  {
  }

  /**
   Whoever wrote a task gets it back with the version the write returned and its own owner key, and
   nobody else gets it.
   */
  lemma GetReturnsWritten(rank: Collation, rows: Table, op: Op, identity: Option<Identity>)
    requires Apply(rank, rows, op).1.Version?
    ensures VerifiedOwner(op.identity).Ok? && (op.Create? || op.Update?)
    ensures
      var (rows', reply) := Apply(rank, rows, op);
      var task := if op.Create? then op.task else RequestTask(op.request);
      task.Some? &&
      var got := GetTask(rows', identity, task.value.id);
      if VerifiedOwner(identity) == VerifiedOwner(op.identity)
      then got.Ok? && got.value == StoredTask(task.value, reply.version, OwnerKey(identity.value))
      else got.Err?
  {
    hide ListTasks, VerifiedOwner, OwnerKey, OwnerIdentity;
    if VerifiedOwner(identity).Ok? {
      OwnersKey(identity);
    }
  }

  /** A filter asked of List selects the ids whose task Get returns and the same filter wants. */
  lemma ListAgreesWithGet(rows: Table, identity: Identity, request: ListRequest, id: Str)
    requires Consistent(rows) && VerifiedOwner(Some(identity)).Ok?
    ensures id in Selected(rows, OwnerOf(identity), request)
       <==> (&& GetTask(rows, Some(identity), id).Ok?
             && Wanted(GetTask(rows, Some(identity), id).value.task, request, Micros))
  {
    hide OwnerKey;
    IdentityOwner(identity);
    FilterAgreesWithTasks(rows, OwnerOf(identity), request, id);
  }

  /**
   To the nanosecond, List's filter selects what Get and the same filter would, on every consistent
   table, exactly when the request asks for a whole microsecond.
   */
  lemma ListAgreesExactly(identity: Identity, request: ListRequest)
    requires VerifiedOwner(Some(identity)).Ok?
    ensures (forall rows, id | Consistent(rows) ::
               id in Selected(rows, OwnerOf(identity), request)
               <==> (&& GetTask(rows, Some(identity), id).Ok?
                     && Wanted(GetTask(rows, Some(identity), id).value.task, request, t => t)))
       <==> WholeMicros(request)
  {
    hide VerifiedOwner, OwnerKey, Wanted, WholeMicros, Matches, GetTask;
    if WholeMicros(request) {
      forall rows, id | Consistent(rows)
        ensures id in Selected(rows, OwnerOf(identity), request)
           <==> (&& GetTask(rows, Some(identity), id).Ok?
                 && Wanted(GetTask(rows, Some(identity), id).value.task, request, t => t))
      {
        ListAgreesWithGet(rows, identity, request, id);
        if GetTask(rows, Some(identity), id).Ok? {
          FilterExactTimes(GetTask(rows, Some(identity), id).value.task, request);
        }
      }
    } else {
      SlippedRow(identity, request, ['t']);
    }
  }

  /** A table of one such task: List selects it, and Get returns a task that is too early. */
  lemma SlippedRow(identity: Identity, request: ListRequest, id: Str)
    requires VerifiedOwner(Some(identity)).Ok? && id != [] && !WholeMicros(request)
    ensures
      var rows := map[id := NewRow(OwnerOf(identity), JustBefore(id, request), 0)];
      && Consistent(rows) && id in Selected(rows, OwnerOf(identity), request)
      && GetTask(rows, Some(identity), id).Ok?
      && !Wanted(GetTask(rows, Some(identity), id).value.task, request, t => t)
  {
    hide OwnerKey, VerifiedOwner;
    IdentityOwner(identity);
    JustBeforeSlips(id, request);
  }
}
