/** Tasks, the rows of the table a2a_tasks, and the requests and replies of the task store. */
module Tasks {
  import opened Text
  import opened Errors
  import opened Auth

  datatype Message = Message(body: Str)
  datatype Artifact = Artifact(body: Str)

  /** A task as its JSON carries it: the status time in nanoseconds, None for a nil slice. */
  datatype Task = Task(id: Str, contextId: Str, state: Str, statusTimestamp: Option<int>,
                       history: Option<seq<Message>>, artifacts: Option<seq<Artifact>>)

  datatype Owner = Owner(issuer: Str, tenant: Str, subject: Str)

  /** One table row, keyed by the task id. Both of its times are in microseconds. */
  datatype Row = Row(owner: Owner, contextId: Str, state: Str, statusTimestamp: Option<int>,
                     task: Task, version: int, updatedAt: int)

  type Table = map<Str, Row>

  const MISSING_VERSION := 0
  const MAX_VERSION := 0x7FFF_FFFF_FFFF_FFFF

  datatype UpdateRequest = UpdateRequest(task: Option<Task>, prevVersion: int)

  datatype StoredTask = StoredTask(task: Task, version: int, user: Str)

  /** An empty context id, status or page token means that it is not given. */
  datatype ListRequest = ListRequest(contextId: Str, status: Str, statusTimestampAfter: Option<int>,
                                     pageSize: int, pageToken: Str,
                                     historyLength: Option<int>, includeArtifacts: bool)

  datatype ListResponse = ListResponse(tasks: seq<Task>, totalSize: nat, pageSize: nat, nextPageToken: Str)

  /** timestamptz keeps whole microseconds. */
  function Micros(nanos: int): int {
    nanos / 1000
  }

  function ColumnTime(t: Option<int>): Option<int> {
    if t.None? then None else Some(Micros(t.value))
  }

  /** The identity a call acts for, if the context carries a complete one. */
  function VerifiedOwner(identity: Option<Identity>): Result<Owner, Error> {
    if identity.None? || TrimSpace(identity.value.issuer) == [] || TrimSpace(identity.value.tenant) == []
       || TrimSpace(identity.value.subject) == []
    then Err(Unauthenticated)
    else Ok(Owner(identity.value.issuer, identity.value.tenant, identity.value.subject))
  }

  function OwnerIdentity(owner: Owner): Identity {
    Identity(owner.issuer, owner.subject, owner.tenant, [])
  }

  /** The indexed columns of a row are the projection of the task it stores. */
  predicate Projects(id: Str, row: Row) {
    && row.task.id == id
    && row.contextId == row.task.contextId
    && row.state == row.task.state
    && row.statusTimestamp == ColumnTime(row.task.statusTimestamp)
    && 1 <= row.version <= MAX_VERSION
  }

  predicate Consistent(rows: Table) {
    forall id | id in rows :: id != [] && Projects(id, rows[id])
  }
}
