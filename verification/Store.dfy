/** The task store as the program writes it: statements against a table, one call after another. */
module Store {
  import opened Text
  import opened Errors
  import opened Auth
  import opened Tasks
  import opened Ordering
  import opened Listing
  import opened Operations
  import Cursor

  // ---------- query text ----------

  /** A query argument; times travel in nanoseconds and are compared as timestamptz. */
  datatype Arg = TextArg(text: Str) | TimeArg(time: int) | CountArg(count: nat)

  datatype Column = TenantId | OwnerIssuer | OwnerSubject | ContextId | State

  /** A condition names its arguments by position, counted from 1. */
  datatype Condition =
    | Equals(column: Column, arg: nat)
    | StatusNullOrFrom(arg: nat)
    | KeyBefore(timeArg: nat, idArg: nat)

  function ColumnOf(row: Row, column: Column): Str {
    match column
    case TenantId => row.owner.tenant
    case OwnerIssuer => row.owner.issuer
    case OwnerSubject => row.owner.subject
    case ContextId => row.contextId
    case State => row.state
  }

  predicate Given(args: seq<Arg>, n: nat) {
    1 <= n <= |args|
  }

  predicate Holds(rank: Collation, c: Condition, args: seq<Arg>, id: Str, row: Row) {
    match c
    case Equals(column, n) => Given(args, n) && args[n - 1] == TextArg(ColumnOf(row, column))
    case StatusNullOrFrom(n) =>
      Given(args, n) && args[n - 1].TimeArg?
      && (row.statusTimestamp.Some? ==> row.statusTimestamp.value >= Micros(args[n - 1].time))
    case KeyBefore(t, i) =>
      Given(args, t) && args[t - 1].TimeArg? && Given(args, i) && args[i - 1].TextArg?
      && Newer(rank, Key(Micros(args[t - 1].time), args[i - 1].text), Key(row.updatedAt, id))
  }

  predicate AllHold(rank: Collation, where: seq<Condition>, args: seq<Arg>, id: Str, row: Row) {
    forall i | 0 <= i < |where| :: Holds(rank, where[i], args, id, row)
  }

  predicate Closed(c: Condition, args: seq<Arg>) {
    match c
    case Equals(_, n) => Given(args, n)
    case StatusNullOrFrom(n) => Given(args, n)
    case KeyBefore(t, i) => Given(args, t) && Given(args, i)
  }

  /** Appended arguments do not disturb the conditions on the ones before. */
  lemma MoreArgs(rank: Collation, where: seq<Condition>, args: seq<Arg>, more: seq<Arg>, id: Str, row: Row)
    requires forall i | 0 <= i < |where| :: Closed(where[i], args)
    ensures AllHold(rank, where, args + more, id, row) <==> AllHold(rank, where, args, id, row)
  {
    forall i | 0 <= i < |where|
      ensures Holds(rank, where[i], args + more, id, row) == Holds(rank, where[i], args, id, row)
    {
      assert Closed(where[i], args);
    }
  }

  lemma OneMoreCondition(rank: Collation, where: seq<Condition>, args: seq<Arg>, c: Condition, id: Str, row: Row)
    ensures AllHold(rank, where + [c], args, id, row)
       <==> AllHold(rank, where, args, id, row) && Holds(rank, c, args, id, row)
  {
    hide Holds;
    var both := where + [c];
    assert both[|where|] == c && forall i | 0 <= i < |where| :: both[i] == where[i];
  }

  /** Appending an argument and a condition on it narrows a query by that condition alone. */
  lemma AppendCondition(rank: Collation, where: seq<Condition>, args: seq<Arg>, arg: Arg, c: Condition, id: Str,
          row: Row)
    requires forall i | 0 <= i < |where| :: Closed(where[i], args)
    ensures AllHold(rank, where + [c], args + [arg], id, row)
       <==> AllHold(rank, where, args, id, row) && Holds(rank, c, args + [arg], id, row)
  {
    MoreArgs(rank, where, args, [arg], id, row);
    OneMoreCondition(rank, where, args + [arg], c, id, row);
  }

  lemma StillClosed(where: seq<Condition>, args: seq<Arg>, arg: Arg, c: Condition)
    requires forall i | 0 <= i < |where| :: Closed(where[i], args)
    requires Closed(c, args + [arg])
    ensures forall i | 0 <= i < |where + [c]| :: Closed((where + [c])[i], args + [arg])
  {
    forall i | 0 <= i < |where|
      ensures Closed(where[i], args + [arg])
    {
      assert Closed(where[i], args);
    }
  }

  lemma OwnerConditions(rank: Collation, owner: Owner, request: ListRequest, where: seq<Condition>, args: seq<Arg>)
    requires where == [Equals(TenantId, 1), Equals(OwnerIssuer, 2), Equals(OwnerSubject, 3)]
    requires args == [TextArg(owner.tenant), TextArg(owner.issuer), TextArg(owner.subject)]
    requires request.contextId == [] && request.status == [] && request.statusTimestampAfter == None
    ensures Selects(rank, where, args, owner, request)
  {
    forall id: Str, row: Row
      ensures AllHold(rank, where, args, id, row) <==> Matches(row, owner, request)
    {
      assert Holds(rank, where[0], args, id, row) <==> row.owner.tenant == owner.tenant;
      assert Holds(rank, where[1], args, id, row) <==> row.owner.issuer == owner.issuer;
      assert Holds(rank, where[2], args, id, row) <==> row.owner.subject == owner.subject;
    }
  }

  /** The conditions refer only to arguments that are there, and hold of exactly the rows that a request asks for. */
  ghost predicate Selects(rank: Collation, where: seq<Condition>, args: seq<Arg>, owner: Owner, request: ListRequest) {
    && (forall i | 0 <= i < |where| :: Closed(where[i], args))
    && (forall id: Str, row: Row :: AllHold(rank, where, args, id, row) <==> Matches(row, owner, request))
  }

  ghost predicate Adds(rank: Collation, args: seq<Arg>, c: Condition, owner: Owner, request: ListRequest,
          more: ListRequest) {
    forall id: Str, row: Row ::
      if Holds(rank, c, args, id, row) then Matches(row, owner, more) == Matches(row, owner, request)
      else !Matches(row, owner, more)
  }

  /** A further condition selects for a request that asks for that much more. */
  lemma Narrows(rank: Collation, where: seq<Condition>, args: seq<Arg>, arg: Arg, c: Condition, owner: Owner,
          request: ListRequest, more: ListRequest)
    requires Selects(rank, where, args, owner, request)
    requires Closed(c, args + [arg])
    requires Adds(rank, args + [arg], c, owner, request, more)
    ensures Selects(rank, where + [c], args + [arg], owner, more)
  {
    hide Holds, Matches, AllHold, Closed;
    StillClosed(where, args, arg, c);
    forall id: Str, row: Row
      ensures AllHold(rank, where + [c], args + [arg], id, row) <==> Matches(row, owner, more)
    {
      AppendCondition(rank, where, args, arg, c, id, row);
      assert AllHold(rank, where, args, id, row) <==> Matches(row, owner, request);
      if Holds(rank, c, args + [arg], id, row) {
        assert Matches(row, owner, more) == Matches(row, owner, request);
      } else {
        assert !Matches(row, owner, more);
      }
    }
  }

  method ListFilter(rank: Collation, owner: Owner, request: ListRequest) returns (where: seq<Condition>, args: seq<Arg>)
    ensures Selects(rank, where, args, owner, request)
  {
    hide Selects, AllHold;
    where := [Equals(TenantId, 1), Equals(OwnerIssuer, 2), Equals(OwnerSubject, 3)];
    args := [TextArg(owner.tenant), TextArg(owner.issuer), TextArg(owner.subject)];
    ghost var asked := request.(contextId := [], status := [], statusTimestampAfter := None);
    OwnerConditions(rank, owner, asked, where, args);
    if request.contextId != [] {
      assert (args + [TextArg(request.contextId)])[|args|] == TextArg(request.contextId);
      ghost var more := asked.(contextId := request.contextId);
      Narrows(rank, where, args, TextArg(request.contextId), Equals(ContextId, |args| + 1), owner, asked, more);
      args := args + [TextArg(request.contextId)];
      where := where + [Equals(ContextId, |args|)];
    }
    asked := asked.(contextId := request.contextId);
    if request.status != [] {
      assert (args + [TextArg(request.status)])[|args|] == TextArg(request.status);
      ghost var more := asked.(status := request.status);
      Narrows(rank, where, args, TextArg(request.status), Equals(State, |args| + 1), owner, asked, more);
      args := args + [TextArg(request.status)];
      where := where + [Equals(State, |args|)];
    }
    asked := asked.(status := request.status);
    if request.statusTimestampAfter.Some? {
      assert (args + [TimeArg(request.statusTimestampAfter.value)])[|args|]
          == TimeArg(request.statusTimestampAfter.value);
      ghost var after := TimeArg(request.statusTimestampAfter.value);
      Narrows(rank, where, args, after, StatusNullOrFrom(|args| + 1), owner, asked, request);
      args := args + [TimeArg(request.statusTimestampAfter.value)];
      where := where + [StatusNullOrFrom(|args|)];
    }
  }

  /** shapeListedTask, on the task decoded from the row. */
  method ShapeListedTask(task: Task, request: ListRequest) returns (shaped: Task)
    ensures shaped == Shape(task, request)
  {
    shaped := task;
    var historyLength := DEFAULT_HISTORY_LENGTH;
    if request.historyLength.Some? {
      historyLength := request.historyLength.value;
    }
    if historyLength == 0 {
      shaped := shaped.(history := Some([]));
    } else if historyLength > 0 && shaped.history.Some? && |shaped.history.value| > historyLength {
      shaped := shaped.(history := Some(shaped.history.value[|shaped.history.value| - historyLength..]));
    }
    if !request.includeArtifacts {
      shaped := shaped.(artifacts := None);
    }
  }

  // ---------- the store ----------

  datatype QueryRow = QueryRow(taskId: Str, task: Task, updatedAt: int)

  datatype ListedTask = ListedTask(task: Task, taskId: Str, updatedAt: int)

  function VersionReply(r: Result<int, Error>): Reply {
    match r
    case Ok(version) => Reply.Version(version)
    case Err(error) => Failed(error)
  }

  function StoredReply(r: Result<StoredTask, Error>): Reply {
    match r
    case Ok(stored) => Stored(stored)
    case Err(error) => Failed(error)
  }

  function ListedReply(r: Result<ListResponse, Error>): Reply {
    match r
    case Ok(response) => Listed(response)
    case Err(error) => Failed(error)
  }

  class TaskStore {
    const rank: Collation
    var rows: Table

    constructor (rank: Collation)
      ensures rows == map[] && this.rank == rank
    {
      this.rank := rank;
      rows := map[];
    }

    // --- statements ---

    /** INSERT ... ON CONFLICT (task_id) DO NOTHING RETURNING version. */
    method InsertReturning(id: Str, row: Row) returns (version: Option<int>)
      modifies this
      ensures rows == if id in old(rows) then old(rows) else old(rows)[id := row]
      ensures version == if id in old(rows) then None else Some(row.version)
    {
      if id in rows {
        return None;
      }
      rows := rows[id := row];
      return Some(row.version);
    }

    /** UPDATE ... SET version = version + 1, updated_at = clock_timestamp() ... RETURNING version. */
    method UpdateReturning(id: Str, owner: Owner, task: Task, now: int) returns (version: Option<int>)
      modifies this
      ensures
        var done := Owns(old(rows), owner, id) && old(rows)[id].version < MAX_VERSION;
        && rows == (if done then old(rows)[id := NextRow(old(rows)[id], task, now)] else old(rows))
        && version == (if done then Some(old(rows)[id].version + 1) else None)
    {
      if !Owns(rows, owner, id) || rows[id].version >= MAX_VERSION {
        return None;
      }
      var row := rows[id];
      row := row.(contextId := task.contextId, state := task.state, statusTimestamp := ColumnTime(task.statusTimestamp),
                  task := task, version := row.version + 1, updatedAt := now);
      rows := rows[id := row];
      return Some(row.version);
    }

    function Selection(where: seq<Condition>, args: seq<Arg>): Table
      reads this
    {
      map id | id in rows && AllHold(rank, where, args, id, rows[id]) :: rows[id]
    }

    /** SELECT ... ORDER BY updated_at DESC, task_id DESC LIMIT $n. */
    method Query(where: seq<Condition>, args: seq<Arg>, limit: nat) returns (result: seq<QueryRow>)
      requires Given(args, limit) && args[limit - 1].CountArg?
      ensures
        var ids := Ordered(rank, Selection(where, args));
        && |result| == (if |ids| > args[limit - 1].count then args[limit - 1].count else |ids|)
        && forall i | 0 <= i < |result| ::
             ids[i] in rows && result[i] == QueryRow(ids[i], rows[ids[i]].task, rows[ids[i]].updatedAt)
    {
      hide Ordered, AllHold;
      var ids := Ordered(rank, Selection(where, args));
      result := [];
      while |result| < |ids| && |result| < args[limit - 1].count
        invariant |result| <= |ids| && |result| <= args[limit - 1].count
        invariant forall i | 0 <= i < |result| ::
                    ids[i] in rows && result[i] == QueryRow(ids[i], rows[ids[i]].task, rows[ids[i]].updatedAt)
      {
        var id := ids[|result|];
        assert id in ids;
        result := result + [QueryRow(id, rows[id].task, rows[id].updatedAt)];
      }
    }

    // --- calls ---

    method Create(identity: Option<Identity>, task: Option<Task>, now: int) returns (r: Result<int, Error>)
      modifies this
      ensures (rows, VersionReply(r)) == Apply(rank, old(rows), Op.Create(identity, task, now))
    {
      hide VerifiedOwner;
      if task.None? || task.value.id == [] {
        return Err(InvalidParams);
      }
      var verified := VerifiedOwner(identity);
      if verified.Err? {
        return Err(verified.error);
      }
      var t := task.value;
      var row := Row(verified.value, t.contextId, t.state, ColumnTime(t.statusTimestamp), t, 1, now);
      var version := InsertReturning(t.id, row);
      if version.None? {
        return Err(TaskAlreadyExists);
      }
      return Ok(version.value);
    }

    method Update(identity: Option<Identity>, request: Option<UpdateRequest>, now: int) returns (r: Result<int, Error>)
      modifies this
      ensures (rows, VersionReply(r)) == Apply(rank, old(rows), Op.Update(identity, request, now))
    {
      hide VerifiedOwner;
      if request.None? || request.value.task.None? || request.value.task.value.id == [] {
        return Err(InvalidParams);
      }
      var verified := VerifiedOwner(identity);
      if verified.Err? {
        return Err(verified.error);
      }
      var owner, task := verified.value, request.value.task.value;
      if !Owns(rows, owner, task.id) {
        return Err(TaskNotFound);
      }
      var storedVersion := rows[task.id].version;
      if request.value.prevVersion != MISSING_VERSION && request.value.prevVersion != storedVersion {
        return Err(ConcurrentModification);
      }
      var version := UpdateReturning(task.id, owner, task, now);
      if version.None? {
        return Err(DatabaseError);
      }
      return Ok(version.value);
    }

    method Get(identity: Option<Identity>, taskId: Str) returns (r: Result<StoredTask, Error>)
      ensures StoredReply(r) == Apply(rank, rows, Op.Get(identity, taskId)).1
    {
      if taskId == [] {
        return Err(TaskNotFound);
      }
      var verified := VerifiedOwner(identity);
      if verified.Err? {
        return Err(verified.error);
      }
      if !Owns(rows, verified.value, taskId) {
        return Err(TaskNotFound);
      }
      var row := rows[taskId];
      return Ok(StoredTask(row.task, row.version, OwnerKey(OwnerIdentity(verified.value))));
    }

    method List(identity: Option<Identity>, request: Option<ListRequest>) returns (r: Result<ListResponse, Error>)
      ensures ListedReply(r) == Apply(rank, rows, Op.List(identity, request)).1
    {
      hide VerifiedOwner, Cursor.DecodePageToken, Selected, Page;
      if request.None? {
        return Err(InvalidRequest);
      }
      var verified := VerifiedOwner(identity);
      if verified.Err? {
        return Err(verified.error);
      }
      var pageSize := request.value.pageSize;
      if pageSize == 0 {
        pageSize := DEFAULT_PAGE_SIZE;
      } else if pageSize < 1 || pageSize > MAXIMUM_PAGE_SIZE {
        return Err(InvalidRequest);
      }
      var cursor := (0, []);
      if request.value.pageToken != [] {
        var decoded := Cursor.DecodePageToken(request.value.pageToken);
        if decoded.Err? {
          return Err(decoded.error);
        }
        cursor := decoded.value;
      }
      var response := ReadPage(verified.value, request.value, pageSize, cursor);
      return Ok(response);
    }

    /** The loop over the rows of the page query. */
    method ScanRows(found: seq<QueryRow>, request: ListRequest) returns (listed: seq<ListedTask>)
      ensures |listed| == |found|
      ensures forall k | 0 <= k < |found| ::
                listed[k] == ListedTask(Shape(found[k].task, request), found[k].taskId, found[k].updatedAt)
    {
      hide Shape;
      listed := [];
      for i := 0 to |found|
        invariant |listed| == i
        invariant forall k | 0 <= k < i ::
                    listed[k] == ListedTask(Shape(found[k].task, request), found[k].taskId, found[k].updatedAt)
      {
        var task := ShapeListedTask(found[i].task, request);
        listed := listed + [ListedTask(task, found[i].taskId, found[i].updatedAt)];
      }
    }

    method TasksOf(listed: seq<ListedTask>) returns (tasks: seq<Task>)
      ensures |tasks| == |listed| && forall k | 0 <= k < |listed| :: tasks[k] == listed[k].task
    {
      tasks := [];
      for i := 0 to |listed|
        invariant |tasks| == i
        invariant forall k | 0 <= k < i :: tasks[k] == listed[k].task
      {
        tasks := tasks + [listed[i].task];
      }
    }

    /** The read-only transaction of List: both of its queries see the same rows. */
    method ReadPage(owner: Owner, request: ListRequest, pageSize: nat, cursor: (int,
            Str)) returns (response: ListResponse)
      requires 0 < pageSize
      ensures
        var key := if request.pageToken == [] then None else Some(Key(Micros(cursor.0), cursor.1));
        response == Page(rank, Selected(rows, owner, request), request, pageSize, key)
    {
      hide Cursor.EncodePageToken, Matches, Shape, AllHold, Ordered, Below, Page, Closed, Selects, Selected, Selection;
      var where, args := ListFilter(rank, owner, request);
      ghost var selected := Selected(rows, owner, request);
      SelectionIs(where, args, owner, request);
      var totalSize := |Selection(where, args)|;
      var pageWhere, pageArgs := where, args;
      if request.pageToken != [] {
        pageArgs := pageArgs + [TimeArg(cursor.0), TextArg(cursor.1)];
        pageWhere := pageWhere + [KeyBefore(|pageArgs| - 1, |pageArgs|)];
      }
      pageArgs := pageArgs + [CountArg(pageSize + 1)];
      ghost var key := if request.pageToken == [] then None else Some(Key(Micros(cursor.0), cursor.1));
      assert Selection(pageWhere, pageArgs) == Below(rank, selected, key) by {
        PageSelectionIs(where, args, owner, request, cursor, pageSize + 1);
      }
      var found := Query(pageWhere, pageArgs, |pageArgs|);

      var listed := ScanRows(found, request);
      var hasNextPage := |listed| > pageSize;
      if hasNextPage {
        listed := listed[..pageSize];
      }
      var tasks := TasksOf(listed);
      var nextPageToken: Str := [];
      if hasNextPage {
        var last := listed[|listed| - 1];
        nextPageToken := Cursor.EncodePageToken(last.updatedAt * 1000, last.taskId);
      }
      ListedAreSelected(owner, request, key);
      ListedIsPage(selected, request, pageSize, key, listed, hasNextPage);
      response := ListResponse(tasks, totalSize, pageSize, nextPageToken);
      assert tasks == Page(rank, selected, request, pageSize, key).tasks;
    }

    lemma ListedAreSelected(owner: Owner, request: ListRequest, key: Option<Key>)
      ensures
        var selected := Selected(rows, owner, request);
        var ids := Ordered(rank, Below(rank, selected, key));
        forall i | 0 <= i < |ids| :: ids[i] in selected && ids[i] in rows && selected[ids[i]] == rows[ids[i]]
    {
      hide Matches;
      var ids := Ordered(rank, Below(rank, Selected(rows, owner, request), key));
      assert forall i | 0 <= i < |ids| :: ids[i] in ids;
    }

    /** The kept rows, shaped, are the tasks of the page, and the last of them gives its token. */
    lemma ListedIsPage(selected: Table, request: ListRequest, pageSize: nat, key: Option<Key>,
            listed: seq<ListedTask>, more: bool)
      requires 0 < pageSize
      requires
        var ids := Ordered(rank, Below(rank, selected, key));
        && more == (|ids| > pageSize)
        && |listed| == (if more then pageSize else |ids|)
        && forall i | 0 <= i < |listed| ::
             ids[i] in selected
             && listed[i] == ListedTask(Shape(selected[ids[i]].task, request), ids[i], selected[ids[i]].updatedAt)
      ensures
        var page := Page(rank, selected, request, pageSize, key);
        && page.pageSize == pageSize && page.totalSize == |selected|
        && |page.tasks| == |listed|
        && (forall i | 0 <= i < |listed| :: page.tasks[i] == listed[i].task)
        && page.nextPageToken
           == (if more then Cursor.EncodePageToken(listed[pageSize - 1].updatedAt * 1000, listed[pageSize - 1].taskId)
               else [])
    {
      hide Cursor.EncodePageToken, Shape, Ordered, Below;
    }

    lemma SelectionIs(where: seq<Condition>, args: seq<Arg>, owner: Owner, request: ListRequest)
      requires Selects(rank, where, args, owner, request)
      ensures Selection(where, args) == Selected(rows, owner, request)
    {
      hide AllHold, Matches;
    }

    /** The keyset condition refers to the two arguments before the limit. */
    lemma PageSelectionIs(where: seq<Condition>, args: seq<Arg>, owner: Owner, request: ListRequest, cursor: (int,
            Str), limit: nat)
      requires Selects(rank, where, args, owner, request)
      ensures
        var keyArgs := args + [TimeArg(cursor.0), TextArg(cursor.1)];
        Selection(where + [KeyBefore(|keyArgs| - 1, |keyArgs|)], keyArgs + [CountArg(limit)])
        == Below(rank, Selection(where, args), Some(Key(Micros(cursor.0), cursor.1)))
      ensures Selection(where, args + [CountArg(limit)]) == Below(rank, Selection(where, args), None)
    {
      hide AllHold, Matches, Newer;
      var keyArgs := args + [TimeArg(cursor.0), TextArg(cursor.1)];
      var all, c := keyArgs + [CountArg(limit)], KeyBefore(|keyArgs| - 1, |keyArgs|);
      forall id | id in rows
        ensures AllHold(rank, where + [c], all, id, rows[id])
           <==> AllHold(rank, where, args, id, rows[id]) && Holds(rank, c, all, id, rows[id])
        ensures AllHold(rank, where, args + [CountArg(limit)], id, rows[id])
            <==> AllHold(rank, where, args, id, rows[id])
      {
        MoreArgs(rank, where, args, [TimeArg(cursor.0), TextArg(cursor.1), CountArg(limit)], id, rows[id]);
        MoreArgs(rank, where, args, [CountArg(limit)], id, rows[id]);
        assert args + [TimeArg(cursor.0), TextArg(cursor.1), CountArg(limit)] == all;
        OneMoreCondition(rank, where, all, c, id, rows[id]);
      }
    }
  }
}
