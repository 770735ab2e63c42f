/** What List answers: the filter, the shape of a listed task, and one page. */
module Listing {
  import opened Text
  import opened Errors
  import opened Auth
  import opened Tasks
  import opened Ordering
  import Cursor

  const DEFAULT_PAGE_SIZE := 50
  const MAXIMUM_PAGE_SIZE := 100
  const DEFAULT_HISTORY_LENGTH := 100

  // ---------- the filter ----------

  /** The rows that listFilter lets through. */
  predicate Matches(row: Row, owner: Owner, request: ListRequest) {
    && row.owner == owner
    && (request.contextId != [] ==> row.contextId == request.contextId)
    && (request.status != [] ==> row.state == request.status)
    && (request.statusTimestampAfter.Some? && row.statusTimestamp.Some? ==>
          row.statusTimestamp.value >= Micros(request.statusTimestampAfter.value))
  }

  function Selected(rows: Table, owner: Owner, request: ListRequest): Table {
    map id | id in rows && Matches(rows[id], owner, request) :: rows[id]
  }

  /** The same filter asked of a whole task; `precision` rounds both of the times that it compares. */
  predicate Wanted(task: Task, request: ListRequest, precision: int -> int) {
    && (request.contextId != [] ==> task.contextId == request.contextId)
    && (request.status != [] ==> task.state == request.status)
    && (request.statusTimestampAfter.Some? && task.statusTimestamp.Some? ==>
          precision(task.statusTimestamp.value) >= precision(request.statusTimestampAfter.value))
  }

  // ---------- one page ----------

  /** The newest messages only, unless the limit is negative; artifacts only on request. */
  function Shape(task: Task, request: ListRequest): Task {
    var limit := if request.historyLength.Some? then request.historyLength.value else DEFAULT_HISTORY_LENGTH;
    var history :=
      if limit == 0 then Some([])
      else if limit > 0 && task.history.Some? && |task.history.value| > limit then
        Some(task.history.value[|task.history.value| - limit..])
      else task.history;
    task.(history := history, artifacts := if request.includeArtifacts then task.artifacts else None)
  }

  /** `t` is the end of `s`, at most `limit` long and no shorter than it need be. */
  predicate IsLatest<T(==)>(t: seq<T>, s: seq<T>, limit: nat) {
    |t| <= limit && |t| <= |s| && t == s[|s| - |t|..] && (|t| == limit || |t| == |s|)
  }

  /**
   A listed task keeps its newest messages up to the limit, 100 if none is asked for, and all of them
   under a negative limit; it has artifacts only on request, and is otherwise the stored task. A limit
   of 0 gives an empty history even where the task has none.
   */
  lemma ShapeIs(task: Task, request: ListRequest)
    ensures
      var shaped := Shape(task, request);
      var limit := if request.historyLength.Some? then request.historyLength.value else 100;
      && shaped.(history := task.history, artifacts := task.artifacts) == task
      && (limit == 0 ==> shaped.history == Some([]))
      && (limit < 0 ==> shaped.history == task.history)
      && (limit > 0 ==> shaped.history.Some? == task.history.Some?)
      && (limit > 0 && task.history.Some? ==> IsLatest(shaped.history.value, task.history.value, limit))
      && shaped.artifacts == (if request.includeArtifacts then task.artifacts else None)
  {
  }

  function Shaped(rows: Table, ids: seq<Str>, request: ListRequest): (tasks: seq<Task>)
    requires forall i | 0 <= i < |ids| :: ids[i] in rows
    ensures |tasks| == |ids| && forall i | 0 <= i < |ids| :: tasks[i] == Shape(rows[ids[i]].task, request)
  {
    if ids == [] then [] else [Shape(rows[ids[0]].task, request)] + Shaped(rows, ids[1..], request)
  }

  function PageToken(rows: Table, id: Str): Str
    requires id in rows
  {
    Cursor.EncodePageToken(rows[id].updatedAt * 1000, id)
  }

  lemma OrderedAreSelected(rank: Collation, selected: Table, cursor: Option<Key>, id: Str)
    requires id in Ordered(rank, Below(rank, selected, cursor))
    ensures id in selected
  {
    hide Past;
    assert id in Below(rank, selected, cursor);
  }

  function PageIds(rank: Collation, selected: Table, pageSize: nat, cursor: Option<Key>): (ids: seq<Str>)
    ensures forall i | 0 <= i < |ids| :: ids[i] in selected
  {
    var listed := Ordered(rank, Below(rank, selected, cursor));
    assert forall i | 0 <= i < |listed| :: listed[i] in selected by {
      forall i | 0 <= i < |listed|
        ensures listed[i] in selected
      {
        OrderedAreSelected(rank, selected, cursor, listed[i]);
      }
    }
    if |listed| > pageSize then listed[..pageSize] else listed
  }

  function Page(rank: Collation, selected: Table, request: ListRequest, pageSize: nat,
          cursor: Option<Key>): ListResponse
    requires pageSize > 0
  {
    var ids := PageIds(rank, selected, pageSize, cursor);
    var next := if |Below(rank, selected, cursor)| > pageSize then PageToken(selected, ids[pageSize - 1]) else [];
    ListResponse(Shaped(selected, ids, request), |selected|, pageSize, next)
  }

  function PageSize(request: ListRequest): Result<nat, Error> {
    if request.pageSize == 0 then Ok(DEFAULT_PAGE_SIZE)
    else if request.pageSize < 1 || request.pageSize > MAXIMUM_PAGE_SIZE then Err(InvalidRequest)
    else Ok(request.pageSize)
  }

  /** The key that a page token stands for; the query compares whole microseconds. */
  function TokenKey(token: Str): Result<Option<Key>, Error> {
    if token == [] then Ok(None)
    else
      var (updatedAt, taskId) :- Cursor.DecodePageToken(token);
      Ok(Some(Key(Micros(updatedAt), taskId)))
  }

  function ListTasks(rank: Collation, rows: Table, identity: Option<Identity>,
          request: Option<ListRequest>): Result<ListResponse, Error> {
    hide VerifiedOwner, TokenKey, Selected, Page;
    if request.None? then Err(InvalidRequest)
    else
      var owner :- VerifiedOwner(identity);
      var pageSize :- PageSize(request.value);
      var cursor :- TokenKey(request.value.pageToken);
      Ok(Page(rank, Selected(rows, owner, request.value), request.value, pageSize, cursor))
  }

  // ---------- what the filter selects ----------

  /** On consistent rows the column filter is the filter on the stored tasks, at microsecond precision. */
  lemma FilterAgreesWithTasks(rows: Table, owner: Owner, request: ListRequest, id: Str)
    requires Consistent(rows)
    ensures id in Selected(rows, owner, request)
       <==> id in rows && rows[id].owner == owner && Wanted(rows[id].task, request, Micros)
  {
  }

  /**
   At nanosecond precision the filter lets through more: exactly the tasks whose status time
   lies before the requested one within the same microsecond.
   */
  lemma FilterRoundsDown(task: Task, request: ListRequest)
    ensures Wanted(task, request, Micros)
       <==> || Wanted(task, request, t => t)
            || (&& Wanted(task, request.(statusTimestampAfter := None), t => t)
                && request.statusTimestampAfter.Some? && task.statusTimestamp.Some?
                && task.statusTimestamp.value < request.statusTimestampAfter.value
                && Micros(task.statusTimestamp.value) == Micros(request.statusTimestampAfter.value))
  {
    if request.statusTimestampAfter.Some? && task.statusTimestamp.Some? {
      var t, after := task.statusTimestamp.value, request.statusTimestampAfter.value;
      assert t >= after ==> Micros(t) >= Micros(after);
    }
  }

  /** A task like the request in all that its filter names, but one nanosecond too early. */
  function JustBefore(id: Str, request: ListRequest): Task
    requires request.statusTimestampAfter.Some?
  {
    Task(id, request.contextId, request.status, Some(request.statusTimestampAfter.value - 1), None, None)
  }

  predicate WholeMicros(request: ListRequest) {
    request.statusTimestampAfter.None? || request.statusTimestampAfter.value % 1000 == 0
  }

  /** Rounding down to whole microseconds moves a time across a bound exactly when the bound is not whole itself. */
  lemma FilterExactTimes(task: Task, request: ListRequest)
    requires WholeMicros(request)
    ensures Wanted(task, request, Micros) <==> Wanted(task, request, t => t)
  {
  }

  lemma JustBeforeSlips(id: Str, request: ListRequest)
    requires !WholeMicros(request)
    ensures Wanted(JustBefore(id, request), request, Micros) && !Wanted(JustBefore(id, request), request, t => t)
  {
  }

  /** The filter is exact to the nanosecond for every task exactly when the request asks for a whole microsecond. */
  lemma FilterExactly(request: ListRequest)
    ensures (forall task :: Wanted(task, request, Micros) <==> Wanted(task, request, t => t)) <==> WholeMicros(request)
  {
    if WholeMicros(request) {
      forall task
        ensures Wanted(task, request, Micros) <==> Wanted(task, request, t => t)
      {
        FilterExactTimes(task, request);
      }
    } else {
      JustBeforeSlips([], request);
    }
  }

  /** A cursor in a token comes back as the same key, unless its year cannot be printed. */
  lemma TokenKeyRoundTrip(rows: Table, id: Str)
    requires id in rows && id != []
    ensures PageToken(rows, id) != []
    ensures TokenKey(PageToken(rows, id)).Ok? <==> Cursor.Printable(rows[id].updatedAt * 1000)
    ensures TokenKey(PageToken(rows, id)).Ok? ==> TokenKey(PageToken(rows, id)).value == Some(KeyOf(rows, id))
  {
    hide Cursor.EncodePageToken, Cursor.DecodePageToken, Cursor.Printable;
    Cursor.TokenNotEmpty(rows[id].updatedAt * 1000, id);
    Cursor.DecodeEncode(rows[id].updatedAt * 1000, id);
  }
}
