/** When each call of the store succeeds, what it then does, and with which error it fails otherwise. */
module Calls {
  import opened Text
  import opened WhiteSpace
  import opened Errors
  import opened Auth
  import opened Tasks
  import opened Ordering
  import opened Listing
  import opened Pagination
  import opened Operations
  import Cursor

  // ---------- who calls ----------

  /** Issuer, tenant and subject each hold something else than white space. */
  ghost predicate Identified(identity: Option<Identity>) {
    && identity.Some?
    && !Blank(identity.value.issuer) && !Blank(identity.value.tenant) && !Blank(identity.value.subject)
  }

  lemma VerifiedExactly(identity: Option<Identity>)
    ensures VerifiedOwner(identity)
         == if Identified(identity)
            then Ok(Owner(identity.value.issuer, identity.value.tenant, identity.value.subject))
            else Err(Unauthenticated)
  {
    hide TrimSpace, Blank;
    if identity.Some? {
      TrimmedAway(identity.value.issuer);
      TrimmedAway(identity.value.tenant);
      TrimmedAway(identity.value.subject);
    }
  }

  /** The caller has a task of this id. */
  ghost predicate Has(rows: Table, identity: Option<Identity>, id: Str) {
    && Identified(identity)
    && id in rows && rows[id].owner == Owner(identity.value.issuer, identity.value.tenant, identity.value.subject)
  }

  /** The columns of a row that holds this task. */
  ghost predicate Holds(row: Row, task: Task) {
    && row.task == task && row.contextId == task.contextId && row.state == task.state
    && row.statusTimestamp.Some? == task.statusTimestamp.Some?
    && (task.statusTimestamp.Some? ==> row.statusTimestamp.value == task.statusTimestamp.value / 1000)
  }

  // ---------- writes ----------

  /**
   Create stores the task as the caller's at version 1, unless the task or its id is missing, the caller
   is not identified, or anybody has a task of that id.
   */
  lemma CreateExactly(rank: Collation, rows: Table, identity: Option<Identity>, task: Option<Task>, now: int)
    ensures
      var (rows', reply) := Apply(rank, rows, Create(identity, task, now));
      var given := task.Some? && task.value.id != [];
      && (reply == Failed(InvalidParams) <==> !given)
      && (reply == Failed(Unauthenticated) <==> given && !Identified(identity))
      && (reply == Failed(TaskAlreadyExists) <==> given && Identified(identity) && task.value.id in rows)
      && (reply == Version(1) <==> given && Identified(identity) && task.value.id !in rows)
      && (reply == Version(1) ==>
            var id := task.value.id;
            && Has(rows', identity, id) && Holds(rows'[id], task.value)
            && rows'[id].version == 1 && rows'[id].updatedAt == now
            && rows' == rows[id := rows'[id]])
      && (reply != Version(1) ==> rows' == rows)
  {
    hide VerifiedOwner, Identified;
    VerifiedExactly(identity);
  }

  /**
   Update goes through exactly when the caller has the task, at version `v`, PrevVersion is 0 or `v`, and
   `v` is not the largest bigint; it then stores the task at version `v + 1`.
   */
  lemma UpdateExactly(rank: Collation, rows: Table, identity: Option<Identity>, request: Option<UpdateRequest>,
      now: int)
    ensures
      var (rows', reply) := Apply(rank, rows, Update(identity, request, now));
      var given := request.Some? && request.value.task.Some? && request.value.task.value.id != [];
      && (reply == Failed(InvalidParams) <==> !given)
      && (reply == Failed(Unauthenticated) <==> given && !Identified(identity))
      && (reply != Failed(InvalidParams) && reply != Failed(Unauthenticated) ==>
            var task, prevVersion := request.value.task.value, request.value.prevVersion;
            && (reply == Failed(TaskNotFound) <==> !Has(rows, identity, task.id))
            && (Has(rows, identity, task.id) ==>
                  var v := rows[task.id].version;
                  && (reply == Failed(ConcurrentModification) <==> prevVersion != 0 && prevVersion != v)
                  && (reply == Version(v + 1) <==>
                        (prevVersion == 0 || prevVersion == v) && v < 9_223_372_036_854_775_807)
                  && (reply == Version(v + 1) || reply == Failed(ConcurrentModification)
                      || reply == Failed(DatabaseError))
                  && (reply == Version(v + 1) ==>
                        && Has(rows', identity, task.id) && Holds(rows'[task.id], task)
                        && rows'[task.id].version == v + 1 && rows'[task.id].updatedAt == now
                        && rows' == rows[task.id := rows'[task.id]])))
      && (!reply.Version? ==> rows' == rows)
  {
    hide VerifiedOwner, Identified;
    VerifiedExactly(identity);
  }

  // ---------- reads ----------

  /**
   Get returns the caller's own task, and does not tell somebody else's from one that does not exist.
   */
  lemma GetExactly(rank: Collation, rows: Table, identity: Option<Identity>, id: Str)
    ensures
      var (rows', reply) := Apply(rank, rows, Get(identity, id));
      && rows' == rows
      && (reply == Failed(TaskNotFound) <==> id == [] || (Identified(identity) && !Has(rows, identity, id)))
      && (reply == Failed(Unauthenticated) <==> id != [] && !Identified(identity))
      && (id != [] && Has(rows, identity, id) ==>
            reply == Stored(StoredTask(rows[id].task, rows[id].version, OwnerKey(identity.value))))
  {
    hide VerifiedOwner, Blank, OwnerKey;
    VerifiedExactly(identity);
    if Identified(identity) {
      KeyOfOwner(identity.value);
    }
  }

  lemma KeyOfOwner(identity: Identity)
    ensures OwnerKey(OwnerIdentity(Owner(identity.issuer, identity.tenant, identity.subject))) == OwnerKey(identity)
  {
  }

  // ---------- List ----------

  /** The caller's own task, and what the request asks for; times are compared in whole microseconds. */
  ghost predicate Asked(row: Row, identity: Identity, request: ListRequest) {
    && row.owner == Owner(identity.issuer, identity.tenant, identity.subject)
    && (request.contextId != [] ==> row.task.contextId == request.contextId)
    && (request.status != [] ==> row.task.state == request.status)
    && (request.statusTimestampAfter.Some? && row.task.statusTimestamp.Some? ==>
          row.task.statusTimestamp.value / 1000 >= request.statusTimestampAfter.value / 1000)
  }

  ghost function AskedIds(rows: Table, identity: Identity, request: ListRequest): set<Str> {
    set id | id in rows && Asked(rows[id], identity, request)
  }

  /** What the page token stands for: a time in microseconds and an id. */
  ghost function Start(request: ListRequest): Option<(int, Str)> {
    if request.pageToken == [] then None
    else
      match Cursor.DecodePageToken(request.pageToken)
      case Ok((time, id)) => Some((time / 1000, id))
      case Err(_) => None
  }

  /** Newest first, and of the same time the id that collates later first. */
  ghost predicate Before(rank: Collation, a: (int, Str), b: (int, Str)) {
    a.0 > b.0 || (a.0 == b.0 && rank(a.1) > rank(b.1))
  }

  ghost function Place(rows: Table, id: Str): (int, Str)
    requires id in rows
  {
    (rows[id].updatedAt, id)
  }

  /** The ids asked for that come behind the page token. */
  ghost function LeftIds(rank: Collation, rows: Table, identity: Identity, request: ListRequest): set<Str> {
    set id | id in AskedIds(rows, identity, request)
             && (Start(request).None? || Before(rank, Start(request).value, Place(rows, id)))
  }

  /**
   The first `size` of the tasks that are left, in order and shaped, the number of all that are asked
   for, and, if any are left after these, the token of the last one.
   */
  ghost predicate IsPage(rank: Collation, rows: Table, identity: Identity, request: ListRequest,
      response: ListResponse) {
    var left, tasks := LeftIds(rank, rows, identity, request), response.tasks;
    var size := if request.pageSize == 0 then 50 else request.pageSize;
    && response.pageSize == size
    && response.totalSize == |AskedIds(rows, identity, request)|
    && |tasks| == (if |left| < size then |left| else size)
    && (forall k | 0 <= k < |tasks| :: tasks[k].id in left && tasks[k] == Shape(rows[tasks[k].id].task, request))
    && (forall j, k | 0 <= j < k < |tasks| :: Before(rank, Place(rows, tasks[j].id), Place(rows, tasks[k].id)))
    && (forall k, id | 0 <= k < |tasks| && id in left ::
          (exists j | 0 <= j < |tasks| :: tasks[j].id == id)
          || Before(rank, Place(rows, tasks[k].id), Place(rows, id)))
    && (|left| <= size ==> response.nextPageToken == [])
    && (|left| > size ==>
          && 0 < size == |tasks|
          && var last := tasks[size - 1].id;
             response.nextPageToken == Cursor.EncodePageToken(rows[last].updatedAt * 1000, last))
  }

  lemma SameIds(rank: Collation, rows: Table, identity: Identity, request: ListRequest)
    requires Consistent(rows) && TokenKey(request.pageToken).Ok?
    ensures
      var selected := Selected(rows, OwnerOf(identity), request);
      && selected.Keys == AskedIds(rows, identity, request) && |selected| == |AskedIds(rows, identity, request)|
      && var below := Below(rank, selected, TokenKey(request.pageToken).value);
         below.Keys == LeftIds(rank, rows, identity, request) && |below| == |LeftIds(rank, rows, identity, request)|
  {
    hide Cursor.DecodePageToken;
    var selected := Selected(rows, OwnerOf(identity), request);
    assert |selected| == |selected.Keys|;
    var below := Below(rank, selected, TokenKey(request.pageToken).value);
    assert |below| == |below.Keys|;
    forall id
      ensures id in selected <==> id in AskedIds(rows, identity, request)
    {
      FilterAgreesWithTasks(rows, OwnerOf(identity), request, id);
    }
    forall id
      ensures id in below <==> id in LeftIds(rank, rows, identity, request)
    {
    }
  }

  /** The first ids of those left, at most `size`, in order. */
  ghost predicate Firsts(rank: Collation, rows: Table, left: set<Str>, size: nat, ids: seq<Str>) {
    && (forall id | id in left :: id in rows)
    && |ids| == (if |left| < size then |left| else size)
    && (forall k | 0 <= k < |ids| :: ids[k] in left)
    && (forall j, k | 0 <= j < k < |ids| :: Before(rank, Place(rows, ids[j]), Place(rows, ids[k])))
    && (forall k, id | 0 <= k < |ids| && id in left :: id in ids || Before(rank, Place(rows, ids[k]), Place(rows, id)))
  }

  lemma NewerIsBefore(rank: Collation, rows: Table, below: Table, a: Str, b: Str)
    requires a in below && b in below && a in rows && b in rows && below[a] == rows[a] && below[b] == rows[b]
    ensures Newer(rank, KeyOf(below, a), KeyOf(below, b)) == Before(rank, Place(rows, a), Place(rows, b))
  {
  }

  lemma PageFirsts(rank: Collation, rows: Table, selected: Table, size: nat, cursor: Option<Key>)
    requires forall id | id in selected :: id in rows && selected[id] == rows[id]
    ensures Firsts(rank, rows, Below(rank, selected, cursor).Keys, size, PageIds(rank, selected, size, cursor))
  {
    hide Ordered, Past, Before, Newer, KeyOf, Place;
    var below, ids := Below(rank, selected, cursor), PageIds(rank, selected, size, cursor);
    var all := Ordered(rank, below);
    assert ids <= all && |below| == |below.Keys|;
    SortedBefore(rank, rows, below, all);
    forall k, id | 0 <= k < |ids| && id in below
      ensures id in ids || Before(rank, Place(rows, ids[k]), Place(rows, id))
    {
      var j :| 0 <= j < |all| && all[j] == id;
      if j < |ids| {
        assert ids[j] == id;
      }
    }
  }

  lemma SortedBefore(rank: Collation, rows: Table, below: Table, all: seq<Str>)
    requires all == Ordered(rank, below) && forall id | id in below :: id in rows && below[id] == rows[id]
    ensures forall i | 0 <= i < |all| :: all[i] in rows
    ensures forall j, k | 0 <= j < k < |all| :: Before(rank, Place(rows, all[j]), Place(rows, all[k]))
  {
    hide Ordered, Before, Newer;
    OrderedIsSorted(rank, below);
    forall j, k | 0 <= j < k < |all|
      ensures Before(rank, Place(rows, all[j]), Place(rows, all[k]))
    {
      assert Newer(rank, KeyOf(below, all[j]), KeyOf(below, all[k]));
      NewerIsBefore(rank, rows, below, all[j], all[k]);
    }
  }

  /** What a page says of its ids. */
  lemma PageSays(rank: Collation, rows: Table, selected: Table, request: ListRequest, size: nat, cursor: Option<Key>)
    requires Consistent(rows) && size > 0
    requires forall id | id in selected :: id in rows && selected[id] == rows[id]
    ensures
      var response, ids := Page(rank, selected, request, size, cursor), PageIds(rank, selected, size, cursor);
      var more := |Below(rank, selected, cursor)| > size;
      && response.pageSize == size && response.totalSize == |selected| && |response.tasks| == |ids|
      && (forall k | 0 <= k < |ids| ::
            ids[k] in rows && response.tasks[k].id == ids[k]
            && response.tasks[k] == Shape(rows[ids[k]].task, request))
      && (more ==>
            && |ids| == size
            && response.nextPageToken == Cursor.EncodePageToken(rows[ids[size - 1]].updatedAt * 1000, ids[size - 1]))
      && (!more ==> response.nextPageToken == [])
  {
    hide Ordered, Below, Shape, Cursor.EncodePageToken;
    var ids := PageIds(rank, selected, size, cursor);
    forall k | 0 <= k < |ids|
      ensures Shape(selected[ids[k]].task, request).id == ids[k]
    {
      ShapeKeepsId(selected[ids[k]].task, request);
    }
  }

  lemma PageIs(rank: Collation, rows: Table, identity: Identity, request: ListRequest)
    requires Consistent(rows) && TokenKey(request.pageToken).Ok? && PageSize(request).Ok?
    ensures
      var selected := Selected(rows, OwnerOf(identity), request);
      PageSize(request).value > 0
      && IsPage(rank, rows, identity, request,
                Page(rank, selected, request, PageSize(request).value, TokenKey(request.pageToken).value))
  {
    hide Page, PageIds, Below, TokenKey, Matches, Cursor.EncodePageToken, Shape, Before, LeftIds, AskedIds, Projects;
    var selected, size := Selected(rows, OwnerOf(identity), request), PageSize(request).value;
    var cursor := TokenKey(request.pageToken).value;
    SameIds(rank, rows, identity, request);
    PageFirsts(rank, rows, selected, size, cursor);
    PageSays(rank, rows, selected, request, size, cursor);
  }

  /** List answers with the page just described, unless something is wrong with the call. */
  lemma ListExactly(rank: Collation, rows: Table, identity: Option<Identity>, request: Option<ListRequest>)
    requires Consistent(rows)
    ensures
      var (rows', reply) := Apply(rank, rows, List(identity, request));
      && rows' == rows
      && (reply == Failed(Unauthenticated) <==> request.Some? && !Identified(identity))
      && (reply == Failed(InvalidRequest) <==>
            request.None? || (Identified(identity) && !(0 <= request.value.pageSize <= 100)))
      && (request.Some? && Identified(identity) && 0 <= request.value.pageSize <= 100 ==>
            var token := request.value.pageToken;
            if token != [] && Cursor.DecodePageToken(token).Err? then reply == Failed(ParseError)
            else reply.Listed? && IsPage(rank, rows, identity.value, request.value, reply.response))
  {
    hide VerifiedOwner, Blank, Cursor.DecodePageToken, Selected, Page, IsPage;
    VerifiedExactly(identity);
    TokenErrors(request);
    if request.Some? && Identified(identity) && PageSize(request.value).Ok? && TokenKey(request.value.pageToken).Ok? {
      PageIs(rank, rows, identity.value, request.value);
    }
  }

  lemma TokenErrors(request: Option<ListRequest>)
    ensures request.Some? && request.value.pageToken != [] && Cursor.DecodePageToken(request.value.pageToken).Err? ==>
              Cursor.DecodePageToken(request.value.pageToken).error == ParseError
  {
  }
}
