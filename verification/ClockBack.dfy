/** Why a listing needs a clock that does not move back: a task whose time does is listed again. */
module ClockBack {
  import opened Text
  import opened Auth
  import opened Tasks
  import opened Ordering
  import opened Listing
  import opened Pagination
  import opened Operations
  import opened History
  import opened Transactions
  import opened ListingRuns
  import opened Serial
  import Cursor

  /** Three readings of the database clock, the last one before the others. */
  datatype Times = Times(older: int, newer: int, back: int) {
    predicate Valid() {
      back < older < newer && Cursor.Printable(newer * 1000)
    }
  }

  /** Two tasks of one owner, `a` written after `b`. */
  function Written(owner: Owner, a: Task, b: Task, t: Times): Table {
    map[a.id := NewRow(owner, a, t.newer), b.id := NewRow(owner, b, t.older)]
  }

  /** The same after an update of `a` that reads a clock set back. */
  function Updated(owner: Owner, a: Task, b: Task, t: Times): Table {
    map[a.id := NextRow(NewRow(owner, a, t.newer), a, t.back), b.id := NewRow(owner, b, t.older)]
  }

  function Request(pageSize: int, pageToken: Str): ListRequest {
    ListRequest([], [], None, pageSize, pageToken, None, true)
  }

  lemma AllSelected(owner: Owner, a: Task, b: Task, t: Times, request: ListRequest)
    requires request.contextId == [] && request.status == [] && request.statusTimestampAfter == None
    ensures Selected(Written(owner, a, b, t), owner, request) == Written(owner, a, b, t)
    ensures Selected(Updated(owner, a, b, t), owner, request) == Updated(owner, a, b, t)
  {
  }

  lemma TwoOrdered(rank: Collation, rows: Table, x: Str, y: Str)
    requires rows.Keys == {x, y} && x != y && rows[x].updatedAt > rows[y].updatedAt
    ensures Ordered(rank, rows) == [x, y]
  {
    hide Ordered;
    SortedUnique(rank, rows, [x, y]);
  }

  lemma FirstPage(rank: Collation, owner: Owner, a: Task, b: Task, t: Times)
    requires a.id != b.id && t.Valid()
    ensures
      var page := Page(rank, Written(owner, a, b, t), Request(1, []), 1, None);
      |page.tasks| == 1 && page.tasks[0].id == a.id
          && page.nextPageToken == Cursor.EncodePageToken(t.newer * 1000, a.id)
  {
    hide Ordered, Cursor.EncodePageToken;
    var rows := Written(owner, a, b, t);
    TwoOrdered(rank, rows, a.id, b.id);
    assert Below(rank, rows, None) == rows;
    assert |Ordered(rank, rows)| == 2;
  }

  lemma SecondPage(rank: Collation, owner: Owner, a: Task, b: Task, t: Times, token: Str)
    requires a.id != b.id && t.Valid()
    ensures
      var page := Page(rank, Updated(owner, a, b, t), Request(2, token), 2, Some(Key(t.newer, a.id)));
      |page.tasks| == 2 && page.tasks[0].id == b.id && page.tasks[1].id == a.id
  {
    hide Ordered, Cursor.EncodePageToken;
    var rows := Updated(owner, a, b, t);
    TwoOrdered(rank, rows, b.id, a.id);
    assert Below(rank, rows, Some(Key(t.newer, a.id))) == rows;
    assert |Ordered(rank, rows)| == 2;
  }

  lemma Lists(rank: Collation, rows: Table, identity: Identity, request: ListRequest, cursor: Option<Key>)
    requires VerifiedOwner(Some(identity)).Ok?
    requires 1 <= request.pageSize <= MAXIMUM_PAGE_SIZE && TokenKey(request.pageToken) == Text.Result.Ok(cursor)
    ensures ListTasks(rank, rows, Some(identity), Some(request))
         == Text.Result.Ok(Page(rank, Selected(rows, OwnerOf(identity), request), request, request.pageSize, cursor))
  {
    hide TokenKey, VerifiedOwner, Page, Selected;
    IdentityOwner(identity);
  }

  lemma KeyInToken(newer: int, id: Str)
    requires Cursor.Printable(newer * 1000) && id != []
    ensures Cursor.EncodePageToken(newer * 1000, id) != []
    ensures TokenKey(Cursor.EncodePageToken(newer * 1000, id)) == Text.Result.Ok(Some(Key(newer, id)))
  {
    hide Cursor.EncodePageToken, Cursor.DecodePageToken, Cursor.Printable;
    Cursor.TokenNotEmpty(newer * 1000, id);
    Cursor.DecodeEncode(newer * 1000, id);
  }

  /**
   With the clock set back between two pages, following the token gives the same task twice, although
   the write in between kept every row and its owner and raised the version.
   */
  lemma ListedTwice(rank: Collation, identity: Identity, a: Task, b: Task, t: Times)
    requires VerifiedOwner(Some(identity)).Ok? && a.id != b.id && a.id != [] && t.Valid()
    ensures
      var owner := OwnerOf(identity);
      var first := ListTasks(rank, Written(owner, a, b, t), Some(identity), Some(Request(1, [])));
      first.Ok? && first.value.nextPageToken != [] &&
      var second := ListTasks(rank, Updated(owner, a, b, t), Some(identity),
          Some(Request(2, first.value.nextPageToken)));
      second.Ok? && |first.value.tasks| == 1 && |second.value.tasks| == 2
      && first.value.tasks[0].id == second.value.tasks[1].id == a.id && second.value.tasks[0].id == b.id
  {
    hide ListTasks, TokenKey, Cursor.EncodePageToken, Page, Selected, VerifiedOwner, Written, Updated;
    var owner, token := OwnerOf(identity), Cursor.EncodePageToken(t.newer * 1000, a.id);
    FirstCursor();
    Lists(rank, Written(owner, a, b, t), identity, Request(1, []), None);
    AllSelected(owner, a, b, t, Request(1, []));
    FirstPage(rank, owner, a, b, t);
    KeyInToken(t.newer, a.id);
    Lists(rank, Updated(owner, a, b, t), identity, Request(2, token), Some(Key(t.newer, a.id)));
    AllSelected(owner, a, b, t, Request(2, token));
    SecondPage(rank, owner, a, b, t, token);
  }

  // ---------- as a run ----------

  /** What each of the calls does on its own. */
  lemma CreateAlone(rank: Collation, rows: Table, identity: Identity, task: Task, now: int)
    requires VerifiedOwner(Some(identity)).Ok? && task.id != [] && task.id !in rows
    ensures Apply(rank, rows, Create(Some(identity), Some(task), now))
         == (rows[task.id := NewRow(OwnerOf(identity), task, now)], Version(1))
  {
    hide VerifiedOwner;
    IdentityOwner(identity);
  }

  lemma UpdateAlone(rank: Collation, rows: Table, identity: Identity, task: Task, now: int)
    requires VerifiedOwner(Some(identity)).Ok? && task.id != []
    requires Owns(rows, OwnerOf(identity), task.id) && rows[task.id].version < MAX_VERSION
    ensures Apply(rank, rows, Update(Some(identity), Some(UpdateRequest(Some(task), MISSING_VERSION)), now))
         == (rows[task.id := NextRow(rows[task.id], task, now)], Version(rows[task.id].version + 1))
  {
    hide VerifiedOwner, NextRow;
    IdentityOwner(identity);
  }

  lemma ListAlone(rank: Collation, rows: Table, identity: Identity, request: ListRequest, response: ListResponse)
    requires ListTasks(rank, rows, Some(identity), Some(request)) == Text.Result.Ok(response)
    ensures Apply(rank, rows, List(Some(identity), Some(request))) == (rows, Reply.Listed(response))
  {
    hide ListTasks;
  }

  lemma LogGrows(rank: Collation, log: seq<Event>, rows: Table, e: Event, rows': Table)
    requires Legal(rank, log) && After(rank, log) == rows
    requires Apply(rank, rows, e.op) == (rows', e.reply)
    ensures Legal(rank, log + [e]) && After(rank, log + [e]) == rows'
  {
    hide Legal, After, Apply;
    LegalSnoc(rank, log, e);
  }

  /**
   The calls: both tasks are created, the first page is read, the newer task is updated, and the
   second page is read.
   */
  function Calls(identity: Identity, a: Task, b: Task, t: Times, first: ListResponse,
      second: ListResponse): seq<Event> {
    [Event(Create(Some(identity), Some(b), t.older), Version(1)),
     Event(Create(Some(identity), Some(a), t.newer), Version(1)),
     Event(List(Some(identity), Some(Request(1, []))), Reply.Listed(first)),
     Event(Update(Some(identity), Some(UpdateRequest(Some(a), MISSING_VERSION)), t.back), Version(2)),
     Event(List(Some(identity), Some(Request(2, first.nextPageToken))), Reply.Listed(second))]
  }

  lemma CallsRun(rank: Collation, identity: Identity, a: Task, b: Task, t: Times, first: ListResponse,
      second: ListResponse)
    returns (actions: seq<Action>, db: Db)
    requires VerifiedOwner(Some(identity)).Ok? && a.id != b.id && a.id != [] && b.id != []
    requires ListTasks(rank, Written(OwnerOf(identity), a, b, t), Some(identity), Some(Request(1, [])))
        == Text.Result.Ok(first)
    requires ListTasks(rank, Updated(OwnerOf(identity), a, b, t), Some(identity), Some(Request(2, first.nextPageToken)))
          == Text.Result.Ok(second)
    ensures Run(rank, EMPTY, actions, db) && db.log == Calls(identity, a, b, t, first, second)
    ensures After(rank, db.log[..2]) == Written(OwnerOf(identity), a, b, t)
    ensures After(rank, db.log[..3]) == Written(OwnerOf(identity), a, b, t)
    ensures After(rank, db.log[..4]) == Updated(OwnerOf(identity), a, b, t)
  {
    hide VerifiedOwner, ListTasks, Run, After, Request, Apply, Legal, NewRow, NextRow;
    var owner, log := OwnerOf(identity), Calls(identity, a, b, t, first, second);
    var one := map[b.id := NewRow(owner, b, t.older)];
    var two, four := Written(owner, a, b, t), Updated(owner, a, b, t);
    assert [] + [log[0]] == log[..1] && log[..1] + [log[1]] == log[..2] && log[..2] + [log[2]] == log[..3];
    assert log[..3] + [log[3]] == log[..4] && log[..4] + [log[4]] == log;
    assert two == one[a.id := NewRow(owner, a, t.newer)];
    NothingYet(rank);
    CreateAlone(rank, map[], identity, b, t.older);
    LogGrows(rank, [], map[], log[0], one);
    CreateAlone(rank, one, identity, a, t.newer);
    LogGrows(rank, log[..1], one, log[1], two);
    ListAlone(rank, two, identity, Request(1, []), first);
    LogGrows(rank, log[..2], two, log[2], two);
    NewlyOwned(owner, a, b, t);
    UpdateAlone(rank, two, identity, a, t.back);
    LogGrows(rank, log[..3], two, log[3], four);
    ListAlone(rank, four, identity, Request(2, first.nextPageToken), second);
    LogGrows(rank, log[..4], four, log[4], four);
    actions, db := LegalLogRuns(rank, log);
  }

  lemma NothingYet(rank: Collation)
    ensures Legal(rank, []) && After(rank, []) == map[]
  {
  }

  lemma NewlyOwned(owner: Owner, a: Task, b: Task, t: Times)
    requires a.id != b.id
    ensures Owns(Written(owner, a, b, t), owner, a.id) && Written(owner, a, b, t)[a.id].version == 1
    ensures Updated(owner, a, b, t)
         == Written(owner, a, b, t)[a.id := NextRow(Written(owner, a, b, t)[a.id], a, t.back)]
  {
  }

  /**
   In a run of the calls themselves, a clock set back before the update of a task that has been listed
   makes a client that follows the tokens get that task twice.
   */
  lemma ListedTwiceInARun(rank: Collation, identity: Identity, a: Task, b: Task, t: Times)
    returns (actions: seq<Action>, db: Db, at: seq<nat>, first: ListResponse, second: ListResponse)
    requires VerifiedOwner(Some(identity)).Ok? && a.id != b.id && a.id != [] && b.id != [] && t.Valid()
    ensures Run(rank, EMPTY, actions, db) && db.log == Calls(identity, a, b, t, first, second)
    ensures at == [2, 4] && ClientListing(db.log, identity, at)
    ensures multiset(AllIds(Pages(rank, db.log, identity, at)))[a.id] == 2
    ensures MovesBack(rank, db.log, 3, a.id)
  {
    hide VerifiedOwner, ListTasks, Run, After, Written, Updated, MovesBack;
    var owner := OwnerOf(identity);
    ListedTwice(rank, identity, a, b, t);
    first := ListTasks(rank, Written(owner, a, b, t), Some(identity), Some(Request(1, []))).value;
    second := ListTasks(rank, Updated(owner, a, b, t), Some(identity), Some(Request(2, first.nextPageToken))).value;
    actions, db := CallsRun(rank, identity, a, b, t, first, second);
    at := [2, 4];
    TwoPages(rank, db.log, identity, at, a.id, b.id, first, second);
    ClockSetBack(rank, db.log, identity, a, b, t);
  }

  lemma TwoPages(rank: Collation, log: seq<Event>, identity: Identity, at: seq<nat>, x: Str, y: Str,
      first: ListResponse, second: ListResponse)
    requires at == [2, 4] && |log| == 5 && x != y
    requires log[2] == Event(List(Some(identity), Some(Request(1, []))), Reply.Listed(first))
    requires log[4] == Event(List(Some(identity), Some(Request(2, first.nextPageToken))), Reply.Listed(second))
    requires first.nextPageToken != [] && |first.tasks| == 1 && first.tasks[0].id == x
    requires |second.tasks| == 2 && second.tasks[0].id == y && second.tasks[1].id == x
    ensures ClientListing(log, identity, at)
    ensures multiset(AllIds(Pages(rank, log, identity, at)))[x] == 2
  {
    hide After, AllIds;
    var pages := Pages(rank, log, identity, at);
    assert pages[0].response == first && pages[1].response == second;
    assert pages[0].Ids() == [x] && pages[1].Ids() == [y, x];
    IdsOfTwo(pages);
    assert [x] + [y, x] == [x, y, x];
  }

  lemma IdsOfTwo(pages: seq<PageCall>)
    requires |pages| == 2
    ensures AllIds(pages) == pages[0].Ids() + pages[1].Ids()
  {
    hide PageCall.Ids;
    var one := pages[..1];
    assert one[..0] == [] && AllIds(one[..0]) == [];
    assert AllIds(one) == AllIds(one[..0]) + one[0].Ids();
    assert [] + pages[0].Ids() == pages[0].Ids();
    assert pages[..|pages| - 1] == one;
  }

  lemma ClockSetBack(rank: Collation, log: seq<Event>, identity: Identity, a: Task, b: Task, t: Times)
    requires VerifiedOwner(Some(identity)).Ok? && a.id != b.id && a.id != [] && t.Valid()
    requires |log| == 5 && log[3].reply.Version?
        && log[3].op == Update(Some(identity), Some(UpdateRequest(Some(a), MISSING_VERSION)), t.back)
    requires After(rank, log[..3]) == Written(OwnerOf(identity), a, b, t)
    requires After(rank, log[..4]) == Updated(OwnerOf(identity), a, b, t)
    ensures MovesBack(rank, log, 3, a.id)
  {
    hide VerifiedOwner, After;
    IdentityOwner(identity);
  }
}
