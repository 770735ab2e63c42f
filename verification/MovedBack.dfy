/** Exactly when following the tokens over a change of the table can give a task twice. */
module MovedBack {
  import opened Text
  import opened Auth
  import opened Tasks
  import opened Ordering
  import opened Listing
  import opened Pagination
  import opened FullListing
  import opened Operations
  import opened History
  import Cursor

  /** The first `c` pages see one table, the others another. */
  predicate Switches(pages: seq<PageCall>, c: nat, before: Table, after: Table) {
    forall k | 0 <= k < |pages| :: pages[k].rows == if k < c then before else after
  }

  predicate OnTwo(pages: seq<PageCall>, id: Str) {
    exists i, j | 0 <= i < j < |pages| :: id in pages[i].Ids() && id in pages[j].Ids()
  }

  /** A client that asks for these tasks, and sees the table change once, is given the task twice. */
  ghost predicate GivenTwice(rank: Collation, identity: Identity, request: ListRequest, before: Table, after: Table,
      id: Str, pages: seq<PageCall>, c: nat)
  {
    && Follows(rank, identity, pages) && SameFilter(request, pages[0].request)
    && Switches(pages, c, before, after) && OnTwo(pages, id)
  }

  /** Some row comes after this one in the order of the listing. */
  ghost predicate HasOlder(rank: Collation, rows: Table, id: Str)
    requires id in rows
  {
    exists other | other in rows :: Newer(rank, KeyOf(rows, id), KeyOf(rows, other))
  }

  // ---------- twice only if moved back ----------

  /** When there are more rows than a page takes, one of them comes after the end of the page. */
  lemma RowAfterPage(rank: Collation, rows: Table, size: nat, cursor: Option<Key>) returns (other: Str)
    requires size > 0 && |Below(rank, rows, cursor)| > size
    ensures |PageIds(rank, rows, size, cursor)| == size && PageIds(rank, rows, size, cursor)[size - 1] in rows
    ensures other in rows && Newer(rank, KeyOf(rows, PageIds(rank, rows, size, cursor)[size - 1]), KeyOf(rows, other))
  {
    hide Newer, Past, Ordered;
    var below := Below(rank, rows, cursor);
    OrderedIsSorted(rank, below);
    other := Ordered(rank, below)[size];
    assert Newer(rank, KeyOf(below, Ordered(rank, below)[size - 1]), KeyOf(below, other));
  }

  lemma NotAbove(rank: Collation, end: Key, key: Key, other: Key)
    requires !Newer(rank, end, key) && Newer(rank, end, other)
    ensures Newer(rank, key, other)
  {
  }

  /** A task on a page that is not the last has a row after it. */
  lemma OlderAfterPage(rank: Collation, identity: Identity, call: PageCall, id: Str)
    requires call.Answers(rank, identity) && !call.Last() && id in call.Ids()
    ensures id in Candidates(identity, call) && HasOlder(rank, Candidates(identity, call), id)
  {
    hide Newer, Candidates, ListTasks, Consistent, TokenKey, Below, PageIds, Page;
    var rows := Candidates(identity, call);
    OnPage(rank, identity, call, id);
    AnswerIsPage(rank, identity, call);
    var cursor, size := TokenKey(call.request.pageToken).value, PageSize(call.request).value;
    PageEnds(rank, rows, call.request, size, cursor);
    PageMember(rank, rows, size, cursor, id);
    var other := RowAfterPage(rank, rows, size, cursor);
    NotAbove(rank, KeyOf(rows, PageIds(rank, rows, size, cursor)[size - 1]), KeyOf(rows, id), KeyOf(rows, other));
  }

  lemma SameRows(rank: Collation, identity: Identity, request: ListRequest, pages: seq<PageCall>, k: nat)
    requires Follows(rank, identity, pages) && SameFilter(request, pages[0].request) && k < |pages|
    ensures Candidates(identity, pages[k]) == Rows(pages[k].rows, identity, request)
  {
    hide ListTasks, Consistent;
    assert SameFilter(pages[0].request, pages[k].request);
  }

  lemma TwiceNeeds(rank: Collation, identity: Identity, request: ListRequest, before: Table, after: Table, id: Str,
      pages: seq<PageCall>, c: nat)
    requires id in Rows(before, identity, request) && id in Rows(after, identity, request)
    requires GivenTwice(rank, identity, request, before, after, id, pages, c)
    ensures id in before && id in after && after[id].updatedAt < before[id].updatedAt
    ensures HasOlder(rank, Rows(before, identity, request), id)
  {
    hide Follows, HasOlder, Rows, PageCall.Ids;
    var i, j :| 0 <= i < j < |pages| && id in pages[i].Ids() && id in pages[j].Ids();
    AgainMeansMovedBack(rank, identity, pages, i, j, id);
    NotLast(rank, identity, pages, i);
    PageAnswers(rank, identity, pages, i);
    OlderAfterPage(rank, identity, pages[i], id);
    SameRows(rank, identity, request, pages, i);
  }

  // ---------- moved back enough for twice ----------

  lemma OneByOne(table: Table, identity: Identity, request: ListRequest)
    requires Listable(table, identity, request)
    ensures Listable(table, identity, request.(pageSize := 1))
    ensures Rows(table, identity, request.(pageSize := 1)) == Rows(table, identity, request)
  {
    hide FullListing.Printable, VerifiedOwner, Consistent;
    assert Rows(table, identity, request.(pageSize := 1)) == Rows(table, identity, request);
  }

  /** A page of size 1 that holds a task with a row after it is not the last. */
  lemma OneOfMore(rank: Collation, identity: Identity, pages: seq<PageCall>, k: nat, id: Str)
    requires Follows(rank, identity, pages) && k < |pages| && pages[k].request.pageSize == 1
    requires id in pages[k].Ids() && id in Candidates(identity, pages[k])
    requires HasOlder(rank, Candidates(identity, pages[k]), id)
    ensures pages[k].Ids() == [id] && !pages[k].Last()
  {
    hide Newer, Follows, Candidates, ListTasks, Consistent, TokenKey, Page, Ordered, Below;
    var call, rows := pages[k], Candidates(identity, pages[k]);
    PageAnswers(rank, identity, pages, k);
    AnswerIsPage(rank, identity, call);
    assert |call.Ids()| <= 1;
    var other :| other in rows && Newer(rank, KeyOf(rows, id), KeyOf(rows, other));
    PageRange(rank, identity, pages, k, id);
    PageRange(rank, identity, pages, k, other);
    CandidateKey(identity, call, id);
    CandidateKey(identity, call, other);
    NotItself(rank, KeyOf(rows, id), KeyOf(rows, other));
    if call.Last() && k > 0 {
      NewerTransitive(rank, pages[k - 1].EndKey(), KeyOf(rows, id), KeyOf(rows, other));
    }
  }

  lemma NotItself(rank: Collation, a: Key, b: Key)
    requires Newer(rank, a, b)
    ensures a != b
  {
  }

  /** Page by page of size 1 a client comes to any task that has a row after it. */
  lemma WalkDown(rank: Collation, table: Table, identity: Identity, request: ListRequest, id: Str)
      returns (pages: seq<PageCall>)
    requires Listable(table, identity, request)
    requires id in Rows(table, identity, request) && HasOlder(rank, Rows(table, identity, request), id)
    ensures Follows(rank, identity, pages) && Untouched(table, pages) && SameFilter(request, pages[0].request)
    ensures
      var call := pages[|pages| - 1];
      && call.Ids() == [id] && !call.Last() && id in call.rows
      && call.response.nextPageToken == TokenOf(Some(KeyOf(Rows(table, identity, request), id)))
  {
    hide *;
    var one := request.(pageSize := 1);
    OneByOne(table, identity, request);
    ListingCompletes(rank, table, identity, one);
    NoCursor();
    WalkLists(rank, table, identity, one, None);
    var all := Walk(rank, table, identity, one, None);
    assert id in AllIds(all);
    SeenOnSomePage(all, id);
    var k :| 0 <= k < |all| && id in all[k].Ids();
    FirstPages(rank, table, identity, request, one, all, k);
    OneOfMore(rank, identity, all, k, id);
    PageAnswers(rank, identity, all, k);
    PageEnd(rank, identity, all[k]);
    CandidateKey(identity, all[k], id);
    KeyToken(all[k].rows, id);
    pages := all[..k + 1];
    assert pages[|pages| - 1] == all[k];
  }

  lemma FirstPages(rank: Collation, table: Table, identity: Identity, request: ListRequest, one: ListRequest,
      all: seq<PageCall>, k: nat)
    requires one == request.(pageSize := 1) && k < |all|
    requires Follows(rank, identity, all) && Complete(rank, identity, one, all) && Untouched(table, all)
    ensures Follows(rank, identity, all[..k + 1]) && Untouched(table, all[..k + 1])
    ensures SameFilter(request, all[..k + 1][0].request)
    ensures all[k].request.pageSize == 1 && all[k].rows == table
    ensures Candidates(identity, all[k]) == Rows(table, identity, request)
  {
    hide Follows, PageCall.Answers, Continues, PageCall.Last;
    FollowsPrefix(rank, identity, all, k + 1);
    assert Candidates(identity, all[k]) == Rows(table, identity, request);
  }

  lemma KeyToken(rows: Table, id: Str)
    requires id in rows
    ensures PageToken(rows, id) == TokenOf(Some(KeyOf(rows, id)))
  {
    hide Cursor.EncodePageToken;
  }

  /** Pages over one table followed by pages over another that take up the token. */
  lemma PagesJoin(rank: Collation, identity: Identity, request: ListRequest, before: Table, after: Table,
      first: seq<PageCall>, second: seq<PageCall>)
    requires Follows(rank, identity, first) && Untouched(before, first) && SameFilter(request, first[0].request)
    requires Complete(rank, identity, request, second) && Untouched(after, second)
    requires !first[|first| - 1].Last() && second[0].request.pageToken == first[|first| - 1].response.nextPageToken
    ensures Follows(rank, identity, first + second) && Switches(first + second, |first|, before, after)
    ensures (first + second)[|first + second| - 1].Last() && SameFilter(request, (first + second)[0].request)
  {
    hide PageCall.Answers, PageCall.Last;
    var pages := first + second;
    forall i, k | 0 <= i < k < |pages| && k == i + 1
      ensures Continues(pages[i], pages[k])
    {
      if k < |first| {
        assert Continues(first[i], first[k]);
      } else if k > |first| {
        assert Continues(second[i - |first|], second[k - |first|]);
      }
    }
  }

  lemma Lower(rank: Collation, before: Table, after: Table, id: Str)
    requires id in before && id in after && after[id].updatedAt < before[id].updatedAt
    ensures Newer(rank, KeyOf(before, id), KeyOf(after, id))
  {
  }

  lemma TwiceBuilt(rank: Collation, identity: Identity, request: ListRequest, before: Table, after: Table, id: Str)
    returns (pages: seq<PageCall>, c: nat)
    requires Listable(before, identity, request) && Listable(after, identity, request)
    requires id in Rows(before, identity, request) && id in Rows(after, identity, request)
    requires id in before && id in after && after[id].updatedAt < before[id].updatedAt
    requires HasOlder(rank, Rows(before, identity, request), id)
    ensures GivenTwice(rank, identity, request, before, after, id, pages, c)
  {
    hide *;
    var first := WalkDown(rank, before, identity, request, id);
    var cursor := Some(KeyOf(Rows(before, identity, request), id));
    CursorPrintable(before, identity, request, id);
    CallAnswers(rank, after, identity, request, cursor);
    Sized(after, identity, request);
    WalkLists(rank, after, identity, request, cursor);
    var second := Walk(rank, after, identity, request, cursor);
    PagesJoin(rank, identity, request, before, after, first, second);
    SomePage(rank, identity, first);
    pages, c := first + second, |first|;
    assert pages[c - 1] == first[c - 1];
    Lower(rank, before, after, id);
    SeenAgain(rank, identity, request, before, after, pages, c, id);
  }

  lemma CursorPrintable(table: Table, identity: Identity, request: ListRequest, id: Str)
    requires Listable(table, identity, request) && id in Rows(table, identity, request)
    ensures FullListing.Printable(Some(KeyOf(Rows(table, identity, request), id)))
  {
    hide FullListing.Printable;
  }

  lemma SeenAgain(rank: Collation, identity: Identity, request: ListRequest, before: Table, after: Table,
      pages: seq<PageCall>, c: nat, id: Str)
    requires Follows(rank, identity, pages) && SameFilter(request, pages[0].request)
        && Switches(pages, c, before, after)
    requires 0 < c < |pages| && pages[|pages| - 1].Last() && pages[c - 1].Ids() == [id]
    requires id in Rows(after, identity, request) && id in before && id in after
    requires Newer(rank, KeyOf(before, id), KeyOf(after, id))
    ensures GivenTwice(rank, identity, request, before, after, id, pages, c)
  {
    hide Follows, Rows, Candidates, Newer, PageCall.Answers;
    forall n | c <= n < |pages|
      ensures id in Candidates(identity, pages[n]) && id in pages[n].rows
          && KeyOf(pages[n].rows, id) == KeyOf(after, id)
    {
      SameRows(rank, identity, request, pages, n);
    }
    assert pages[c - 1].rows == before && Continued(pages[c - 1]);
    Reached(rank, identity, pages, id, KeyOf(after, id), c);
    assert id in pages[c - 1].Ids();
  }

  // ---------- exactly when ----------

  /**
   For any two tables with printable times and a task that is asked for in both: there is a listing
   that follows the tokens, sees the first table and then the second, and gives the task twice, exactly
   when the task's time is earlier in the second and some row came after it in the first.
   */
  lemma TwiceExactly(rank: Collation, identity: Identity, request: ListRequest, before: Table, after: Table, id: Str)
    requires Listable(before, identity, request) && Listable(after, identity, request)
    requires id in Rows(before, identity, request) && id in Rows(after, identity, request)
    ensures id in before && id in after
    ensures (exists pages, c :: GivenTwice(rank, identity, request, before, after, id, pages, c))
       <==> after[id].updatedAt < before[id].updatedAt && HasOlder(rank, Rows(before, identity, request), id)
  {
    hide GivenTwice, Listable, HasOlder;
    if pages, c :| GivenTwice(rank, identity, request, before, after, id, pages, c) {
      TwiceNeeds(rank, identity, request, before, after, id, pages, c);
    }
    if after[id].updatedAt < before[id].updatedAt && HasOlder(rank, Rows(before, identity, request), id) {
      var pages, c := TwiceBuilt(rank, identity, request, before, after, id);
    }
  }

  /**
   So an update between two pages can make its task come twice exactly when it reads a clock behind the
   task's last write and the task was not the last of the listing.
   */
  lemma TwiceAfterUpdate(rank: Collation, identity: Identity, request: ListRequest, rows: Table, op: Op, id: Str)
    requires op.Update? && Apply(rank, rows, op).1.Version? && Target(op) == Some(id)
    requires Listable(rows, identity, request) && Listable(Apply(rank, rows, op).0, identity, request)
    requires id in Rows(rows, identity, request) && id in Rows(Apply(rank, rows, op).0, identity, request)
    ensures id in rows
    ensures (exists pages, c :: GivenTwice(rank, identity, request, rows, Apply(rank, rows, op).0, id, pages, c))
       <==> op.now < rows[id].updatedAt && HasOlder(rank, Rows(rows, identity, request), id)
  {
    hide GivenTwice, Listable, HasOlder, Apply, Rows;
    WrittenNow(rank, rows, op, id);
    TwiceExactly(rank, identity, request, rows, Apply(rank, rows, op).0, id);
  }
}
