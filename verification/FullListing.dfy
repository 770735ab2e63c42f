/** A client that keeps following the tokens of a quiet table reaches the end: such listings exist for every table. */
module FullListing {
  import opened Text
  import opened Auth
  import opened Tasks
  import opened Ordering
  import opened Listing
  import opened Pagination
  import opened QuietListing
  import Cursor

  /** The rows that a request is about. */
  function Rows(table: Table, identity: Identity, request: ListRequest): Table {
    Selected(table, OwnerOf(identity), request)
  }

  /** A verified identity asks for a page size that is allowed, and the rows it asks about have printable times. */
  ghost predicate Listable(table: Table, identity: Identity, request: ListRequest) {
    && Consistent(table)
    && VerifiedOwner(Some(identity)).Ok? && PageSize(request).Ok?
    && forall id | id in Rows(table, identity, request) :: Printable(Some(KeyOf(Rows(table, identity, request), id)))
  }

  /** A cursor that a token can carry. */
  predicate Printable(cursor: Option<Key>) {
    cursor.Some? ==> Cursor.Printable(cursor.value.time * 1000) && cursor.value.id != []
  }

  function TokenOf(cursor: Option<Key>): Str {
    if cursor.None? then [] else Cursor.EncodePageToken(cursor.value.time * 1000, cursor.value.id)
  }

  lemma TokenCarries(cursor: Option<Key>)
    requires Printable(cursor)
    ensures TokenKey(TokenOf(cursor)) == Text.Result.Ok(cursor)
  {
    hide Cursor.EncodePageToken, Cursor.DecodePageToken, Cursor.Printable;
    if cursor.Some? {
      Cursor.TokenNotEmpty(cursor.value.time * 1000, cursor.value.id);
      Cursor.DecodeEncode(cursor.value.time * 1000, cursor.value.id);
    }
  }

  // ---------- one call ----------

  /** The call that asks for what follows a cursor, and its answer. */
  function CallFrom(rank: Collation, table: Table, identity: Identity, request: ListRequest,
      cursor: Option<Key>): PageCall
    requires PageSize(request).Ok?
  {
    var asked := request.(pageToken := TokenOf(cursor));
    PageCall(table, asked, Page(rank, Rows(table, identity, request), asked, PageSize(request).value, cursor))
  }

  /** The cursor behind a full page. */
  function NextCursor(rank: Collation, rows: Table, size: nat, cursor: Option<Key>): (next: Option<Key>)
    requires size > 0 && |Below(rank, rows, cursor)| > size
    ensures next.Some?
  {
    PageMember(rank, rows, size, cursor, []);
    Some(KeyOf(rows, PageIds(rank, rows, size, cursor)[size - 1]))
  }

  lemma SubsetSmaller<T>(a: set<T>, b: set<T>, x: T)
    requires a <= b && x in b && x !in a
    ensures |a| < |b|
  {
    assert b == a + (b - a) && x in b - a;
  }

  lemma NextIsBelow(rank: Collation, rows: Table, size: nat, cursor: Option<Key>)
    requires size > 0 && |Below(rank, rows, cursor)| > size
    ensures
      var next := NextCursor(rank, rows, size, cursor);
      next.value.id in rows && next.value == KeyOf(rows, next.value.id) && Past(rank, cursor, next.value)
  {
    hide Newer, Below, Past;
    var ids := PageIds(rank, rows, size, cursor);
    PageMember(rank, rows, size, cursor, []);
    PageMember(rank, rows, size, cursor, ids[size - 1]);
    assert ids[size - 1] in ids;
  }

  /** Behind a full page there is less left. */
  lemma BelowShrinks(rank: Collation, rows: Table, size: nat, cursor: Option<Key>)
    requires size > 0 && |Below(rank, rows, cursor)| > size
    ensures |Below(rank, rows, NextCursor(rank, rows, size, cursor))| < |Below(rank, rows, cursor)|
  {
    hide NextCursor, PageIds, Ordered;
    var next := NextCursor(rank, rows, size, cursor);
    NextIsBelow(rank, rows, size, cursor);
    var before, after := Below(rank, rows, cursor), Below(rank, rows, next);
    forall id | id in after
      ensures id in before
    {
      if cursor.Some? {
        NewerTransitive(rank, cursor.value, next.value, KeyOf(rows, id));
      }
    }
    SubsetSmaller(after.Keys, before.Keys, next.value.id);
    assert |after| == |after.Keys| && |before| == |before.Keys|;
  }

  lemma SomePerPage(request: ListRequest)
    requires PageSize(request).Ok?
    ensures PageSize(request).value > 0
  {
  }

  // ---------- all calls ----------

  /** The calls of a client that starts behind a cursor and follows the tokens. */
  function Walk(rank: Collation, table: Table, identity: Identity, request: ListRequest,
      cursor: Option<Key>): (pages: seq<PageCall>)
    requires PageSize(request).Ok?
    ensures pages != [] && pages[0] == CallFrom(rank, table, identity, request, cursor)
    decreases |Below(rank, Rows(table, identity, request), cursor)|
  {
    hide *;
    SomePerPage(request);
    var rows, size := Rows(table, identity, request), PageSize(request).value;
    var call := CallFrom(rank, table, identity, request, cursor);
    if |Below(rank, rows, cursor)| <= size then [call]
    else
      BelowShrinks(rank, rows, size, cursor);
      [call] + Walk(rank, table, identity, request, NextCursor(rank, rows, size, cursor))
  }

  lemma CallAnswers(rank: Collation, table: Table, identity: Identity, request: ListRequest, cursor: Option<Key>)
    requires Listable(table, identity, request) && Printable(cursor)
    ensures CallFrom(rank, table, identity, request, cursor).Answers(rank, identity)
    ensures SameAsk(request, CallFrom(rank, table, identity, request, cursor).request)
    ensures CallFrom(rank, table, identity, request, cursor).rows == table
    ensures CallFrom(rank, table, identity, request, cursor).request.pageToken == TokenOf(cursor)
  {
    hide TokenKey, TokenOf, Page, VerifiedOwner, Printable;
    IdentityOwner(identity);
    TokenCarries(cursor);
    var asked := request.(pageToken := TokenOf(cursor));
    assert Selected(table, OwnerOf(identity), asked) == Rows(table, identity, request);
  }

  /** The answer carries the token of the next call, or none when nothing is left. */
  lemma CallContinues(rank: Collation, table: Table, identity: Identity, request: ListRequest, cursor: Option<Key>)
    requires PageSize(request).Ok?
    ensures PageSize(request).value > 0
    ensures
      var rows, size := Rows(table, identity, request), PageSize(request).value;
      var call := CallFrom(rank, table, identity, request, cursor);
      && (call.Last() <==> |Below(rank, rows, cursor)| <= size)
      && (!call.Last() ==> call.response.nextPageToken == TokenOf(NextCursor(rank, rows, size, cursor)))
  {
    hide Rows, Page, Below, PageIds, Cursor.EncodePageToken;
    var rows, size := Rows(table, identity, request), PageSize(request).value;
    PageEnds(rank, rows, request.(pageToken := TokenOf(cursor)), size, cursor);
  }

  predicate SameAsk(a: ListRequest, b: ListRequest) {
    SameFilter(a, b) && a.pageSize == b.pageSize
  }

  /** Pages that answer one request and pass on their tokens to the end. */
  ghost predicate Complete(rank: Collation, identity: Identity, request: ListRequest, pages: seq<PageCall>) {
    && pages != []
    && (forall k | 0 <= k < |pages| :: pages[k].Answers(rank, identity) && SameAsk(request, pages[k].request))
    && (forall i, k | 0 <= i < k < |pages| && k == i + 1 :: Continues(pages[i], pages[k]))
    && pages[|pages| - 1].Last()
  }

  predicate Untouched(table: Table, pages: seq<PageCall>) {
    forall k | 0 <= k < |pages| :: pages[k].rows == table
  }

  lemma ListedCons(rank: Collation, table: Table, identity: Identity, request: ListRequest, call: PageCall,
      pages: seq<PageCall>)
    requires call.Answers(rank, identity) && SameAsk(request, call.request) && call.rows == table
    requires pages != [] ==>
               Complete(rank, identity, request, pages) && Untouched(table, pages) && Continues(call, pages[0])
    requires pages == [] ==> call.Last()
    ensures Complete(rank, identity, request, [call] + pages) && Untouched(table, [call] + pages)
  {
    hide PageCall.Answers, Continues;
    var all := [call] + pages;
    forall i, k | 0 <= i < k < |all| && k == i + 1
      ensures Continues(all[i], all[k])
    {
      if i > 0 {
        assert Continues(pages[i - 1], pages[k - 1]);
      }
    }
  }

  lemma NextPrintable(rank: Collation, table: Table, identity: Identity, request: ListRequest, cursor: Option<Key>)
    requires Listable(table, identity, request) && PageSize(request).value > 0
    requires |Below(rank, Rows(table, identity, request), cursor)| > PageSize(request).value
    ensures Printable(NextCursor(rank, Rows(table, identity, request), PageSize(request).value, cursor))
  {
    hide Printable, NextCursor, Below, Rows, Past, VerifiedOwner, PageSize;
    NextIsBelow(rank, Rows(table, identity, request), PageSize(request).value, cursor);
  }

  lemma WalkIs(rank: Collation, table: Table, identity: Identity, request: ListRequest, cursor: Option<Key>)
    requires PageSize(request).Ok? && PageSize(request).value > 0
    ensures
      var rows, size := Rows(table, identity, request), PageSize(request).value;
      var rest := if |Below(rank, rows, cursor)| <= size then []
                  else Walk(rank, table, identity, request, NextCursor(rank, rows, size, cursor));
      Walk(rank, table, identity, request, cursor) == [CallFrom(rank, table, identity, request, cursor)] + rest
  {
    hide CallFrom, Rows, PageSize, Below, NextCursor;
  }

  lemma Sized(table: Table, identity: Identity, request: ListRequest)
    requires Listable(table, identity, request)
    ensures PageSize(request).Ok? && PageSize(request).value > 0
  {
  }

  lemma {:induction false} WalkLists(rank: Collation, table: Table, identity: Identity, request: ListRequest,
      cursor: Option<Key>)
    requires Listable(table, identity, request) && Printable(cursor)
    ensures Complete(rank, identity, request, Walk(rank, table, identity, request, cursor))
    ensures Untouched(table, Walk(rank, table, identity, request, cursor))
    decreases |Below(rank, Rows(table, identity, request), cursor)|
  {
    hide *;
    Sized(table, identity, request);
    var rows, size := Rows(table, identity, request), PageSize(request).value;
    var call := CallFrom(rank, table, identity, request, cursor);
    WalkIs(rank, table, identity, request, cursor);
    CallAnswers(rank, table, identity, request, cursor);
    CallContinues(rank, table, identity, request, cursor);
    if |Below(rank, rows, cursor)| <= size {
      ListedCons(rank, table, identity, request, call, []);
    } else {
      var next := NextCursor(rank, rows, size, cursor);
      BelowShrinks(rank, rows, size, cursor);
      NextPrintable(rank, table, identity, request, cursor);
      WalkLists(rank, table, identity, request, next);
      CallAnswers(rank, table, identity, request, next);
      PassesOn(call, CallFrom(rank, table, identity, request, next));
      ListedCons(rank, table, identity, request, call, Walk(rank, table, identity, request, next));
    }
  }

  lemma PassesOn(call: PageCall, next: PageCall)
    requires !call.Last() && next.request.pageToken == call.response.nextPageToken
    ensures Continues(call, next)
  {
  }

  lemma ListedFollows(rank: Collation, table: Table, identity: Identity, request: ListRequest, pages: seq<PageCall>)
    requires Complete(rank, identity, request, pages) && Untouched(table, pages)
    requires pages[0].request.pageToken == []
    ensures Follows(rank, identity, pages) && Quiet(pages) && pages[|pages| - 1].Last()
    ensures Candidates(identity, pages[0]) == Rows(table, identity, request)
  {
    hide PageCall.Answers, Continues, PageCall.Last;
    assert Selected(table, OwnerOf(identity), pages[0].request) == Rows(table, identity, request);
  }

  lemma NoCursor()
    ensures Printable(None) && TokenOf(None) == []
  {
  }

  /** Every such table has a complete listing of any page size, which follows the tokens and gives all of its rows. */
  lemma ListingCompletes(rank: Collation, table: Table, identity: Identity, request: ListRequest)
    requires Listable(table, identity, request)
    ensures PageSize(request).Ok?
    ensures
      var pages := Walk(rank, table, identity, request, None);
      && Follows(rank, identity, pages) && Quiet(pages) && pages[|pages| - 1].Last()
      && AllIds(pages) == Ordered(rank, Rows(table, identity, request))
  {
    hide *;
    NoCursor();
    Sized(table, identity, request);
    CallAnswers(rank, table, identity, request, None);
    WalkLists(rank, table, identity, request, None);
    var pages := Walk(rank, table, identity, request, None);
    ListedFollows(rank, table, identity, request, pages);
    PagesConcatenate(rank, identity, pages);
  }
}
