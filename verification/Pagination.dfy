/** Following NextPageToken while other clients write: no task twice, and no undisturbed task missed. */
module Pagination {
  import opened Text
  import opened Auth
  import opened Tasks
  import opened Ordering
  import opened Listing
  import Cursor

  /** One List call that answered: the committed rows it saw, what was asked, and the response. */
  datatype PageCall = PageCall(rows: Table, request: ListRequest, response: ListResponse) {
    ghost predicate Answers(rank: Collation, identity: Identity) {
      Consistent(rows) && ListTasks(rank, rows, Some(identity), Some(request)) == Ok(response)
    }

    /** The ids of the returned tasks, in order. */
    function Ids(): (ids: seq<Str>)
      ensures |ids| == |response.tasks| && forall i | 0 <= i < |ids| :: ids[i] == response.tasks[i].id
    {
      seq(|response.tasks|, i requires 0 <= i < |response.tasks| => response.tasks[i].id)
    }

    predicate Last() {
      response.nextPageToken == []
    }

    /** The key of the last task of the page. */
    function EndKey(): Key
      requires Ids() != [] && Ids()[|Ids()| - 1] in rows
    {
      KeyOf(rows, Ids()[|Ids()| - 1])
    }
  }

  predicate SameFilter(a: ListRequest, b: ListRequest) {
    a.contextId == b.contextId && a.status == b.status && a.statusTimestampAfter == b.statusTimestampAfter
  }

  /** A client that starts without a token and then follows the tokens it gets, page size and shape free to vary. */
  ghost predicate Follows(rank: Collation, identity: Identity, pages: seq<PageCall>) {
    && pages != []
    && pages[0].request.pageToken == []
    && (forall k | 0 <= k < |pages| ::
        pages[k].Answers(rank, identity) && SameFilter(pages[0].request, pages[k].request))
    && (forall i, k | 0 <= i < k < |pages| && k == i + 1 :: Continues(pages[i], pages[k]))
  }

  /** The next call passes the token on. Between the calls the table may have become any other. */
  predicate Continues(call: PageCall, next: PageCall) {
    !call.Last() && next.request.pageToken == call.response.nextPageToken
  }

  // ---------- one page ----------

  function OwnerOf(identity: Identity): Owner {
    Owner(identity.issuer, identity.tenant, identity.subject)
  }

  function Candidates(identity: Identity, call: PageCall): Table {
    Selected(call.rows, OwnerOf(identity), call.request)
  }

  lemma IdentityOwner(identity: Identity)
    ensures VerifiedOwner(Some(identity)).Ok? ==> VerifiedOwner(Some(identity)).value == OwnerOf(identity)
  {
  }

  lemma ShapeKeepsId(task: Task, request: ListRequest)
    ensures Shape(task, request).id == task.id
  {
  }

  /** A response is the page of the candidates past the request's cursor. */
  lemma AnswerIsPage(rank: Collation, identity: Identity, call: PageCall)
    requires call.Answers(rank, identity)
    ensures TokenKey(call.request.pageToken).Ok? && PageSize(call.request).Ok?
    ensures
      var candidates := Candidates(identity, call);
      var cursor := TokenKey(call.request.pageToken).value;
      var pageSize := PageSize(call.request).value;
      && call.Ids() == PageIds(rank, candidates, pageSize, cursor)
      && call.response == Page(rank, candidates, call.request, pageSize, cursor)
  {
    hide Cursor.EncodePageToken, VerifiedOwner, Matches, Shape, Ordered, TokenKey;
    IdentityOwner(identity);
    var candidates := Candidates(identity, call);
    var ids := PageIds(rank, candidates, PageSize(call.request).value, TokenKey(call.request.pageToken).value);
    forall i | 0 <= i < |ids|
      ensures call.response.tasks[i].id == ids[i]
    {
      ShapeKeepsId(candidates[ids[i]].task, call.request);
    }
  }

  lemma PageDistinct(rank: Collation, rows: Table, pageSize: nat, cursor: Option<Key>)
    ensures
      var ids := PageIds(rank, rows, pageSize, cursor);
      forall i, j | 0 <= i < j < |ids| :: ids[i] != ids[j]
  {
    hide Ordered;
    var below := Below(rank, rows, cursor);
    var ids := PageIds(rank, rows, pageSize, cursor);
    OrderedIsSorted(rank, below);
    forall i, j | 0 <= i < j < |ids|
      ensures ids[i] != ids[j]
    {
      assert Newer(rank, KeyOf(below, ids[i]), KeyOf(below, ids[j]));
    }
  }

  /** The ids of a page are those past the cursor, down to the last of them when there are more. */
  lemma PageMember(rank: Collation, rows: Table, pageSize: nat, cursor: Option<Key>, id: Str)
    requires pageSize > 0
    ensures
      var ids := PageIds(rank, rows, pageSize, cursor);
      var whole := |Below(rank, rows, cursor)| <= pageSize;
      && (!whole ==> |ids| == pageSize && ids[pageSize - 1] in rows)
      && (id in ids <==>
            && id in rows
            && Past(rank, cursor, KeyOf(rows, id))
            && (whole || !Newer(rank, KeyOf(rows, ids[pageSize - 1]), KeyOf(rows, id))))
  {
    hide Ordered, Newer, Past;
    var below := Below(rank, rows, cursor);
    if |below| > pageSize {
      PrefixIsNotBelow(rank, below, pageSize, id);
    }
  }

  lemma {:induction false} DistinctCount(ids: seq<Str>, id: Str)
    requires forall i, j | 0 <= i < j < |ids| :: ids[i] != ids[j]
    ensures multiset(ids)[id] == if id in ids then 1 else 0
  {
    if ids != [] {
      assert ids == [ids[0]] + ids[1..];
      DistinctCount(ids[1..], id);
    }
  }

  lemma OncePerPage(rank: Collation, identity: Identity, call: PageCall, id: Str)
    requires call.Answers(rank, identity)
    ensures multiset(call.Ids())[id] == if id in call.Ids() then 1 else 0
  {
    hide ListTasks, Candidates, PageIds, TokenKey;
    AnswerIsPage(rank, identity, call);
    PageDistinct(rank, Candidates(identity, call), PageSize(call.request).value,
        TokenKey(call.request.pageToken).value);
    DistinctCount(call.Ids(), id);
  }

  /** A page carries a token exactly when rows are left after it. */
  lemma PageEnds(rank: Collation, rows: Table, request: ListRequest, pageSize: nat, cursor: Option<Key>)
    requires pageSize > 0
    ensures Page(rank, rows, request, pageSize, cursor).nextPageToken == [] <==> |Below(rank, rows, cursor)| <= pageSize
    ensures |Below(rank, rows, cursor)| > pageSize ==>
              && |PageIds(rank, rows, pageSize, cursor)| == pageSize
              && Page(rank, rows, request, pageSize, cursor).nextPageToken
                 == PageToken(rows, PageIds(rank, rows, pageSize, cursor)[pageSize - 1])
    ensures Page(rank, rows, request, pageSize, cursor).totalSize == |rows|
  {
    hide Cursor.EncodePageToken, Below, Ordered;
    var ids := PageIds(rank, rows, pageSize, cursor);
    if |Below(rank, rows, cursor)| > pageSize {
      Cursor.TokenNotEmpty(rows[ids[pageSize - 1]].updatedAt * 1000, ids[pageSize - 1]);
    }
  }

  /** A page that is not the last ends in a candidate, and its token is made of that candidate's key. */
  lemma PageEnd(rank: Collation, identity: Identity, call: PageCall)
    requires call.Answers(rank, identity)
    ensures !call.Last() ==>
              && Continued(call)
              && call.Ids()[|call.Ids()| - 1] in Candidates(identity, call)
              && call.response.nextPageToken == PageToken(call.rows, call.Ids()[|call.Ids()| - 1])
  {
    hide ListTasks, Candidates, PageIds, TokenKey, PageToken, Below, Page;
    AnswerIsPage(rank, identity, call);
    var size, key := PageSize(call.request).value, TokenKey(call.request.pageToken).value;
    PageEnds(rank, Candidates(identity, call), call.request, size, key);
    if !call.Last() {
      var candidates, pageSize := Candidates(identity, call), PageSize(call.request).value;
      var cursor := TokenKey(call.request.pageToken).value;
      PageMember(rank, candidates, pageSize, cursor, []);
      CandidateKey(identity, call, call.Ids()[pageSize - 1]);
      SameToken(candidates, call.rows, call.Ids()[pageSize - 1]);
    }
  }

  lemma SameToken(candidates: Table, rows: Table, id: Str)
    requires id in candidates && id in rows && KeyOf(candidates, id) == KeyOf(rows, id)
    ensures PageToken(candidates, id) == PageToken(rows, id)
  {
    hide Cursor.EncodePageToken;
  }

  /** A page holds the candidates past its cursor: all of them when it is the last, else those down to its end key. */
  lemma OnPage(rank: Collation, identity: Identity, call: PageCall, id: Str)
    requires call.Answers(rank, identity)
    ensures TokenKey(call.request.pageToken).Ok?
    ensures !call.Last() ==> Continued(call)
    ensures id in call.Ids() <==>
      && id in Candidates(identity, call)
      && Past(rank, TokenKey(call.request.pageToken).value, KeyOf(Candidates(identity, call), id))
      && (call.Last() || !Newer(rank, call.EndKey(), KeyOf(Candidates(identity, call), id)))
  {
    hide ListTasks, Candidates, PageIds, TokenKey, PageToken, Below, Page, Newer, Past;
    AnswerIsPage(rank, identity, call);
    PageEnd(rank, identity, call);
    var candidates, pageSize := Candidates(identity, call), PageSize(call.request).value;
    var cursor := TokenKey(call.request.pageToken).value;
    PageMember(rank, candidates, pageSize, cursor, id);
    PageEnds(rank, candidates, call.request, pageSize, cursor);
    if |Below(rank, candidates, cursor)| > pageSize {
      CandidateKey(identity, call, call.Ids()[pageSize - 1]);
    }
  }

  // ---------- all pages ----------

  /** The ids a client has seen after all of its pages. */
  function AllIds(pages: seq<PageCall>): seq<Str> {
    if pages == [] then [] else AllIds(pages[..|pages| - 1]) + pages[|pages| - 1].Ids()
  }

  ghost predicate Continued(call: PageCall) {
    call.Ids() != [] && call.Ids()[|call.Ids()| - 1] in call.rows
  }

  /** Every later page starts exactly where the page before it ended: the token carried the key unchanged. */
  lemma CursorIsEndKey(rank: Collation, identity: Identity, pages: seq<PageCall>, k: nat)
    requires Follows(rank, identity, pages)
    requires 0 < k < |pages|
    ensures Continued(pages[k - 1])
    ensures TokenKey(pages[k].request.pageToken) == Ok(Some(pages[k - 1].EndKey()))
  {
    hide TokenKey, PageToken, ListTasks;
    var call := pages[k - 1];
    assert Continues(call, pages[k]);
    PageEnd(rank, identity, call);
    AnswerIsPage(rank, identity, pages[k]);
    TokenKeyRoundTrip(call.rows, call.Ids()[|call.Ids()| - 1]);
  }

  /** What one page returns, in terms of the end keys around it. */
  lemma PageRange(rank: Collation, identity: Identity, pages: seq<PageCall>, k: nat, id: Str)
    requires Follows(rank, identity, pages)
    requires k < |pages|
    ensures k > 0 ==> Continued(pages[k - 1])
    ensures !pages[k].Last() ==> Continued(pages[k])
    ensures id in pages[k].Ids() <==>
      && id in Candidates(identity, pages[k])
      && (k > 0 ==> Newer(rank, pages[k - 1].EndKey(), KeyOf(pages[k].rows, id)))
      && (!pages[k].Last() ==> !Newer(rank, pages[k].EndKey(), KeyOf(pages[k].rows, id)))
  {
    hide Follows, Candidates, TokenKey, Newer;
    PageAnswers(rank, identity, pages, k);
    OnPage(rank, identity, pages[k], id);
    if id in Candidates(identity, pages[k]) {
      CandidateKey(identity, pages[k], id);
    }
    if k > 0 {
      CursorIsEndKey(rank, identity, pages, k);
    } else {
      FirstCursor();
    }
  }

  lemma PageAnswers(rank: Collation, identity: Identity, pages: seq<PageCall>, k: nat)
    requires Follows(rank, identity, pages) && k < |pages|
    ensures pages[k].Answers(rank, identity)
    ensures pages[0].request.pageToken == []
  {
    hide Continues, ListTasks, Consistent;
  }

  lemma CandidateKey(identity: Identity, call: PageCall, id: Str)
    requires id in Candidates(identity, call)
    ensures id in call.rows && KeyOf(call.rows, id) == KeyOf(Candidates(identity, call), id)
  {
    hide Matches;
  }

  lemma FirstCursor()
    ensures TokenKey([]) == Ok(None)
  {
  }

  lemma {:induction false} EndKeysDescend(rank: Collation, identity: Identity, pages: seq<PageCall>, i: nat, j: nat)
    requires Follows(rank, identity, pages)
    requires i < j < |pages| && !pages[j].Last()
    ensures Continued(pages[i]) && Continued(pages[j])
    ensures Newer(rank, pages[i].EndKey(), pages[j].EndKey())
    decreases j
  {
    hide ListTasks, Selected, TokenKey, PageToken, Consistent;
    PageEnd(rank, identity, pages[j]);
    var id := pages[j].Ids()[|pages[j].Ids()| - 1];
    PageRange(rank, identity, pages, j, id);
    assert id in pages[j].Ids();
    if i < j - 1 {
      assert Continues(pages[j - 1], pages[j]);
      EndKeysDescend(rank, identity, pages, i, j - 1);
      NewerTransitive(rank, pages[i].EndKey(), pages[j - 1].EndKey(), pages[j].EndKey());
    }
  }

  lemma NewerTransitive(rank: Collation, a: Key, b: Key, c: Key)
    requires Newer(rank, a, b) && Newer(rank, b, c)
    ensures Newer(rank, a, c)
  {
  }

  // ---------- no task twice ----------

  /** A task that comes again on a later page has been moved back in time in between; nothing else can do that. */
  lemma AgainMeansMovedBack(rank: Collation, identity: Identity, pages: seq<PageCall>, i: nat, j: nat, id: Str)
    requires Follows(rank, identity, pages)
    requires i < j < |pages|
    requires id in pages[i].Ids() && id in pages[j].Ids()
    ensures id in pages[i].rows && id in pages[j].rows
    ensures pages[j].rows[id].updatedAt < pages[i].rows[id].updatedAt
  {
    hide Newer, Follows, Candidates, PageCall.Ids;
    NotLast(rank, identity, pages, i);
    NotLast(rank, identity, pages, j - 1);
    PageRange(rank, identity, pages, i, id);
    PageRange(rank, identity, pages, j, id);
    CandidateKey(identity, pages[i], id);
    CandidateKey(identity, pages[j], id);
    var end, before, after := pages[i].EndKey(), KeyOf(pages[i].rows, id), KeyOf(pages[j].rows, id);
    if i < j - 1 {
      EndKeysDescend(rank, identity, pages, i, j - 1);
      NewerTransitive(rank, end, pages[j - 1].EndKey(), after);
    }
    OnlyBackwards(rank, end, before, after);
  }

  /** Where one task's row is found on the pages, its time does not go back. */
  predicate NeverBack(pages: seq<PageCall>, id: Str) {
    forall i, j | 0 <= i < j < |pages| && id in pages[i].rows && id in pages[j].rows ::
      pages[i].rows[id].updatedAt <= pages[j].rows[id].updatedAt
  }

  lemma NotLast(rank: Collation, identity: Identity, pages: seq<PageCall>, k: nat)
    requires Follows(rank, identity, pages)
    requires k < |pages| - 1
    ensures !pages[k].Last()
  {
    assert Continues(pages[k], pages[k + 1]);
  }

  /** A row that was at or above a key gets below it only by losing time. */
  lemma OnlyBackwards(rank: Collation, end: Key, before: Key, after: Key)
    requires !Newer(rank, end, before) && Newer(rank, end, after)
    requires before.id == after.id
    ensures after.time < before.time
  {
  }

  lemma FollowsPrefix(rank: Collation, identity: Identity, pages: seq<PageCall>, n: nat)
    requires Follows(rank, identity, pages)
    requires 0 < n <= |pages|
    ensures Follows(rank, identity, pages[..n])
  {
    hide ListTasks, Consistent;
    forall i, k | 0 <= i < k < n && k == i + 1
      ensures Continues(pages[..n][i], pages[..n][k])
    {
      assert Continues(pages[i], pages[k]);
    }
  }

  lemma {:induction false} SeenOnSomePage(pages: seq<PageCall>, id: Str)
    ensures id in AllIds(pages) <==> exists k | 0 <= k < |pages| :: id in pages[k].Ids()
  {
    if pages != [] {
      var init := pages[..|pages| - 1];
      SeenOnSomePage(init, id);
      assert forall k | 0 <= k < |init| :: init[k] == pages[k];
    }
  }

  lemma SomePage(rank: Collation, identity: Identity, pages: seq<PageCall>)
    requires Follows(rank, identity, pages)
    ensures pages != []
  {
  }

  /**
   Whatever else becomes of the table between the pages, a client that follows the tokens is not given a
   task twice, as long as that task's own row does not go back in time.
   */
  lemma {:induction false} NoTaskTwice(rank: Collation, identity: Identity, pages: seq<PageCall>, id: Str)
    requires Follows(rank, identity, pages) && NeverBack(pages, id)
    ensures multiset(AllIds(pages))[id] == if id in AllIds(pages) then 1 else 0
    decreases |pages|
  {
    hide Follows;
    SomePage(rank, identity, pages);
    var n := |pages| - 1;
    var init, ids := pages[..n], pages[n].Ids();
    PageAnswers(rank, identity, pages, n);
    OncePerPage(rank, identity, pages[n], id);
    if n > 0 {
      FollowsPrefix(rank, identity, pages, n);
      NoTaskTwice(rank, identity, init, id);
      SeenOnSomePage(init, id);
      if id in AllIds(init) {
        var k :| 0 <= k < n && id in init[k].Ids();
        if id in ids {
          AgainMeansMovedBack(rank, identity, pages, k, n, id);
        }
      }
    }
    assert multiset(AllIds(pages)) == multiset(AllIds(init)) + multiset(ids);
  }

  // ---------- no undisturbed task missed ----------

  /** Until some page ends at or below an undisturbed candidate's key, no page has reached it; that page returns it. */
  lemma {:induction false} Reached(rank: Collation, identity: Identity, pages: seq<PageCall>, id: Str, key: Key, k: nat)
    requires Follows(rank, identity, pages)
    requires k < |pages| && pages[|pages| - 1].Last()
    requires forall n | k <= n < |pages| ::
               id in Candidates(identity, pages[n]) && id in pages[n].rows && KeyOf(pages[n].rows, id) == key
    requires k > 0 ==> Continued(pages[k - 1]) && Newer(rank, pages[k - 1].EndKey(), key)
    ensures exists n | k <= n < |pages| :: id in pages[n].Ids()
    decreases |pages| - k
  {
    hide Newer, Follows, Candidates, PageCall.Ids;
    PageRange(rank, identity, pages, k, id);
    if id !in pages[k].Ids() {
      Reached(rank, identity, pages, id, key, k + 1);
    }
  }

  /** The row of one task is the same on every page. */
  ghost predicate Undisturbed(pages: seq<PageCall>, id: Str) {
    forall i, j | 0 <= i < j < |pages| ::
      id in pages[i].rows && id in pages[j].rows && pages[j].rows[id] == pages[i].rows[id]
  }

  lemma StaysCandidate(rank: Collation, identity: Identity, pages: seq<PageCall>, id: Str, k: nat)
    requires Follows(rank, identity, pages) && Undisturbed(pages, id) && k < |pages|
    requires id in Candidates(identity, pages[0])
    ensures id in Candidates(identity, pages[k]) && id in pages[k].rows && id in pages[0].rows
    ensures KeyOf(pages[k].rows, id) == KeyOf(pages[0].rows, id)
  {
    hide ListTasks, Consistent;
    assert k > 0 ==> pages[k].rows[id] == pages[0].rows[id];
    assert SameFilter(pages[0].request, pages[k].request);
  }

  /**
   Whatever else becomes of the table, a matching task whose row stays as it is through a complete
   listing is returned exactly once.
   */
  lemma ExactlyOnce(rank: Collation, identity: Identity, pages: seq<PageCall>, id: Str)
    requires Follows(rank, identity, pages) && Undisturbed(pages, id)
    requires pages[|pages| - 1].Last()
    requires id in Candidates(identity, pages[0])
    ensures multiset(AllIds(pages))[id] == 1
  {
    hide Follows, Candidates, Newer;
    SomePage(rank, identity, pages);
    forall k | 0 <= k < |pages|
      ensures id in Candidates(identity, pages[k]) && id in pages[k].rows
      ensures KeyOf(pages[k].rows, id) == KeyOf(pages[0].rows, id)
    {
      StaysCandidate(rank, identity, pages, id, k);
    }
    Reached(rank, identity, pages, id, KeyOf(pages[0].rows, id), 0);
    SeenOnSomePage(pages, id);
    NoTaskTwice(rank, identity, pages, id);
  }
}
