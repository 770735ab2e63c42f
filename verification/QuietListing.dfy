/** A whole listing of a table that nobody writes to: its pages are the sorted rows, cut up. */
module QuietListing {
  import opened Text
  import opened Auth
  import opened Tasks
  import opened Ordering
  import opened Listing
  import opened Pagination

  ghost predicate Quiet(pages: seq<PageCall>) {
    forall i, j | 0 <= i <= j < |pages| :: pages[i].rows == pages[j].rows
  }

  lemma SameCandidates(rank: Collation, identity: Identity, pages: seq<PageCall>, k: nat)
    requires Follows(rank, identity, pages) && Quiet(pages)
    requires k < |pages|
    ensures Candidates(identity, pages[k]) == Candidates(identity, pages[0])
  {
    hide ListTasks, Consistent;
    assert pages[k].Answers(rank, identity) && SameFilter(pages[0].request, pages[k].request);
    assert forall id | id in pages[0].rows ::
        Matches(pages[0].rows[id], OwnerOf(identity), pages[k].request)
        == Matches(pages[0].rows[id], OwnerOf(identity), pages[0].request);
  }

  /** How many rows the first `k` pages hold. */
  function Seen(pages: seq<PageCall>, k: nat): nat
    requires k <= |pages|
  {
    |AllIds(pages[..k])|
  }

  /** After `k` pages a client has seen the first rows of the order, and the next page starts behind them. */
  ghost predicate AtCut(rank: Collation, identity: Identity, pages: seq<PageCall>, k: nat)
    requires k <= |pages| && pages != []
  {
    var rows := Candidates(identity, pages[0]);
    var m := Seen(pages, k);
    && m <= |rows|
    && AllIds(pages[..k]) == Ordered(rank, rows)[..m]
    && (k > 0 ==>
          && (pages[k - 1].Last() <==> m == |rows|)
          && (m < |rows| ==>
                && m > 0 && pages[k - 1].Ids() != []
                && pages[k - 1].Ids()[|pages[k - 1].Ids()| - 1] == Ordered(rank, rows)[m - 1]))
  }

  function Least(a: nat, b: nat): nat {
    if a < b then a else b
  }

  /** Past the first `m` rows of the order, a page is the next rows of the order. */
  lemma PageFromCut(rank: Collation, rows: Table, m: nat, pageSize: nat, cursor: Option<Key>)
    requires m <= |rows|
    requires m == 0 ==> cursor == None
    requires m > 0 ==> Ordered(rank, rows)[m - 1] in rows && cursor == Some(KeyOf(rows, Ordered(rank, rows)[m - 1]))
    ensures |Below(rank, rows, cursor)| == |rows| - m
    ensures PageIds(rank, rows, pageSize, cursor) == Ordered(rank, rows)[m..m + Least(pageSize, |rows| - m)]
  {
    hide Ordered, Newer;
    var ordered, take := Ordered(rank, rows), Least(pageSize, |rows| - m);
    if m == 0 {
      assert Below(rank, rows, cursor) == rows && ordered[0..] == ordered;
    } else {
      BelowIsSuffix(rank, rows, m);
    }
    assert |ordered[m..]| > pageSize ==> ordered[m..][..pageSize] == ordered[m..m + take];
    assert |ordered[m..]| <= pageSize ==> ordered[m..] == ordered[m..m + take];
  }

  /** The next page takes as many rows as it may from what is left. */
  lemma NextCut(rank: Collation, identity: Identity, pages: seq<PageCall>, k: nat)
    requires Follows(rank, identity, pages) && Quiet(pages)
    requires k < |pages| && AtCut(rank, identity, pages, k)
    ensures PageSize(pages[k].request).Ok?
    ensures Seen(pages, k + 1)
         == Seen(pages, k) + Least(PageSize(pages[k].request).value, |Candidates(identity, pages[0])| - Seen(pages, k))
    ensures pages[k].response.totalSize == |Candidates(identity, pages[0])|
    ensures AtCut(rank, identity, pages, k + 1)
  {
    hide Follows, Quiet, Candidates, Ordered, AllIds, PageSize;
    var call, rows := pages[k], Candidates(identity, pages[0]);
    var ordered, m := Ordered(rank, rows), Seen(pages, k);
    CutPage(rank, identity, pages, k);
    var take := Least(PageSize(call.request).value, |rows| - m);
    OnePageMore(pages, k);
    NextPiece(ordered, m, take, call.Ids());
  }

  lemma NextPiece(ordered: seq<Str>, m: nat, take: nat, ids: seq<Str>)
    requires m + take <= |ordered| && ids == ordered[m..m + take]
    ensures ordered[..m] + ids == ordered[..m + take]
    ensures take > 0 ==> ids != [] && ids[|ids| - 1] == ordered[m + take - 1]
  {
  }

  /** At the cut a page holds the next rows of the order, and a token exactly when rows are left after them. */
  lemma CutPage(rank: Collation, identity: Identity, pages: seq<PageCall>, k: nat)
    requires Follows(rank, identity, pages) && Quiet(pages)
    requires k < |pages| && AtCut(rank, identity, pages, k)
    ensures PageSize(pages[k].request).Ok? && PageSize(pages[k].request).value > 0
    ensures
      var rows, m := Candidates(identity, pages[0]), Seen(pages, k);
      var take := Least(PageSize(pages[k].request).value, |rows| - m);
      && m + take <= |rows| && pages[k].Ids() == Ordered(rank, rows)[m..m + take]
      && (pages[k].Last() <==> m + take == |rows|)
      && pages[k].response.totalSize == |rows|
  {
    hide ListTasks, Consistent, Matches, TokenKey, Newer, Shape, PageToken, PageIds, Ordered, Page, Below,
        AllIds;
    var call, rows := pages[k], Candidates(identity, pages[0]);
    AnswerIsPage(rank, identity, call);
    SameCandidates(rank, identity, pages, k);
    var cursor, pageSize := TokenKey(call.request.pageToken).value, PageSize(call.request).value;
    CutCursor(rank, identity, pages, k);
    PageFromCut(rank, rows, Seen(pages, k), pageSize, cursor);
    PageEnds(rank, rows, call.request, pageSize, cursor);
  }

  lemma OnePageMore(pages: seq<PageCall>, k: nat)
    requires k < |pages|
    ensures AllIds(pages[..k + 1]) == AllIds(pages[..k]) + pages[k].Ids()
  {
    assert pages[..k + 1][..k] == pages[..k] && pages[..k + 1][k] == pages[k];
  }

  lemma CutCursor(rank: Collation, identity: Identity, pages: seq<PageCall>, k: nat)
    requires Follows(rank, identity, pages) && Quiet(pages)
    requires k < |pages| && AtCut(rank, identity, pages, k)
    ensures TokenKey(pages[k].request.pageToken).Ok?
    ensures
      var rows := Candidates(identity, pages[0]);
      var m, cursor := Seen(pages, k), TokenKey(pages[k].request.pageToken).value;
      && (m == 0 ==> cursor == None)
      && (m > 0 ==> Ordered(rank, rows)[m - 1] in rows && cursor == Some(KeyOf(rows, Ordered(rank, rows)[m - 1])))
  {
    hide ListTasks, Consistent, Matches, TokenKey, Newer, Shape, PageToken, PageIds, Ordered;
    if k == 0 {
      FirstCursor();
    } else {
      NotLast(rank, identity, pages, k - 1);
      CursorIsEndKey(rank, identity, pages, k);
      var rows, m := Candidates(identity, pages[0]), Seen(pages, k);
      assert Ordered(rank, rows)[m - 1] in Ordered(rank, rows);
      assert pages[k - 1].rows == pages[0].rows;
    }
  }

  lemma {:induction false} EveryCut(rank: Collation, identity: Identity, pages: seq<PageCall>, k: nat)
    requires Follows(rank, identity, pages) && Quiet(pages)
    requires k <= |pages|
    ensures AtCut(rank, identity, pages, k)
  {
    hide ListTasks, Consistent, Matches, Ordered;
    if k > 0 {
      EveryCut(rank, identity, pages, k - 1);
      NextCut(rank, identity, pages, k - 1);
    } else {
      assert pages[..0] == [];
    }
  }

  /**
   A complete listing of a quiet table returns exactly the owner's matching rows, newest first,
   however its pages are sized; and every page reports their number.
   */
  lemma PagesConcatenate(rank: Collation, identity: Identity, pages: seq<PageCall>)
    requires Follows(rank, identity, pages) && Quiet(pages)
    requires pages[|pages| - 1].Last()
    ensures AllIds(pages) == Ordered(rank, Candidates(identity, pages[0]))
    ensures forall k | 0 <= k < |pages| :: pages[k].response.totalSize == |AllIds(pages)|
  {
    hide ListTasks, Consistent, Matches, Ordered;
    var n := |pages|;
    var ordered := Ordered(rank, Candidates(identity, pages[0]));
    assert pages[..n] == pages && ordered[..|ordered|] == ordered;
    EveryCut(rank, identity, pages, n);
    forall k | 0 <= k < n
      ensures pages[k].response.totalSize == |Candidates(identity, pages[0])|
    {
      EveryCut(rank, identity, pages, k);
      NextCut(rank, identity, pages, k);
    }
  }

  ghost predicate AllOfSize(pages: seq<PageCall>, size: nat) {
    size > 0 && forall k | 0 <= k < |pages| :: PageSize(pages[k].request) == Ok(size)
  }

  /** The rows that `k` pages of one size can hold. */
  function Capacity(k: nat, size: nat): nat {
    k * size
  }

  lemma CapacityStep(k: nat, size: nat, n: nat)
    ensures Least(Capacity(0, size), n) == 0
    ensures Capacity(k + 1, size) == Capacity(k, size) + size
  {
  }

  lemma {:induction false} SeenBySize(rank: Collation, identity: Identity, pages: seq<PageCall>, size: nat, k: nat)
    requires Follows(rank, identity, pages) && Quiet(pages) && AllOfSize(pages, size)
    requires k <= |pages|
    ensures Seen(pages, k) == Least(Capacity(k, size), |Candidates(identity, pages[0])|)
  {
    hide ListTasks, Consistent, Matches, PageSize, Capacity, Selected;
    var n := |Candidates(identity, pages[0])|;
    if k > 0 {
      SeenBySize(rank, identity, pages, size, k - 1);
      EveryCut(rank, identity, pages, k - 1);
      NextCut(rank, identity, pages, k - 1);
      CapacityStep(k - 1, size, n);
    } else {
      assert pages[..0] == [];
      CapacityStep(0, size, n);
    }
  }

  /** With one page size throughout, a complete listing of n rows takes max(1, ceil(n / size)) pages. */
  lemma PageCount(rank: Collation, identity: Identity, pages: seq<PageCall>, size: nat)
    requires Follows(rank, identity, pages) && Quiet(pages) && AllOfSize(pages, size)
    requires pages[|pages| - 1].Last()
    ensures
      var n := |Candidates(identity, pages[0])|;
      |pages| == if n == 0 then 1 else (n + size - 1) / size
  {
    hide ListTasks, Consistent, Matches, Selected, Ordered, AllIds, PageSize, Capacity;
    var n, count := |Candidates(identity, pages[0])|, |pages|;
    EveryCut(rank, identity, pages, count);
    SeenBySize(rank, identity, pages, size, count);
    if count > 1 {
      EveryCut(rank, identity, pages, count - 1);
      SeenBySize(rank, identity, pages, size, count - 1);
      NotLast(rank, identity, pages, count - 2);
    }
    CeilingDivision(n, size, count);
  }

  lemma CeilingDivision(n: nat, size: nat, count: nat)
    requires size > 0 && count > 0
    requires n <= Capacity(count, size)
    requires count > 1 ==> Capacity(count - 1, size) < n
    ensures count == if n == 0 then 1 else (n + size - 1) / size
  {
    CapacityStep(count - 1, size, n);
    if n > 0 {
      QuotientUnique(n + size - 1, size, count, n + size - 1 - Capacity(count, size));
    }
  }

  lemma QuotientUnique(x: int, d: nat, q: nat, r: int)
    requires 0 <= r < d && x == Capacity(q, d) + r
    ensures x / d == q
  {
    var q', r' := x / d, x % d;
    assert x == q' * d + r';
    assert (q - q') * d == r' - r;
    assert q - q' >= 1 ==> (q - q') * d >= d;
    assert q' - q >= 1 ==> (q' - q) * d >= d;
  }
}
