/** A client that lists while every other call of any client runs: the pages it gets, over every interleaving. */
module ListingRuns {
  import opened Text
  import opened Auth
  import opened Tasks
  import opened Ordering
  import opened Listing
  import opened Pagination
  import opened Operations
  import opened History
  import opened Transactions

  /** At place `i` of the log stands an answered List call of one client. */
  predicate IsPage(log: seq<Event>, identity: Identity, i: nat) {
    && i < |log|
    && log[i].op.List? && log[i].op.identity == Some(identity) && log[i].op.listRequest.Some?
    && log[i].reply.Listed?
  }

  /** The next call asks for the same tasks and passes on the token it was given. */
  predicate Next(e: Event, e': Event)
    requires e.op.List? && e.op.listRequest.Some? && e.reply.Listed? && e'.op.List? && e'.op.listRequest.Some?
  {
    && e.reply.response.nextPageToken != []
    && e'.op.listRequest.value.pageToken == e.reply.response.nextPageToken
    && SameFilter(e.op.listRequest.value, e'.op.listRequest.value)
  }

  /** The places in a log where one client starts a listing and follows its tokens. */
  ghost predicate ClientListing(log: seq<Event>, identity: Identity, at: seq<nat>) {
    && at != []
    && (forall k | 0 <= k < |at| :: IsPage(log, identity, at[k]))
    && log[at[0]].op.listRequest.value.pageToken == []
    && (forall i, k | 0 <= i < k < |at| && k == i + 1 :: at[i] < at[k] && Next(log[at[i]], log[at[k]]))
  }

  function PageAt(rank: Collation, log: seq<Event>, identity: Identity, i: nat): PageCall
    requires IsPage(log, identity, i)
  {
    PageCall(After(rank, log[..i]), log[i].op.listRequest.value, log[i].reply.response)
  }

  function Pages(rank: Collation, log: seq<Event>, identity: Identity, at: seq<nat>): (pages: seq<PageCall>)
    requires forall k | 0 <= k < |at| :: IsPage(log, identity, at[k])
    ensures |pages| == |at| && forall k | 0 <= k < |at| :: pages[k] == PageAt(rank, log, identity, at[k])
  {
    seq(|at|, k requires 0 <= k < |at| => PageAt(rank, log, identity, at[k]))
  }

  lemma PageAnswers(rank: Collation, log: seq<Event>, identity: Identity, i: nat)
    requires Legal(rank, log) && IsPage(log, identity, i)
    ensures PageAt(rank, log, identity, i).Answers(rank, identity)
  {
    hide ListTasks, Consistent, After, Legal;
    Answered(rank, log, i);
    AfterConsistent(rank, log[..i]);
  }

  lemma {:induction false} FilterCarried(log: seq<Event>, identity: Identity, at: seq<nat>, k: nat)
    requires ClientListing(log, identity, at) && k < |at|
    ensures SameFilter(log[at[0]].op.listRequest.value, log[at[k]].op.listRequest.value)
  {
    if k > 0 {
      FilterCarried(log, identity, at, k - 1);
      assert Next(log[at[k - 1]], log[at[k]]);
    }
  }

  /** Whatever else is done in between, the pages that one client gets are a listing. */
  lemma ListingFollows(rank: Collation, log: seq<Event>, identity: Identity, at: seq<nat>)
    requires Legal(rank, log)
    requires ClientListing(log, identity, at)
    ensures Follows(rank, identity, Pages(rank, log, identity, at))
  {
    hide ListTasks, Consistent, After, Legal;
    var pages := Pages(rank, log, identity, at);
    forall k | 0 <= k < |pages|
      ensures pages[k].Answers(rank, identity) && SameFilter(pages[0].request, pages[k].request)
    {
      PageAnswers(rank, log, identity, at[k]);
      FilterCarried(log, identity, at, k);
    }
    forall i, k | 0 <= i < k < |pages| && k == i + 1
      ensures Continues(pages[i], pages[k])
    {
      assert at[i] < at[k] && Next(log[at[i]], log[at[k]]);
    }
  }

  /** Call `n` of the log updates the task and reads a clock that is behind the task's last write. */
  ghost predicate MovesBack(rank: Collation, log: seq<Event>, n: nat, id: Str)
    requires n < |log|
  {
    && Writes(log[n], id) && id in After(rank, log[..n]) && id in After(rank, log[..n + 1])
    && After(rank, log[..n + 1])[id].updatedAt < After(rank, log[..n])[id].updatedAt
  }

  /** It is an update, and what it reads from the clock is what is behind. */
  lemma MovesBackMeans(rank: Collation, log: seq<Event>, n: nat, id: Str)
    requires Legal(rank, log) && n < |log| && MovesBack(rank, log, n, id)
    ensures log[n].op.Update? && id in After(rank, log[..n]) && log[n].op.now < After(rank, log[..n])[id].updatedAt
  {
    hide Apply, After, Legal;
    Answered(rank, log, n);
    AfterStep(rank, log, n);
    WrittenNow(rank, After(rank, log[..n]), log[n].op, id);
    WriteCounts(rank, After(rank, log[..n]), log[n].op, id);
  }

  /** Without such an update a task stays, and its time does not go back. */
  lemma {:induction false} TimeGrows(rank: Collation, log: seq<Event>, i: nat, j: nat, id: Str)
    requires i <= j <= |log| && Legal(rank, log)
    requires forall n | i <= n < j :: !MovesBack(rank, log, n, id)
    requires id in After(rank, log[..i])
    ensures id in After(rank, log[..j]) && After(rank, log[..j])[id].updatedAt >= After(rank, log[..i])[id].updatedAt
    decreases j
  {
    hide Apply, After, Legal;
    if i < j {
      TimeGrows(rank, log, i, j - 1, id);
      AfterStep(rank, log, j - 1);
      Answered(rank, log, j - 1);
      WriteCounts(rank, After(rank, log[..j - 1]), log[j - 1].op, id);
      assert !MovesBack(rank, log, j - 1, id);
    }
  }

  lemma PagesNeverBack(rank: Collation, log: seq<Event>, identity: Identity, at: seq<nat>, id: Str)
    requires Legal(rank, log) && ClientListing(log, identity, at)
    requires forall n | at[0] <= n < at[|at| - 1] :: !MovesBack(rank, log, n, id)
    ensures NeverBack(Pages(rank, log, identity, at), id)
  {
    hide After, Legal, MovesBack;
    var pages := Pages(rank, log, identity, at);
    forall i, j | 0 <= i < j < |pages| && id in pages[i].rows && id in pages[j].rows
      ensures pages[i].rows[id].updatedAt <= pages[j].rows[id].updatedAt
    {
      Ascending(log, identity, at, 0, i);
      Ascending(log, identity, at, i, j);
      Ascending(log, identity, at, j, |at| - 1);
      TimeGrows(rank, log, at[i], at[j], id);
    }
  }

  /**
   Over every interleaving, a client that follows the tokens is given a task twice only if an update of
   that very task, between its first and its last page, reads a clock behind the task's last write.
   */
  lemma NoTaskTwiceInAnyRun(rank: Collation, actions: seq<Action>, db: Db, identity: Identity, at: seq<nat>, id: Str)
    requires Run(rank, EMPTY, actions, db)
    requires ClientListing(db.log, identity, at)
    requires forall n | at[0] <= n < at[|at| - 1] :: !MovesBack(rank, db.log, n, id)
    ensures multiset(AllIds(Pages(rank, db.log, identity, at)))[id] <= 1
  {
    hide Legal, Run, Follows, After, NeverBack, MovesBack;
    Linearizable(rank, actions, db);
    ListingFollows(rank, db.log, identity, at);
    PagesNeverBack(rank, db.log, identity, at, id);
    NoTaskTwice(rank, identity, Pages(rank, db.log, identity, at), id);
  }

  lemma {:induction false} UnwrittenStays(rank: Collation, log: seq<Event>, i: nat, j: nat, id: Str)
    requires i <= j <= |log|
    requires forall n | i <= n < j :: !Writes(log[n], id)
    requires id in After(rank, log[..i])
    requires Legal(rank, log)
    ensures id in After(rank, log[..j]) && After(rank, log[..j])[id] == After(rank, log[..i])[id]
    decreases j
  {
    hide Apply, After, Legal;
    if i < j {
      UnwrittenStays(rank, log, i, j - 1, id);
      AfterStep(rank, log, j - 1);
      Answered(rank, log, j - 1);
      WriteCounts(rank, After(rank, log[..j - 1]), log[j - 1].op, id);
    }
  }

  lemma PagesUndisturbed(rank: Collation, log: seq<Event>, identity: Identity, at: seq<nat>, id: Str)
    requires Legal(rank, log) && ClientListing(log, identity, at)
    requires id in After(rank, log[..at[0]])
    requires forall n | at[0] <= n < at[|at| - 1] :: !Writes(log[n], id)
    ensures Undisturbed(Pages(rank, log, identity, at), id)
  {
    hide After, Legal, Writes;
    forall k | 0 <= k < |at|
      ensures id in After(rank, log[..at[k]]) && After(rank, log[..at[k]])[id] == After(rank, log[..at[0]])[id]
    {
      Ascending(log, identity, at, 0, k);
      Ascending(log, identity, at, k, |at| - 1);
      UnwrittenStays(rank, log, at[0], at[k], id);
    }
  }

  /**
   Over every interleaving, whatever the clock does, a matching task that is there when the listing
   starts and that no call writes until it ends is given exactly once.
   */
  lemma ExactlyOnceInAnyRun(rank: Collation, actions: seq<Action>, db: Db, identity: Identity, at: seq<nat>, id: Str)
    requires Run(rank, EMPTY, actions, db)
    requires ClientListing(db.log, identity, at)
    requires db.log[at[|at| - 1]].reply.response.nextPageToken == []
    requires id in Candidates(identity, PageAt(rank, db.log, identity, at[0]))
    requires forall n | at[0] <= n < at[|at| - 1] :: !Writes(db.log[n], id)
    ensures multiset(AllIds(Pages(rank, db.log, identity, at)))[id] == 1
  {
    hide Legal, Run, Follows, After, Undisturbed, Candidates, Writes;
    Linearizable(rank, actions, db);
    ListingFollows(rank, db.log, identity, at);
    CandidateKey(identity, PageAt(rank, db.log, identity, at[0]), id);
    PagesUndisturbed(rank, db.log, identity, at, id);
    ExactlyOnce(rank, identity, Pages(rank, db.log, identity, at), id);
  }

  lemma {:induction false} Ascending(log: seq<Event>, identity: Identity, at: seq<nat>, i: nat, k: nat)
    requires ClientListing(log, identity, at) && i <= k < |at|
    ensures at[i] <= at[k]
    decreases k
  {
    if i < k {
      Ascending(log, identity, at, i, k - 1);
      assert at[k - 1] < at[k];
    }
  }
}
