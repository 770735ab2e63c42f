/** What an owner can learn of the others: that a task id is taken, from a Create that is refused, and nothing else. */
module Ownership {
  import opened Text
  import opened Errors
  import opened Tasks
  import opened Ordering
  import opened Listing
  import opened Operations
  import opened History
  import opened Isolation
  import Auth

  predicate OwnRow(rows: Table, owner: Owner, id: Str) {
    id in rows && rows[id].owner == owner
  }

  /** The tables agree on one owner's rows; of everybody else's they need have nothing in common. */
  ghost predicate SameOwn(a: Table, b: Table, owner: Owner) {
    forall id :: (OwnRow(a, owner, id) <==> OwnRow(b, owner, id)) && (OwnRow(a, owner, id) ==> a[id] == b[id])
  }

  lemma SelectedOwn(a: Table, b: Table, owner: Owner, request: ListRequest)
    requires SameOwn(a, b, owner)
    ensures Selected(a, owner, request) == Selected(b, owner, request)
  {
    forall id
      ensures id in Selected(a, owner, request) <==> id in Selected(b, owner, request)
      ensures id in Selected(a, owner, request) ==> Selected(a, owner, request)[id] == Selected(b, owner, request)[id]
    {
      assert OwnRow(a, owner, id) <==> OwnRow(b, owner, id);
    }
  }

  lemma ListOwn(rank: Collation, a: Table, b: Table, owner: Owner, op: Op)
    requires SameOwn(a, b, owner) && op.List? && ActsFor(op, owner)
    ensures ListTasks(rank, a, op.identity, op.listRequest) == ListTasks(rank, b, op.identity, op.listRequest)
  {
    hide VerifiedOwner, Page, TokenKey, PageSize, Selected, SameOwn;
    if op.listRequest.Some? {
      SelectedOwn(a, b, owner, op.listRequest.value);
    }
  }

  /** Get, List and Update answer the same on such tables, and leave the owner's rows the same. */
  lemma OwnCallsAgree(rank: Collation, a: Table, b: Table, owner: Owner, op: Op)
    requires SameOwn(a, b, owner) && ActsFor(op, owner) && !op.Create?
    ensures Apply(rank, a, op).1 == Apply(rank, b, op).1
    ensures SameOwn(Apply(rank, a, op).0, Apply(rank, b, op).0, owner)
  {
    hide Auth.OwnerKey, VerifiedOwner, ListTasks, Conflict, NextRow;
    if op.List? {
      ListOwn(rank, a, b, owner, op);
    } else {
      var id := if op.Get? then op.taskId
                else if RequestTask(op.request).Some? then op.request.value.task.value.id else [];
      assert OwnRow(a, owner, id) <==> OwnRow(b, owner, id);
      if op.Update? {
        NextKeepsOwner(a, owner, id, op);
      }
    }
  }

  lemma NextKeepsOwner(rows: Table, owner: Owner, id: Str, op: Op)
    requires op.Update?
    ensures id in rows && RequestTask(op.request).Some? ==>
              NextRow(rows[id], RequestTask(op.request).value, op.now).owner == rows[id].owner
  {
  }

  /** The owner cannot create the id because somebody else has it. */
  predicate TakenByOther(rows: Table, owner: Owner, op: Op) {
    op.Create? && op.task.Some? && op.task.value.id != []
    && op.task.value.id in rows && rows[op.task.value.id].owner != owner
  }

  /** Create tells such tables apart exactly when in one of them, and only there, the id is somebody else's. */
  lemma CreateTells(rank: Collation, a: Table, b: Table, owner: Owner, op: Op)
    requires SameOwn(a, b, owner) && ActsFor(op, owner) && op.Create?
    ensures Apply(rank, a, op).1 == Apply(rank, b, op).1
       <==> (TakenByOther(a, owner, op) <==> TakenByOther(b, owner, op))
    ensures Apply(rank, a, op).1 == Apply(rank, b, op).1 ==>
              SameOwn(Apply(rank, a, op).0, Apply(rank, b, op).0, owner)
  {
    hide Auth.OwnerKey, VerifiedOwner, ListTasks;
    var id := if op.task.Some? then op.task.value.id else [];
    assert OwnRow(a, owner, id) <==> OwnRow(b, owner, id);
  }

  /** Nobody else's call touches the owner's rows. */
  lemma OthersKeepOwn(rank: Collation, rows: Table, owner: Owner, op: Op)
    requires !ActsFor(op, owner)
    ensures SameOwn(rows, Apply(rank, rows, op).0, owner)
  {
    hide Auth.OwnerKey, VerifiedOwner, ListTasks, Conflict;
  }

  // ---------- whole histories ----------

  /** The owner's calls and answers in a log, except Creates of ids that were somebody else's. */
  function Story(rank: Collation, log: seq<Event>, owner: Owner): seq<Event> {
    if log == [] then []
    else
      var init, e := log[..|log| - 1], log[|log| - 1];
      Story(rank, init, owner)
      + if ActsFor(e.op, owner) && !TakenByOther(After(rank, init), owner, e.op) then [e] else []
  }

  predicate AllOwn(rows: Table, owner: Owner) {
    forall id | id in rows :: rows[id].owner == owner
  }

  lemma StaysAllOwn(rank: Collation, rows: Table, owner: Owner, op: Op)
    requires AllOwn(rows, owner) && ActsFor(op, owner)
    ensures AllOwn(Apply(rank, rows, op).0, owner)
  {
    hide Auth.OwnerKey, VerifiedOwner, ListTasks, Conflict;
  }

  lemma NothingShared(owner: Owner)
    ensures SameOwn(map[], map[], owner) && AllOwn(map[], owner)
  {
  }

  lemma SameOwnThrough(a: Table, b: Table, c: Table, owner: Owner)
    requires SameOwn(a, b, owner) && SameOwn(a, c, owner)
    ensures SameOwn(c, b, owner)
  {
    forall id
      ensures (OwnRow(c, owner, id) <==> OwnRow(b, owner, id)) && (OwnRow(c, owner, id) ==> c[id] == b[id])
    {
      assert OwnRow(a, owner, id) <==> OwnRow(b, owner, id);
      assert OwnRow(a, owner, id) <==> OwnRow(c, owner, id);
    }
  }

  /** A call of the owner is answered the same on its own rows alone. */
  lemma AgreesAlone(rank: Collation, rows: Table, alone: Table, owner: Owner, op: Op)
    requires SameOwn(rows, alone, owner) && AllOwn(alone, owner)
    requires ActsFor(op, owner) && !TakenByOther(rows, owner, op)
    ensures Apply(rank, rows, op).1 == Apply(rank, alone, op).1
    ensures SameOwn(Apply(rank, rows, op).0, Apply(rank, alone, op).0, owner)
    ensures AllOwn(Apply(rank, alone, op).0, owner)
  {
    hide Apply, ActsFor, SameOwn;
    StaysAllOwn(rank, alone, owner, op);
    if op.Create? {
      CreateTells(rank, rows, alone, owner, op);
    } else {
      OwnCallsAgree(rank, rows, alone, owner, op);
    }
  }

  /** A refused Create changes nothing, and neither does anybody else change the owner's rows. */
  lemma LeavesOwn(rank: Collation, rows: Table, owner: Owner, op: Op)
    requires !ActsFor(op, owner) || TakenByOther(rows, owner, op)
    ensures SameOwn(rows, Apply(rank, rows, op).0, owner)
  {
    hide VerifiedOwner;
    if !ActsFor(op, owner) {
      OthersKeepOwn(rank, rows, owner, op);
    }
  }

  /**
   What an owner calls and is answered is a history of its own, as if nobody else were there, but for
   the Creates of ids that others have.
   */
  lemma {:induction false} StoryIsLegal(rank: Collation, log: seq<Event>, owner: Owner)
    requires Legal(rank, log)
    ensures Legal(rank, Story(rank, log, owner))
    ensures SameOwn(After(rank, log), After(rank, Story(rank, log, owner)), owner)
    ensures AllOwn(After(rank, Story(rank, log, owner)), owner)
  {
    hide Apply, ActsFor, Legal, After, Story, SameOwn, AllOwn, TakenByOther;
    if log == [] {
      StoryOfNothing(rank, owner);
    } else {
      var init, e := log[..|log| - 1], log[|log| - 1];
      LegalPrefix(rank, log, |log| - 1);
      Answered(rank, log, |log| - 1);
      AfterStep(rank, log, |log| - 1);
      assert log[..|log| - 1 + 1] == log;
      StoryIsLegal(rank, init, owner);
      var rows, story := After(rank, init), Story(rank, init, owner);
      StoryOneMore(rank, log, owner);
      if ActsFor(e.op, owner) && !TakenByOther(rows, owner, e.op) {
        AgreesAlone(rank, rows, After(rank, story), owner, e.op);
        LegalSnoc(rank, story, e);
      } else {
        LeavesOwn(rank, rows, owner, e.op);
        SameOwnThrough(rows, After(rank, story), Apply(rank, rows, e.op).0, owner);
      }
    }
  }

  lemma StoryOfNothing(rank: Collation, owner: Owner)
    ensures Story(rank, [], owner) == [] && After(rank, []) == map[] && Legal(rank, [])
    ensures SameOwn(After(rank, []), After(rank, []), owner) && AllOwn(After(rank, []), owner)
  {
    NothingShared(owner);
  }

  lemma StoryOneMore(rank: Collation, log: seq<Event>, owner: Owner)
    requires log != []
    ensures
      var init, e := log[..|log| - 1], log[|log| - 1];
      Story(rank, log, owner)
      == if ActsFor(e.op, owner) && !TakenByOther(After(rank, init), owner, e.op) then Story(rank, init, owner) + [e]
         else Story(rank, init, owner)
  {
    hide ActsFor, After, TakenByOther;
  }
}
