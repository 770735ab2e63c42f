/** One owner's reads and updates are invisible to everyone else. */
module Isolation {
  import opened Text
  import opened Tasks
  import opened Ordering
  import opened Listing
  import opened Operations
  import opened History
  import Auth

  predicate ActsFor(op: Op, owner: Owner) {
    VerifiedOwner(op.identity) == Ok(owner)
  }

  function Ops(log: seq<Event>): seq<Op> {
    if log == [] then [] else Ops(log[..|log| - 1]) + [log[|log| - 1].op]
  }

  /** The calls that are left when every Get, List and Update of one owner is deleted. */
  function Without(ops: seq<Op>, owner: Owner): seq<Op> {
    if ops == [] then []
    else
      var op := ops[|ops| - 1];
      var before := Without(ops[..|ops| - 1], owner);
      if ActsFor(op, owner) && !op.Create? then before else before + [op]
  }

  /** The log of running some calls one at a time from the empty table. */
  function Rerun(rank: Collation, ops: seq<Op>): seq<Event> {
    if ops == [] then []
    else
      var log, op := Rerun(rank, ops[..|ops| - 1]), ops[|ops| - 1];
      log + [Event(op, Apply(rank, After(rank, log), op).1)]
  }

  /** What everybody else called and was answered. */
  function Others(log: seq<Event>, owner: Owner): seq<Event> {
    if log == [] then []
    else
      var e := log[|log| - 1];
      var before := Others(log[..|log| - 1], owner);
      if ActsFor(e.op, owner) then before else before + [e]
  }

  /** Tables that hold the same ids and differ only inside rows of one owner. */
  ghost predicate Alike(a: Table, b: Table, owner: Owner) {
    && a.Keys == b.Keys
    && (forall id | id in a :: a[id].owner == b[id].owner && (a[id].owner != owner ==> a[id] == b[id]))
  }

  lemma SelectedAlike(a: Table, b: Table, owner: Owner, other: Owner, request: ListRequest)
    requires Alike(a, b, owner) && other != owner
    ensures Selected(a, other, request) == Selected(b, other, request)
  {
  }

  lemma ListUnaffected(rank: Collation, a: Table, b: Table, owner: Owner, op: Op)
    requires Alike(a, b, owner) && op.List? && !ActsFor(op, owner)
    ensures ListTasks(rank, a, op.identity, op.listRequest) == ListTasks(rank, b, op.identity, op.listRequest)
  {
    hide VerifiedOwner, Page, TokenKey, PageSize, Selected;
    var who := VerifiedOwner(op.identity);
    if op.listRequest.Some? && who.Ok? {
      SelectedAlike(a, b, owner, who.value, op.listRequest.value);
    }
  }

  /** A call for anyone else cannot tell such tables apart. */
  lemma OthersUnaffected(rank: Collation, a: Table, b: Table, owner: Owner, op: Op)
    requires Alike(a, b, owner) && !ActsFor(op, owner)
    ensures Apply(rank, a, op).1 == Apply(rank, b, op).1
    ensures Alike(Apply(rank, a, op).0, Apply(rank, b, op).0, owner)
  {
    hide Auth.OwnerKey, VerifiedOwner, ListTasks, Conflict;
    if op.List? {
      ListUnaffected(rank, a, b, owner, op);
    }
  }

  /** A call of the owner leaves such tables alike, whether both run it or, if it is no Create, only one does. */
  lemma OwnUnnoticed(rank: Collation, a: Table, b: Table, owner: Owner, op: Op)
    requires Alike(a, b, owner) && ActsFor(op, owner)
    ensures op.Create? ==> Alike(Apply(rank, a, op).0, Apply(rank, b, op).0, owner)
    ensures !op.Create? ==> Alike(Apply(rank, a, op).0, b, owner)
  {
    hide Auth.OwnerKey, VerifiedOwner, ListTasks, Conflict;
  }

  lemma {:induction false} RerunLegal(rank: Collation, ops: seq<Op>)
    ensures Legal(rank, Rerun(rank, ops))
  {
    hide Apply, After, Legal;
    if ops != [] {
      RerunLegal(rank, ops[..|ops| - 1]);
      var log, op := Rerun(rank, ops[..|ops| - 1]), ops[|ops| - 1];
      LegalSnoc(rank, log, Event(op, Apply(rank, After(rank, log), op).1));
    } else {
      EmptyLegal(rank);
    }
  }

  lemma EmptyLegal(rank: Collation)
    ensures Legal(rank, [])
  {
  }

  lemma RerunSnoc(rank: Collation, ops: seq<Op>, op: Op)
    ensures
      var log := Rerun(rank, ops);
      var e := Event(op, Apply(rank, After(rank, log), op).1);
      Rerun(rank, ops + [op]) == log + [e] && After(rank, log + [e]) == Apply(rank, After(rank, log), op).0
  {
    hide Apply;
    assert (ops + [op])[..|ops|] == ops;
    var log := Rerun(rank, ops);
    var e := Event(op, Apply(rank, After(rank, log), op).1);
    assert (log + [e])[..|log|] == log;
  }

  /**
   Deleting every Get, List and Update of one owner from a log changes no answer that anyone else
   got. Creates stay, because task ids are unique across owners.
   */
  lemma {:induction false} NonInterference(rank: Collation, log: seq<Event>, owner: Owner)
    requires Legal(rank, log)
    ensures
      var rerun := Rerun(rank, Without(Ops(log), owner));
      Others(rerun, owner) == Others(log, owner) && Alike(After(rank, log), After(rank, rerun), owner)
  {
    hide Apply, ActsFor, Legal, Without, Rerun, Others, After, Ops, Alike;
    if log == [] {
      NothingAlike(rank, owner);
    } else {
      var init, e := log[..|log| - 1], log[|log| - 1];
      LegalPrefix(rank, log, |log| - 1);
      Answered(rank, log, |log| - 1);
      NonInterference(rank, init, owner);
      var rows, kept := After(rank, init), Without(Ops(init), owner);
      var rerun := Rerun(rank, kept);
      var again := Event(e.op, Apply(rank, After(rank, rerun), e.op).1);
      LastCall(rank, log, owner);
      RerunSnoc(rank, kept, e.op);
      OthersSnoc(rerun, again, owner);
      if ActsFor(e.op, owner) {
        OwnUnnoticed(rank, rows, After(rank, rerun), owner, e.op);
      } else {
        OthersUnaffected(rank, rows, After(rank, rerun), owner, e.op);
      }
    }
  }

  lemma NothingAlike(rank: Collation, owner: Owner)
    ensures Others(Rerun(rank, Without(Ops([]), owner)), owner) == Others([], owner)
    ensures Alike(After(rank, []), After(rank, Rerun(rank, Without(Ops([]), owner))), owner)
  {
  }

  lemma OthersSnoc(log: seq<Event>, e: Event, owner: Owner)
    ensures Others(log + [e], owner) == if ActsFor(e.op, owner) then Others(log, owner) else Others(log, owner) + [e]
  {
    assert (log + [e])[..|log|] == log;
  }

  /** A log taken apart at its last call. */
  lemma LastCall(rank: Collation, log: seq<Event>, owner: Owner)
    requires log != []
    ensures
      var init, e := log[..|log| - 1], log[|log| - 1];
      && After(rank, log) == Apply(rank, After(rank, init), e.op).0
      && Others(log, owner) == (if ActsFor(e.op, owner) then Others(init, owner) else Others(init, owner) + [e])
      && Without(Ops(log), owner)
         == (if ActsFor(e.op, owner) && !e.op.Create? then Without(Ops(init), owner)
             else Without(Ops(init), owner) + [e.op])
  {
    hide Apply, ActsFor;
    var init := log[..|log| - 1];
    OpsLength(init);
    assert Ops(log)[..|init|] == Ops(init);
  }

  lemma {:induction false} OpsLength(log: seq<Event>)
    ensures |Ops(log)| == |log|
  {
    if log != [] {
      OpsLength(log[..|log| - 1]);
    }
  }
}
