/** Version numbers, conditional updates and isolation, over every interleaving of database steps. */
module Interleavings {
  import opened Text
  import opened Auth
  import opened Errors
  import opened Tasks
  import opened Ordering
  import opened Listing
  import opened Pagination
  import opened Operations
  import opened History
  import opened Isolation
  import opened Calls
  import opened Transactions
  import opened Serial
  import opened Ownership

  // ---------- versions ----------

  /** In commit order the versions returned for a task are 1, 2, 3, ..., and the last is the committed one. */
  lemma VersionsInAnyRun(rank: Collation, actions: seq<Action>, db: Db, id: Str)
    requires Run(rank, EMPTY, actions, db)
    ensures forall k | 0 <= k < |Versions(db.log, id)| :: Versions(db.log, id)[k] == k + 1
    ensures id in db.rows <==> Versions(db.log, id) != []
    ensures id in db.rows ==> db.rows[id].version == |Versions(db.log, id)|
  {
    hide *;
    Linearizable(rank, actions, db);
    VersionsGapFree(rank, db.log, id);
  }

  /** At most one conditional update per task and PrevVersion succeeds. */
  lemma ConditionalOnceInAnyRun(rank: Collation, actions: seq<Action>, db: Db, i: nat, j: nat, id: Str,
      prevVersion: int)
    requires Run(rank, EMPTY, actions, db) && i < |db.log| && j < |db.log|
    requires ConditionalSuccess(db.log[i], id, prevVersion) && ConditionalSuccess(db.log[j], id, prevVersion)
    ensures i == j
  {
    hide *;
    Linearizable(rank, actions, db);
    ConditionalOnce(rank, db.log, i, j, id, prevVersion);
  }

  /** It replaces exactly the committed state that carries its PrevVersion. */
  lemma ConditionalReplacesInAnyRun(rank: Collation, actions: seq<Action>, db: Db, i: nat, id: Str, prevVersion: int)
    requires Run(rank, EMPTY, actions, db) && i < |db.log| && ConditionalSuccess(db.log[i], id, prevVersion)
    ensures
      var before, after := After(rank, db.log[..i]), After(rank, db.log[..i + 1]);
      && id in before && before[id].version == prevVersion
      && db.log[i].op.Update? && RequestTask(db.log[i].op.request).Some?
      && after == before[id := NextRow(before[id], RequestTask(db.log[i].op.request).value, db.log[i].op.now)]
  {
    hide Run, Legal, After, NextRow;
    Linearizable(rank, actions, db);
    ConditionalReplaces(rank, db.log, i, id, prevVersion);
  }

  /**
   The Updates that the database answered with a conflict are exactly those of the caller's own tasks
   whose PrevVersion is neither 0 nor the version committed at that moment; one whose PrevVersion is
   either goes through and moves that version on by one.
   */
  lemma UpdatesInAnyRun(rank: Collation, actions: seq<Action>, db: Db, i: nat)
    requires Run(rank, EMPTY, actions, db) && i < |db.log| && db.log[i].op.Update?
    ensures
      var before, after := After(rank, db.log[..i]), After(rank, db.log[..i + 1]);
      var request, reply := db.log[i].op.request, db.log[i].reply;
      && (reply.Version? || reply == Failed(ConcurrentModification) || reply == Failed(TaskNotFound) ==>
            && request.Some? && request.value.task.Some?
            && var id, prevVersion := request.value.task.value.id, request.value.prevVersion;
               var has := Has(before, db.log[i].op.identity, id);
               && (reply == Failed(TaskNotFound) <==> !has)
               && (reply == Failed(ConcurrentModification) <==>
                     has && prevVersion != 0 && prevVersion != before[id].version)
               && (reply.Version? <==>
                     && has && (prevVersion == 0 || prevVersion == before[id].version)
                     && before[id].version < 9_223_372_036_854_775_807)
               && (reply.Version? ==>
                     && id in after && after == before[id := after[id]]
                     && reply.version == after[id].version == before[id].version + 1
                     && Holds(after[id], request.value.task.value) && after[id].updatedAt == db.log[i].op.now))
      && (!reply.Version? ==> after == before)
  {
    hide Run, Legal, After, Has, Holds, Apply;
    Linearizable(rank, actions, db);
    Answered(rank, db.log, i);
    AfterStep(rank, db.log, i);
    UpdateExactly(rank, After(rank, db.log[..i]), db.log[i].op.identity, db.log[i].op.request, db.log[i].op.now);
    HasId(After(rank, db.log[..i + 1]), db.log[i].op.identity, db.log[i].op.request);
  }

  lemma HasId(rows: Table, identity: Option<Identity>, request: Option<UpdateRequest>)
    ensures request.Some? && request.value.task.Some? && Has(rows, identity, request.value.task.value.id) ==>
              request.value.task.value.id in rows
  {
  }

  // ---------- what List and Get say of the committed rows ----------

  /**
   After every interleaving the columns that List filters by agree with the stored tasks: its filter
   selects exactly the ids whose task Get returns and the same filter wants, to the microsecond, and to
   the nanosecond when the request names no finer time.
   */
  lemma ListAgreesInAnyRun(rank: Collation, actions: seq<Action>, db: Db, identity: Identity, request: ListRequest,
      id: Str)
    requires Run(rank, EMPTY, actions, db) && VerifiedOwner(Some(identity)).Ok?
    ensures Consistent(db.rows)
    ensures
      var got := GetTask(db.rows, Some(identity), id);
      && (id in Selected(db.rows, OwnerOf(identity), request) <==> got.Ok? && Wanted(got.value.task, request, Micros))
      && (WholeMicros(request) ==>
            (id in Selected(db.rows, OwnerOf(identity), request)
             <==> got.Ok? && Wanted(got.value.task, request, t => t)))
  {
    hide Run, Legal, After, Consistent, VerifiedOwner, GetTask, Selected, Wanted, WholeMicros;
    Linearizable(rank, actions, db);
    AfterConsistent(rank, db.log);
    ListAgreesWithGet(db.rows, identity, request, id);
    var got := GetTask(db.rows, Some(identity), id);
    if got.Ok? && WholeMicros(request) {
      FilterExactTimes(got.value.task, request);
    }
  }

  // ---------- isolation ----------

  /**
   Running the calls of an interleaving alone and without one owner's reads and updates changes no
   answer to anyone else.
   */
  lemma NonInterferenceInAnyRun(rank: Collation, actions: seq<Action>, db: Db, owner: Owner)
    requires Run(rank, EMPTY, actions, db)
    ensures Others(Rerun(rank, Without(Ops(db.log), owner)), owner) == Others(db.log, owner)
  {
    hide *;
    Linearizable(rank, actions, db);
    NonInterference(rank, db.log, owner);
  }

  lemma {:induction false} StoryPlain(rank: Collation, log: seq<Event>, owner: Owner)
    requires AllPlain(log)
    ensures AllPlain(Story(rank, log, owner))
  {
    hide Plain, ActsFor, TakenByOther, After;
    if log != [] {
      StoryPlain(rank, log[..|log| - 1], owner);
    }
  }

  /**
   In every interleaving, what one owner calls and is answered could have happened with nobody else
   there, and so could its rows, but for the Creates of ids that others have: nothing else tells it of
   them.
   */
  lemma StoryHappensAlone(rank: Collation, actions: seq<Action>, db: Db, owner: Owner)
    requires Run(rank, EMPTY, actions, db)
    ensures Happens(rank, Story(rank, db.log, owner))
    ensures SameOwn(db.rows, After(rank, Story(rank, db.log, owner)), owner)
  {
    hide *;
    Linearizable(rank, actions, db);
    StoryIsLegal(rank, db.log, owner);
    NothingPlain();
    RunPlain(rank, EMPTY, actions, db);
    StoryPlain(rank, db.log, owner);
    HappensExactly(rank, Story(rank, db.log, owner));
  }

  /** An open update of the owner: it has locked or rewritten a row. */
  predicate OwnUpdate(t: Txn, owner: Owner) {
    !t.Inserted? && VerifiedOwner(t.identity) == Ok(owner)
  }

  /** A step of one of the owner's reads or updates. */
  predicate Dropped(db: Db, a: Action, owner: Owner) {
    match a
    case CreateInsert(_, _, _, _) => false
    case CreateRefuse(_, _) => false
    case UpdateLock(_, identity, _) => VerifiedOwner(identity) == Ok(owner)
    case UpdateRefuse(identity, _) => VerifiedOwner(identity) == Ok(owner)
    case UpdateReject(p) => p in db.open && OwnUpdate(db.open[p], owner)
    case UpdateFail(p) => p in db.open && OwnUpdate(db.open[p], owner)
    case UpdateWrite(p, _) => p in db.open && OwnUpdate(db.open[p], owner)
    case Commit(p) => p in db.open && OwnUpdate(db.open[p], owner)
    case Abort(p) => p in db.open && OwnUpdate(db.open[p], owner)
    case Read(op) => ActsFor(op, owner)
  }

  /** The interleaving with every step of the owner's reads and updates deleted. */
  function Stripped(rank: Collation, db: Db, actions: seq<Action>, owner: Owner): seq<Action>
    decreases |actions|
  {
    if actions == [] || !Enabled(db, actions[0]) then []
    else
      (if Dropped(db, actions[0], owner) then [] else [actions[0]])
      + Stripped(rank, Do(rank, db, actions[0]), actions[1..], owner)
  }

  /** The databases differ only inside the owner's rows, its open updates and the answers to it. */
  ghost predicate Twins(db: Db, twin: Db, owner: Owner) {
    && Alike(db.rows, twin.rows, owner)
    && (forall p :: p in twin.open <==> p in db.open && !OwnUpdate(db.open[p], owner))
    && (forall p | p in twin.open :: twin.open[p] == db.open[p])
    && Others(db.log, owner) == Others(twin.log, owner)
  }

  lemma OwnOpened(db: Db, twin: Db, p: nat, t: Txn, owner: Owner)
    requires Twins(db, twin, owner) && OwnUpdate(t, owner) && (p in db.open ==> OwnUpdate(db.open[p], owner))
    ensures Twins(db.(open := db.open[p := t]), twin, owner)
  {
    hide Alike, Others, OwnUpdate;
  }

  lemma OwnLogged(db: Db, twin: Db, e: Event, owner: Owner)
    requires Twins(db, twin, owner) && ActsFor(e.op, owner)
    ensures Twins(db.(log := db.log + [e]), twin, owner)
  {
    hide Alike, Others, OwnUpdate, ActsFor;
    OthersSnoc(db.log, e, owner);
  }

  lemma OwnEnded(db: Db, twin: Db, p: nat, rows: Table, owner: Owner)
    requires Twins(db, twin, owner) && p in db.open && OwnUpdate(db.open[p], owner)
    requires Alike(rows, twin.rows, owner)
    ensures Twins(db.(rows := rows, open := db.open - {p}), twin, owner)
  {
    hide Alike, Others, OwnUpdate;
  }

  /** Committing an update of the owner changes one of its own rows. */
  lemma OwnCommitAlike(db: Db, twin: Db, p: nat, owner: Owner)
    requires p in db.open && db.open[p].Written? && OwnUpdate(db.open[p], owner) && Fits(db.rows, db.open[p])
    requires Alike(db.rows, twin.rows, owner)
    ensures Alike(db.rows[db.open[p].Id() := db.open[p].row], twin.rows, owner)
  {
    hide VerifiedOwner;
  }

  /** A deleted step is one that nobody else can see. */
  lemma DroppedUnseen(rank: Collation, db: Db, twin: Db, a: Action, owner: Owner)
    requires Inv(rank, db) && Enabled(db, a) && Twins(db, twin, owner) && Dropped(db, a, owner)
    ensures Twins(Do(rank, db, a), twin, owner)
  {
    hide Twins, Others, VerifiedOwner, ListTasks, OwnerKey, Legal, After, Consistent, Apply, Fits, Alike, Refusal,
        Updatable, Owns;
    var db' := Do(rank, db, a);
    match a
    case UpdateLock(p, _, _) => OwnOpened(db, twin, p, db'.open[p], owner);
    case UpdateWrite(p, _) => OwnOpened(db, twin, p, db'.open[p], owner);
    case UpdateRefuse(_, _) => OwnLogged(db, twin, db'.log[|db.log|], owner);
    case Read(_) => OwnLogged(db, twin, db'.log[|db.log|], owner);
    case Abort(p) =>
      TwinRows(db, twin, owner);
      OwnEnded(db, twin, p, db.rows, owner);
    case UpdateReject(p) =>
      TwinRows(db, twin, owner);
      OwnEnded(db, twin, p, db.rows, owner);
      OwnLogged(db.(open := db.open - {p}), twin, db'.log[|db.log|], owner);
    case UpdateFail(p) =>
      TwinRows(db, twin, owner);
      OwnEnded(db, twin, p, db.rows, owner);
      OwnLogged(db.(open := db.open - {p}), twin, db'.log[|db.log|], owner);
    case Commit(p) =>
      TwinRows(db, twin, owner);
      OwnCommitAlike(db, twin, p, owner);
      OwnEnded(db, twin, p, db'.rows, owner);
      OwnLogged(db.(rows := db'.rows, open := db.open - {p}), twin, db'.log[|db.log|], owner);
  }

  lemma TwinRows(db: Db, twin: Db, owner: Owner)
    requires Twins(db, twin, owner)
    ensures Alike(db.rows, twin.rows, owner)
  {
  }

  lemma SameOpened(db: Db, twin: Db, p: nat, t: Txn, owner: Owner)
    requires Twins(db, twin, owner) && !OwnUpdate(t, owner)
    ensures Twins(db.(open := db.open[p := t]), twin.(open := twin.open[p := t]), owner)
  {
    hide Alike, Others, OwnUpdate;
  }

  /** An answer to the owner may differ; any other is the same. */
  lemma BothLogged(db: Db, twin: Db, e: Event, f: Event, owner: Owner)
    requires Twins(db, twin, owner) && e.op == f.op && (e == f || ActsFor(e.op, owner))
    ensures Twins(db.(log := db.log + [e]), twin.(log := twin.log + [f]), owner)
  {
    hide Alike, Others, OwnUpdate, ActsFor;
    OthersSnoc(db.log, e, owner);
    OthersSnoc(twin.log, f, owner);
  }

  lemma BothEnded(db: Db, twin: Db, p: nat, rows: Table, rows': Table, owner: Owner)
    requires Twins(db, twin, owner) && Alike(rows, rows', owner)
    ensures Twins(db.(rows := rows, open := db.open - {p}), twin.(rows := rows', open := twin.open - {p}), owner)
  {
    hide Alike, Others, OwnUpdate;
  }

  /** Whoever is not the owner finds the same row of its own in both. */
  lemma SameOwned(rows: Table, rows': Table, owner: Owner, other: Owner, id: Str)
    requires Alike(rows, rows', owner) && other != owner
    ensures Owns(rows, other, id) <==> Owns(rows', other, id)
    ensures Owns(rows, other, id) ==> rows[id] == rows'[id]
  {
  }

  /** The row written is the same in both, whatever stood there. */
  lemma SameWritten(rows: Table, rows': Table, owner: Owner, id: Str, row: Row)
    requires Alike(rows, rows', owner)
    ensures Alike(rows[id := row], rows'[id := row], owner)
  {
  }

  lemma KeptEnabled(rank: Collation, db: Db, twin: Db, a: Action, owner: Owner)
    requires Enabled(db, a) && Twins(db, twin, owner) && !Dropped(db, a, owner)
    ensures Enabled(twin, a)
  {
    hide VerifiedOwner, ListTasks, OwnerKey, Others, Alike, Owns;
    TwinRows(db, twin, owner);
    SameIds(db.rows, twin.rows, owner);
    match a
    case UpdateLock(p, identity, request) =>
      SameOwned(db.rows, twin.rows, owner, VerifiedOwner(identity).value, request.value.task.value.id);
    case UpdateRefuse(identity, request) =>
      var who := Writable(identity, RequestTask(request));
      if who.Ok? {
        SameOwned(db.rows, twin.rows, owner, who.value, request.value.task.value.id);
      }
    case UpdateFail(p) => SameUpdatable(db, twin, p, owner);
    case UpdateWrite(p, _) => SameUpdatable(db, twin, p, owner);
    case _ =>
  }

  lemma SameIds(rows: Table, rows': Table, owner: Owner)
    requires Alike(rows, rows', owner)
    ensures forall id :: id in rows <==> id in rows'
  {
  }

  lemma SameUpdatable(db: Db, twin: Db, p: nat, owner: Owner)
    requires Twins(db, twin, owner) && p in db.open && !db.open[p].Inserted? && !OwnUpdate(db.open[p], owner)
    ensures p in twin.open && twin.open[p] == db.open[p]
    ensures Updatable(db.rows, db.open[p]) <==> Updatable(twin.rows, db.open[p])
    ensures Updatable(db.rows, db.open[p]) ==>
              && db.open[p].Id() in db.rows && db.open[p].Id() in twin.rows
              && db.rows[db.open[p].Id()] == twin.rows[db.open[p].Id()]
  {
    hide VerifiedOwner, Others, Alike;
    var who := Writable(db.open[p].identity, db.open[p].Task());
    if who.Ok? {
      SameOwned(db.rows, twin.rows, owner, who.value, db.open[p].Id());
    }
  }

  /** Any other step has the same effect in both. */
  lemma KeptSame(rank: Collation, db: Db, twin: Db, a: Action, owner: Owner)
    requires Enabled(db, a) && Twins(db, twin, owner) && !Dropped(db, a, owner) && Enabled(twin, a)
    ensures Twins(Do(rank, db, a), Do(rank, twin, a), owner)
  {
    hide Twins, Others, VerifiedOwner, ListTasks, OwnerKey, Apply, Alike, Refusal, Updatable, Owns;
    TwinOpen(db, twin, owner);
    var db', twin' := Do(rank, db, a), Do(rank, twin, a);
    match a
    case CreateInsert(p, _, _, _) => SameOpened(db, twin, p, db'.open[p], owner);
    case CreateRefuse(_, _) => BothLogged(db, twin, db'.log[|db.log|], twin'.log[|twin.log|], owner);
    case UpdateRefuse(_, _) => BothLogged(db, twin, db'.log[|db.log|], twin'.log[|twin.log|], owner);
    case UpdateLock(p, identity, request) =>
      SameOwned(db.rows, twin.rows, owner, VerifiedOwner(identity).value, request.value.task.value.id);
      SameOpened(db, twin, p, db'.open[p], owner);
    case UpdateWrite(p, _) =>
      SameUpdatable(db, twin, p, owner);
      SameOpened(db, twin, p, db'.open[p], owner);
    case Read(op) =>
      OthersUnaffected(rank, db.rows, twin.rows, owner, op);
      BothLogged(db, twin, db'.log[|db.log|], twin'.log[|twin.log|], owner);
    case Abort(p) => BothEnded(db, twin, p, db.rows, twin.rows, owner);
    case UpdateReject(p) =>
      BothEnded(db, twin, p, db.rows, twin.rows, owner);
      BothLogged(db.(open := db.open - {p}), twin.(open := twin.open - {p}), db'.log[|db.log|], twin'.log[|twin.log|],
          owner);
    case UpdateFail(p) =>
      BothEnded(db, twin, p, db.rows, twin.rows, owner);
      BothLogged(db.(open := db.open - {p}), twin.(open := twin.open - {p}), db'.log[|db.log|], twin'.log[|twin.log|],
          owner);
    case Commit(p) =>
      SameWritten(db.rows, twin.rows, owner, db.open[p].Id(), db.open[p].row);
      BothEnded(db, twin, p, db'.rows, twin'.rows, owner);
      BothLogged(db.(rows := db'.rows, open := db.open - {p}), twin.(rows := twin'.rows, open := twin.open - {p}),
                 db'.log[|db.log|], twin'.log[|twin.log|], owner);
  }

  lemma TwinOpen(db: Db, twin: Db, owner: Owner)
    requires Twins(db, twin, owner)
    ensures Alike(db.rows, twin.rows, owner)
    ensures forall p :: p in twin.open <==> p in db.open && !OwnUpdate(db.open[p], owner)
    ensures forall p | p in twin.open :: twin.open[p] == db.open[p]
  {
  }

  lemma {:induction false} StrippedRuns(rank: Collation, db: Db, actions: seq<Action>, db': Db, twin: Db,
      owner: Owner) returns (twin': Db)
    requires Inv(rank, db) && Run(rank, db, actions, db') && Twins(db, twin, owner)
    ensures Run(rank, twin, Stripped(rank, db, actions, owner), twin') && Twins(db', twin', owner)
    decreases |actions|
  {
    hide Inv, Do, Enabled, Dropped, Twins;
    if actions == [] {
      return twin;
    }
    var a, db1 := actions[0], Do(rank, db, actions[0]);
    StepKeepsInv(rank, db, a);
    var rest := Stripped(rank, db1, actions[1..], owner);
    if Dropped(db, a, owner) {
      DroppedUnseen(rank, db, twin, a, owner);
      twin' := StrippedRuns(rank, db1, actions[1..], db', twin, owner);
      assert [] + rest == rest;
    } else {
      KeptEnabled(rank, db, twin, a, owner);
      KeptSame(rank, db, twin, a, owner);
      twin' := StrippedRuns(rank, db1, actions[1..], db', Do(rank, twin, a), owner);
      assert ([a] + rest)[0] == a && ([a] + rest)[1..] == rest;
    }
  }

  /**
   Deleting every step of one owner's reads and updates from an interleaving leaves an interleaving,
   step by step possible, in which everyone else makes the same calls and gets the same answers.
   */
  lemma StrippedRunUnnoticed(rank: Collation, actions: seq<Action>, db: Db, owner: Owner) returns (twin: Db)
    requires Run(rank, EMPTY, actions, db)
    ensures Run(rank, EMPTY, Stripped(rank, EMPTY, actions, owner), twin)
    ensures Others(twin.log, owner) == Others(db.log, owner)
    ensures Alike(db.rows, twin.rows, owner)
  {
    hide Run, Stripped;
    twin := StrippedRuns(rank, EMPTY, actions, db, EMPTY, owner);
  }
}
