/**
 Any number of clients call Create, Update, Get and List at once, each call a row of database
 steps. PostgreSQL gives exclusive row locks, atomic commits, unique keys that make a second
 insert wait for the first, and reads of committed rows; the rest is what the store does.
 */
module Transactions {
  import opened Text
  import opened Errors
  import opened Auth
  import opened Tasks
  import opened Ordering
  import opened Operations
  import Listing
  import opened History

  /** An open transaction: a row inserted, a row locked and its version read, or a row rewritten under that lock. */
  datatype Txn =
    | Inserted(identity: Option<Identity>, newTask: Option<Task>, now: int, row: Row)
    | Locked(identity: Option<Identity>, request: Option<UpdateRequest>, stored: int)
    | Written(identity: Option<Identity>, request: Option<UpdateRequest>, now: int, row: Row)
  {
    function Task(): Option<Task> {
      if Inserted? then newTask else RequestTask(request)
    }

    function Id(): Str {
      if Task().Some? then Task().value.id else []
    }
  }

  /**
   The committed rows, the open transactions, and the calls that the database has answered so far,
   whether or not the answers have reached the clients.
   */
  datatype Db = Db(rows: Table, open: map<nat, Txn>, log: seq<Event>)

  const EMPTY := Db(map[], map[], [])

  datatype Action =
    | CreateInsert(p: nat, identity: Option<Identity>, newTask: Option<Task>, now: int)
    | CreateRefuse(identity: Option<Identity>, newTask: Option<Task>)
    | UpdateLock(p: nat, identity: Option<Identity>, request: Option<UpdateRequest>)
    | UpdateRefuse(identity: Option<Identity>, request: Option<UpdateRequest>)
    | UpdateReject(p: nat)
    | UpdateFail(p: nat)
    | UpdateWrite(p: nat, now: int)
    | Commit(p: nat)
    | Abort(p: nat)
    | Read(op: Op)

  // ---------- steps ----------

  /** Whether the version read under the lock satisfies the request. */
  predicate VersionMatches(t: Txn)
    requires t.Locked? && t.request.Some?
  {
    t.request.value.prevVersion == MISSING_VERSION || t.request.value.prevVersion == t.stored
  }

  predicate Updatable(rows: Table, t: Txn) {
    match Writable(t.identity, t.Task())
    case Err(_) => false
    case Ok(owner) => Owns(rows, owner, t.Id()) && rows[t.Id()].version < MAX_VERSION
  }

  predicate Enabled(db: Db, a: Action) {
    match a
    case CreateInsert(p, identity, task, _) =>
      && p !in db.open
      && Writable(identity, task).Ok?
      && task.value.id !in db.rows
      && (forall q | q in db.open :: db.open[q].Inserted? ==> db.open[q].Id() != task.value.id)
    case CreateRefuse(identity, task) =>
      Writable(identity, task).Err? || task.value.id in db.rows
    case UpdateLock(p, identity, request) =>
      && p !in db.open
      && Writable(identity, RequestTask(request)).Ok?
      && Owns(db.rows, Writable(identity, RequestTask(request)).value, request.value.task.value.id)
      && (forall q | q in db.open :: !db.open[q].Inserted? ==> db.open[q].Id() != request.value.task.value.id)
    case UpdateRefuse(identity, request) =>
      var owner := Writable(identity, RequestTask(request));
      owner.Err? || !Owns(db.rows, owner.value, request.value.task.value.id)
    case UpdateReject(p) => p in db.open && db.open[p].Locked? && db.open[p].request.Some?
        && !VersionMatches(db.open[p])
    case UpdateFail(p) =>
      && p in db.open && db.open[p].Locked? && db.open[p].request.Some? && VersionMatches(db.open[p])
      && !Updatable(db.rows, db.open[p])
    case UpdateWrite(p, _) =>
      && p in db.open && db.open[p].Locked? && db.open[p].request.Some? && VersionMatches(db.open[p])
      && Updatable(db.rows, db.open[p])
    case Commit(p) => p in db.open && !db.open[p].Locked?
    case Abort(p) => p in db.open
    case Read(op) => op.Get? || op.List?
  }

  /** A call that ends: its transaction, if any, is gone and its answer is known. */
  function End(db: Db, p: nat, rows: Table, e: Event): Db {
    Db(rows, db.open - {p}, db.log + [e])
  }

  function Record(db: Db, op: Op, reply: Reply): Db {
    db.(log := db.log + [Event(op, reply)])
  }

  function Refusal(owner: Result<Owner, Error>, otherwise: Error): Reply {
    Failed(if owner.Err? then owner.error else otherwise)
  }

  function Do(rank: Collation, db: Db, a: Action): Db
    requires Enabled(db, a)
  {
    match a
    case CreateInsert(p, identity, task, now) =>
      db.(open := db.open[p := Inserted(identity, task, now, NewRow(Writable(identity, task).value, task.value, now))])
    case CreateRefuse(identity, task) =>
      Record(db, Create(identity, task, 0), Refusal(Writable(identity, task), TaskAlreadyExists))
    case UpdateLock(p, identity, request) =>
      db.(open := db.open[p := Locked(identity, request, db.rows[request.value.task.value.id].version)])
    case UpdateRefuse(identity, request) =>
      Record(db, Update(identity, request, 0), Refusal(Writable(identity, RequestTask(request)), TaskNotFound))
    case UpdateReject(p) =>
      End(db, p, db.rows, Event(Update(db.open[p].identity, db.open[p].request, 0), Failed(ConcurrentModification)))
    case UpdateFail(p) =>
      End(db, p, db.rows, Event(Update(db.open[p].identity, db.open[p].request, 0), Failed(DatabaseError)))
    case UpdateWrite(p, now) =>
      var t := db.open[p];
      db.(open := db.open[p := Written(t.identity, t.request, now, NextRow(db.rows[t.Id()], t.Task().value, now))])
    case Commit(p) =>
      var t := db.open[p];
      var op := if t.Inserted? then Create(t.identity, t.newTask, t.now) else Update(t.identity, t.request, t.now);
      End(db, p, db.rows[t.Id() := t.row], Event(op, Version(t.row.version)))
    case Abort(p) => db.(open := db.open - {p})
    case Read(op) => Record(db, op, Apply(rank, db.rows, op).1)
  }

  /** One interleaving of steps. */
  ghost predicate Run(rank: Collation, db: Db, actions: seq<Action>, db': Db)
    decreases |actions|
  {
    if actions == [] then db == db'
    else Enabled(db, actions[0]) && Run(rank, Do(rank, db, actions[0]), actions[1..], db')
  }

  lemma {:induction false} RunSnoc(rank: Collation, db: Db, actions: seq<Action>, db': Db, a: Action)
    requires Run(rank, db, actions, db') && Enabled(db', a)
    ensures Run(rank, db, actions + [a], Do(rank, db', a))
    decreases |actions|
  {
    hide Enabled, Do;
    var more := actions + [a];
    if actions == [] {
      assert more[1..] == [];
    } else {
      RunSnoc(rank, Do(rank, db, actions[0]), actions[1..], db', a);
      assert more[1..] == actions[1..] + [a];
    }
  }

  // ---------- what every step keeps ----------

  /** An open transaction still fits the committed rows: nobody has touched the row it holds. */
  predicate Fits(rows: Table, t: Txn) {
    match Writable(t.identity, t.Task())
    case Err(_) => false
    case Ok(owner) =>
      match t
      case Inserted(_, task, now, row) => t.Id() !in rows && row == NewRow(owner, task.value, now)
      case Locked(_, _, stored) => Owns(rows, owner, t.Id()) && stored == rows[t.Id()].version
      case Written(_, request, now, row) =>
        && Owns(rows, owner, t.Id())
        && Conflict(rows[t.Id()].version, request.value.prevVersion) == None
        && row == NextRow(rows[t.Id()], t.Task().value, now)
  }

  ghost predicate Inv(rank: Collation, db: Db) {
    && (forall p | p in db.open :: Fits(db.rows, db.open[p]))
    && (forall p, q | p in db.open && q in db.open && p != q :: db.open[p].Id() != db.open[q].Id())
    && Legal(rank, db.log)
    && After(rank, db.log) == db.rows
    && Consistent(db.rows)
  }

  lemma FitsElsewhere(rows: Table, rows': Table, t: Txn)
    requires Fits(rows, t)
    requires t.Id() in rows <==> t.Id() in rows'
    requires t.Id() in rows ==> rows'[t.Id()] == rows[t.Id()]
    ensures Fits(rows', t)
  {
    hide VerifiedOwner;
  }

  /** Answering a call keeps the invariant when the answer and the new rows are those of the call run alone. */
  lemma EndKeepsInv(rank: Collation, db: Db, p: nat, op: Op, rows: Table, reply: Reply)
    requires Inv(rank, db) && p in db.open
    requires (rows, reply) == Apply(rank, db.rows, op)
    requires forall id | id != db.open[p].Id() ::
        (id in rows <==> id in db.rows) && (id in rows ==> rows[id] == db.rows[id])
    ensures Inv(rank, End(db, p, rows, Event(op, reply)))
  {
    hide Apply, Fits, Legal, After, Consistent;
    LegalSnoc(rank, db.log, Event(op, reply));
    ApplyKeepsConsistent(rank, db.rows, op);
    forall q | q in db.open - {p}
      ensures Fits(rows, db.open[q])
    {
      FitsElsewhere(db.rows, rows, db.open[q]);
    }
  }

  lemma RecordKeepsInv(rank: Collation, db: Db, op: Op, reply: Reply)
    requires Inv(rank, db)
    requires (db.rows, reply) == Apply(rank, db.rows, op)
    ensures Inv(rank, Record(db, op, reply))
  {
    hide Apply, Fits, Legal, After, Consistent;
    LegalSnoc(rank, db.log, Event(op, reply));
  }

  lemma OpenKeepsInv(rank: Collation, db: Db, p: nat, t: Txn)
    requires Inv(rank, db) && Fits(db.rows, t)
    requires forall q | q in db.open && q != p :: db.open[q].Id() != t.Id()
    ensures Inv(rank, db.(open := db.open[p := t]))
  {
    hide Apply, Fits, Legal, After, Consistent;
  }

  lemma FitsOwns(rows: Table, t: Txn)
    requires Fits(rows, t)
    ensures t.Inserted? <==> t.Id() !in rows
  {
    hide VerifiedOwner;
  }

  /** Committing answers the call with the row it holds, as if the call had run at that moment. */
  lemma CommitKeepsInv(rank: Collation, db: Db, p: nat)
    requires Inv(rank, db) && Enabled(db, Commit(p))
    ensures Inv(rank, Do(rank, db, Commit(p)))
  {
    hide VerifiedOwner, Listing.ListTasks, Legal, After, Consistent, OwnerKey;
    var t := db.open[p];
    FitsOwns(db.rows, t);
    var op := if t.Inserted? then Create(t.identity, t.newTask, t.now) else Update(t.identity, t.request, t.now);
    EndKeepsInv(rank, db, p, op, db.rows[t.Id() := t.row], Version(t.row.version));
  }

  lemma StepKeepsInv(rank: Collation, db: Db, a: Action)
    requires Inv(rank, db) && Enabled(db, a)
    ensures Inv(rank, Do(rank, db, a))
  {
    hide VerifiedOwner, Listing.ListTasks, Legal, After, Consistent, OwnerKey;
    forall q | q in db.open
      ensures db.open[q].Inserted? <==> db.open[q].Id() !in db.rows
    {
      FitsOwns(db.rows, db.open[q]);
    }
    match a
    case CreateInsert(p, identity, task, now) =>
      OpenKeepsInv(rank, db, p, Do(rank, db, a).open[p]);
    case CreateRefuse(identity, task) =>
      RecordKeepsInv(rank, db, Create(identity, task, 0), Refusal(Writable(identity, task), TaskAlreadyExists));
    case UpdateLock(p, identity, request) =>
      OpenKeepsInv(rank, db, p, Do(rank, db, a).open[p]);
    case UpdateRefuse(identity, request) =>
      var refusal := Refusal(Writable(identity, RequestTask(request)), TaskNotFound);
      RecordKeepsInv(rank, db, Update(identity, request, 0), refusal);
    case UpdateReject(p) =>
      EndKeepsInv(rank, db, p, Update(db.open[p].identity, db.open[p].request, 0), db.rows,
          Failed(ConcurrentModification));
    case UpdateFail(p) =>
      EndKeepsInv(rank, db, p, Update(db.open[p].identity, db.open[p].request, 0), db.rows, Failed(DatabaseError));
    case UpdateWrite(p, now) =>
      OpenKeepsInv(rank, db, p, Do(rank, db, a).open[p]);
    case Commit(p) =>
      CommitKeepsInv(rank, db, p);
    case Abort(p) =>
    case Read(op) =>
      RecordKeepsInv(rank, db, op, Apply(rank, db.rows, op).1);
  }

  lemma {:induction false} RunKeepsInv(rank: Collation, db: Db, actions: seq<Action>, db': Db)
    requires Inv(rank, db) && Run(rank, db, actions, db')
    ensures Inv(rank, db')
    decreases |actions|
  {
    hide Inv, Do, Enabled;
    if actions != [] {
      StepKeepsInv(rank, db, actions[0]);
      RunKeepsInv(rank, Do(rank, db, actions[0]), actions[1..], db');
    }
  }

  lemma RunInv(rank: Collation, actions: seq<Action>, db: Db)
    requires Run(rank, EMPTY, actions, db)
    ensures Inv(rank, db)
  {
    hide Run;
    RunKeepsInv(rank, EMPTY, actions, db);
  }

  /**
   Every interleaving is equivalent to running the answered calls one at a time, in the order of
   their answers: each got the answer it would have got alone, and the committed rows are the same.
   */
  lemma Linearizable(rank: Collation, actions: seq<Action>, db: Db)
    requires Run(rank, EMPTY, actions, db)
    ensures Legal(rank, db.log)
    ensures After(rank, db.log) == db.rows
  {
    hide Run, Fits, Legal, After, Consistent;
    RunInv(rank, actions, db);
  }

  /** At any moment each task has at most one open transaction, whichever call opened it. */
  lemma LocksExclude(rank: Collation, actions: seq<Action>, db: Db, p: nat, q: nat)
    requires Run(rank, EMPTY, actions, db)
    requires p in db.open && q in db.open && db.open[p].Id() == db.open[q].Id()
    ensures p == q
  {
    hide Run, Fits, Legal, After, Consistent, Txn.Id;
    RunInv(rank, actions, db);
  }
}
