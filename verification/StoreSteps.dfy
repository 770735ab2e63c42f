/** The store's calls as they run, statement by statement, against a database that others use at the same time. */
module StoreSteps {
  import opened Text
  import opened Errors
  import opened Auth
  import opened Tasks
  import opened Ordering
  import opened Listing
  import opened Operations
  import opened History
  import opened Transactions

  /**
   A statement is carried out, or fails and takes its transaction with it; a commit may also be carried
   out without the client hearing of it.
   */
  datatype Outcome = Answered | Aborted | Unheard

  /** What happens around one statement: what others do before it, and what becomes of it. */
  datatype Turn = Turn(others: seq<Action>, outcome: Outcome)

  /** An action of the transaction that a client has open under `p`. */
  predicate Concerns(a: Action, p: nat) {
    match a
    case CreateInsert(q, _, _, _) => q == p
    case UpdateLock(q, _, _) => q == p
    case UpdateReject(q) => q == p
    case UpdateFail(q) => q == p
    case UpdateWrite(q, _) => q == p
    case Commit(q) => q == p
    case Abort(q) => q == p
    case _ => false
  }

  /** The transaction under `p` is as it was, and the log has only grown. */
  predicate Kept(before: Db, db: Db, p: nat) {
    && (p in before.open <==> p in db.open)
    && (p in db.open ==> db.open[p] == before.open[p])
    && before.log <= db.log
  }

  lemma OthersKeep(rank: Collation, db: Db, a: Action, p: nat)
    requires Enabled(db, a) && !Concerns(a, p)
    ensures Kept(db, Do(rank, db, a), p)
  {
    hide VerifiedOwner, ListTasks, Apply, Refusal, Owns, Updatable, NextRow, NewRow;
  }

  lemma LogGrows(rank: Collation, db: Db, a: Action)
    requires Enabled(db, a)
    ensures db.log <= Do(rank, db, a).log
  {
    hide VerifiedOwner, ListTasks, Apply, Refusal, Owns, Updatable, NextRow, NewRow;
  }

  /** What the log records when a transaction commits. */
  function CommitEvent(t: Txn): Event
    requires !t.Locked?
  {
    var op := if t.Inserted? then Op.Create(t.identity, t.newTask, t.now) else Op.Update(t.identity, t.request, t.now);
    Event(op, Version(t.row.version))
  }

  /** What an action commits of the transaction under `p`. */
  function Commits(db: Db, a: Action, p: nat): seq<Event> {
    if a == Commit(p) && p in db.open && !db.open[p].Locked? then [CommitEvent(db.open[p])] else []
  }

  /** The writes that the transactions opened under `p` commit in a run, in order. */
  function Writings(rank: Collation, db: Db, actions: seq<Action>, p: nat): seq<Event>
    decreases |actions|
  {
    if actions == [] || !Enabled(db, actions[0]) then []
    else Commits(db, actions[0], p) + Writings(rank, Do(rank, db, actions[0]), actions[1..], p)
  }

  lemma {:induction false} WritingsSnoc(rank: Collation, db: Db, actions: seq<Action>, db': Db, a: Action, p: nat)
    requires Run(rank, db, actions, db') && Enabled(db', a)
    ensures Writings(rank, db, actions + [a], p) == Writings(rank, db, actions, p) + Commits(db', a, p)
    decreases |actions|
  {
    hide Enabled, Do, Commits;
    var more := actions + [a];
    if actions == [] {
      assert more == [a] && more[1..] == [];
    } else {
      assert more[0] == actions[0] && more[1..] == actions[1..] + [a];
      WritingsSnoc(rank, Do(rank, db, actions[0]), actions[1..], db', a, p);
    }
  }

  /** At some moment since `before` the call was carried out, and answered as if it had run alone just then. */
  ghost predicate AnsweredSince(rank: Collation, before: seq<Event>, log: seq<Event>, op: Op, reply: Reply) {
    exists i | |before| <= i < |log| :: log[i] == Event(op, reply) && reply == Apply(rank, After(rank, log[..i]), op).1
  }

  /** The last call logged was answered as if alone. */
  lemma JustAnswered(rank: Collation, trace: seq<Action>, db: Db, before: seq<Event>, e: Event)
    requires Run(rank, EMPTY, trace, db) && |before| < |db.log| && db.log[|db.log| - 1] == e
    ensures AnsweredSince(rank, before, db.log, e.op, e.reply)
  {
    hide Run, Apply, After;
    Linearizable(rank, trace, db);
  }

  /**
   A call has committed its one write if it succeeds, none if it is refused, and at most that one
   after a database error.
   */
  predicate Wrote(before: seq<Event>, after: seq<Event>, op: Op, r: Result<int, Error>) {
    match r
    case Ok(version) => after == before + [Event(op, Version(version))]
    case Err(error) =>
      || after == before
      || (error == DatabaseError && |after| == |before| + 1 && before <= after
          && after[|before|].op == op && after[|before|].reply.Version?)
  }

  lemma SinceEarlier(rank: Collation, before: seq<Event>, middle: seq<Event>, log: seq<Event>, op: Op, reply: Reply)
    requires before <= middle && AnsweredSince(rank, middle, log, op, reply)
    ensures AnsweredSince(rank, before, log, op, reply)
  {
    hide Apply, After;
  }

  lemma Insertable(db: Db, p: nat, identity: Option<Identity>, task: Option<Task>, now: int)
    requires p !in db.open && task.Some? && Writable(identity, task).Ok?
    ensures task.value.id in db.rows ==> Enabled(db, CreateRefuse(identity, task))
    ensures task.value.id !in db.rows && Free(db, task) ==> Enabled(db, CreateInsert(p, identity, task, now))
  {
    hide VerifiedOwner;
  }

  lemma InsertLogged(rank: Collation, db: Db, p: nat, identity: Option<Identity>, task: Option<Task>, now: int)
    requires Enabled(db, CreateInsert(p, identity, task, now))
    ensures Commits(db, CreateInsert(p, identity, task, now), p) == []
    ensures
      var inserted := Do(rank, db, CreateInsert(p, identity, task, now));
      && inserted.log == db.log && p in inserted.open && !inserted.open[p].Locked?
      && CommitEvent(inserted.open[p])
         == Event(Op.Create(identity, task, now), Version(inserted.open[p].row.version))
  {
    hide VerifiedOwner, NewRow;
  }

  lemma CommitLogged(rank: Collation, db: Db, p: nat)
    requires p in db.open && !db.open[p].Locked?
    ensures Enabled(db, Commit(p)) && Commits(db, Commit(p), p) == [CommitEvent(db.open[p])]
    ensures Do(rank, db, Commit(p)).open == db.open - {p}
    ensures Do(rank, db, Commit(p)).log == db.log + [CommitEvent(db.open[p])]
  {
  }

  lemma ReadLogged(rank: Collation, db: Db, p: nat, op: Op)
    requires op.Get? || op.List?
    ensures Enabled(db, Read(op)) && Commits(db, Read(op), p) == []
    ensures
      var done := Do(rank, db, Read(op));
      done.open == db.open && |done.log| == |db.log| + 1 && done.log[|db.log|].op == op
  {
    hide Apply;
  }

  // ---------- a call that nobody disturbs ----------

  /** Nobody else acts around these statements, and each of them is carried out and answered. */
  predicate Calm(turns: nat -> Turn, from: nat, to: nat) {
    forall k | from <= k < to :: turns(k) == Turn([], Answered)
  }

  lemma CalmParts(turns: nat -> Turn, from: nat, middle: nat, to: nat)
    requires from <= middle <= to
    ensures Calm(turns, from, to) <==> Calm(turns, from, middle) && Calm(turns, middle, to)
  {
  }

  /** No open transaction holds this task. */
  predicate Free(db: Db, task: Option<Task>) {
    task.Some? ==> forall q | q in db.open :: db.open[q].Id() != task.value.id
  }

  function ReplyOf(r: Result<int, Error>): Reply {
    match r
    case Ok(version) => Version(version)
    case Err(error) => Failed(error)
  }

  lemma CreateNotDone(rank: Collation, rows: Table, identity: Option<Identity>, task: Option<Task>, now: int)
    requires Writable(identity, task).Err? || (task.Some? && task.value.id in rows)
    ensures Apply(rank, rows, Op.Create(identity, task, now))
         == (rows, Refusal(Writable(identity, task), TaskAlreadyExists))
  {
    hide VerifiedOwner, NewRow;
  }

  lemma CreateDone(rank: Collation, db: Db, p: nat, identity: Option<Identity>, task: Option<Task>, now: int)
    requires Enabled(db, CreateInsert(p, identity, task, now))
    ensures
      var inserted := Do(rank, db, CreateInsert(p, identity, task, now));
      && Enabled(inserted, Commit(p))
      && Apply(rank, db.rows, Op.Create(identity, task, now))
         == (Do(rank, inserted, Commit(p)).rows, Version(inserted.open[p].row.version))
  {
    hide VerifiedOwner;
  }

  lemma ReadDone(rank: Collation, db: Db, op: Op)
    requires op.Get? || op.List?
    ensures Enabled(db, Read(op))
    ensures
      var done := Do(rank, db, Read(op));
      done.log != [] && (done.rows, done.log[|done.log| - 1].reply) == Apply(rank, db.rows, op)
  {
    hide VerifiedOwner, ListTasks, OwnerKey;
  }

  lemma UpdateNotDone(rank: Collation, db: Db, identity: Option<Identity>, request: Option<UpdateRequest>, now: int)
    requires Enabled(db, UpdateRefuse(identity, request))
    ensures Apply(rank, db.rows, Op.Update(identity, request, now))
         == (db.rows, Refusal(Writable(identity, RequestTask(request)), TaskNotFound))
  {
    hide VerifiedOwner, NextRow;
  }

  /** Under the lock: a version that does not match, one that cannot be raised, or the row rewritten. */
  ghost predicate WritesUnderLock(rank: Collation, locked: Db, p: nat, now: int, rows: Table, reply: Reply)
    requires p in locked.open && locked.open[p].Locked? && locked.open[p].request.Some?
  {
    if !VersionMatches(locked.open[p]) then rows == locked.rows && reply == Failed(ConcurrentModification)
    else if !Updatable(locked.rows, locked.open[p]) then rows == locked.rows && reply == Failed(DatabaseError)
    else
      && Enabled(locked, UpdateWrite(p, now))
      && var written := Do(rank, locked, UpdateWrite(p, now));
         Enabled(written, Commit(p))
         && rows == Do(rank, written, Commit(p)).rows && reply == Version(written.open[p].row.version)
  }

  lemma UpdateDone(rank: Collation, db: Db, p: nat, identity: Option<Identity>, request: Option<UpdateRequest>,
      now: int)
    requires Enabled(db, UpdateLock(p, identity, request))
    ensures
      var locked := Do(rank, db, UpdateLock(p, identity, request));
      && p in locked.open && locked.open[p].Locked? && locked.open[p].request.Some?
      && forall rows, reply | WritesUnderLock(rank, locked, p, now, rows, reply) ::
           (rows, reply) == Apply(rank, db.rows, Op.Update(identity, request, now))
  {
    hide VerifiedOwner;
  }

  /** The call has been answered since, as its result says, unless that is a database error. */
  ghost predicate AnsweredAs(rank: Collation, before: seq<Event>, log: seq<Event>, identity: Option<Identity>,
      request: Option<UpdateRequest>, now: int, r: Result<int, Error>) {
    match r
    case Ok(version) => AnsweredSince(rank, before, log, Op.Update(identity, request, now), Version(version))
    case Err(error) =>
      error != DatabaseError ==> AnsweredSince(rank, before, log, Op.Update(identity, request, 0), Failed(error))
  }

  lemma SinceLocked(rank: Collation, before: seq<Event>, middle: seq<Event>, log: seq<Event>,
      identity: Option<Identity>, request: Option<UpdateRequest>, now: int, r: Result<int, Error>)
    requires before <= middle && AnsweredAs(rank, middle, log, identity, request, now, r)
    ensures AnsweredAs(rank, before, log, identity, request, now, r)
  {
    hide AnsweredSince;
    if r.Ok? {
      SinceEarlier(rank, before, middle, log, Op.Update(identity, request, now), Version(r.value));
    } else if r.error != DatabaseError {
      SinceEarlier(rank, before, middle, log, Op.Update(identity, request, 0), Failed(r.error));
    }
  }

  class Server {
    const rank: Collation
    const turns: nat -> Turn
    var asked: nat
    var db: Db
    ghost var trace: seq<Action>

    constructor (rank: Collation, turns: nat -> Turn)
      ensures Valid() && db == EMPTY
    {
      this.rank, this.turns := rank, turns;
      asked, db, trace := 0, EMPTY, [];
    }

    /** All that has happened so far is an interleaving of calls. */
    ghost predicate Valid()
      reads this
    {
      Run(rank, EMPTY, trace, db)
    }

    /** The writes that a client has committed so far. */
    ghost function WrittenBy(p: nat): seq<Event>
      reads `trace
    {
      Writings(rank, EMPTY, trace, p)
    }

    method Step(a: Action)
      requires Valid() && Enabled(db, a)
      modifies `db, `trace
      ensures Valid() && db == Do(rank, old(db), a) && old(db).log <= db.log
      ensures forall q :: WrittenBy(q) == old(WrittenBy(q)) + Commits(old(db), a, q)
    {
      hide Enabled, Do, Writings, Commits;
      forall q
        ensures Writings(rank, EMPTY, trace + [a], q) == Writings(rank, EMPTY, trace, q) + Commits(db, a, q)
      {
        WritingsSnoc(rank, EMPTY, trace, db, a, q);
      }
      RunSnoc(rank, EMPTY, trace, db, a);
      LogGrows(rank, db, a);
      db, trace := Do(rank, db, a), trace + [a];
    }

    /** Whatever others get done before the next statement of the client, and what becomes of that. */
    method Await(p: nat) returns (outcome: Outcome)
      requires Valid()
      modifies this
      ensures Valid() && Kept(old(db), db, p)
      ensures WrittenBy(p) == old(WrittenBy(p))
      ensures asked == old(asked) + 1
      ensures Calm(turns, old(asked), asked) ==> db == old(db) && outcome == Answered
    {
      hide Enabled, Do, Run, WrittenBy;
      var turn := turns(asked);
      asked := asked + 1;
      for i := 0 to |turn.others|
        invariant Valid() && Kept(old(db), db, p)
        invariant WrittenBy(p) == old(WrittenBy(p))
        invariant asked == old(asked) + 1
        invariant turn.others == [] ==> db == old(db)
      {
        var a := turn.others[i];
        if Enabled(db, a) && !Concerns(a, p) {
          OthersKeep(rank, db, a, p);
          Step(a);
        }
      }
      outcome := turn.outcome;
    }

    /** The transaction is rolled back. */
    method Rollback(p: nat)
      requires Valid() && p in db.open
      modifies this
      ensures Valid() && p !in db.open && old(db).log <= db.log
      ensures WrittenBy(p) == old(WrittenBy(p)) && asked == old(asked)
    {
      hide Run, WrittenBy;
      Step(Abort(p));
    }

    /**
     Commits what the client holds; without an acknowledgement it cannot tell whether that happened.
     `seen` is the database in which it is committed.
     */
    method CommitOpen(p: nat) returns (acknowledged: bool, ghost seen: Db)
      requires Valid() && p in db.open && !db.open[p].Locked?
      modifies this
      ensures Valid() && p !in db.open && old(db).log <= db.log
      ensures acknowledged ==> |old(db).log| < |db.log| && db.log[|db.log| - 1] == CommitEvent(old(db).open[p])
      ensures WrittenBy(p) == old(WrittenBy(p)) + [CommitEvent(old(db).open[p])]
           || (!acknowledged && WrittenBy(p) == old(WrittenBy(p)))
      ensures old(asked) <= asked
      ensures acknowledged ==> Enabled(seen, Commit(p)) && db == Do(rank, seen, Commit(p))
      ensures Calm(turns, old(asked), asked) ==> acknowledged && seen == old(db)
    {
      hide Run, NextRow, NewRow, WrittenBy, Do, Enabled, Commits, CommitEvent, Calm;
      var outcome := Await(p);
      seen := db;
      if outcome.Aborted? {
        Rollback(p);
        acknowledged := false;
        return;
      }
      CommitLogged(rank, db, p);
      Step(Commit(p));
      acknowledged := outcome.Answered?;
    }

    method Create(p: nat, identity: Option<Identity>, task: Option<Task>, now: int) returns (r: Result<int, Error>)
      requires Valid() && p !in db.open
      modifies this
      ensures Valid() && p !in db.open && old(db).log <= db.log
      ensures r.Ok? ==> AnsweredSince(rank, old(db).log, db.log, Op.Create(identity, task, now), Version(r.value))
      ensures r.Err? && r.error != DatabaseError ==>
                AnsweredSince(rank, old(db).log, db.log, Op.Create(identity, task, 0), Failed(r.error))
      ensures Wrote(old(WrittenBy(p)), WrittenBy(p), Op.Create(identity, task, now), r)
      ensures Calm(turns, old(asked), asked) && Free(old(db), task) ==>
                (db.rows, ReplyOf(r)) == Apply(rank, old(db).rows, Op.Create(identity, task, now))
    {
      hide Run, AnsweredSince, VerifiedOwner, NewRow, WrittenBy, Apply;
      if Writable(identity, task).Err? {
        CreateNotDone(rank, db.rows, identity, task, now);
      }
      if task.None? || task.value.id == [] {
        r := RefuseCreate(p, identity, task);
        return;
      }
      var verified := VerifiedOwner(identity);
      if verified.Err? {
        r := RefuseCreate(p, identity, task);
        return;
      }
      r := InsertRow(p, identity, task, now);
    }

    /** The one statement of Create, which commits by itself. */
    method InsertRow(p: nat, identity: Option<Identity>, task: Option<Task>, now: int) returns (r: Result<int, Error>)
      requires Valid() && p !in db.open && task.Some? && Writable(identity, task).Ok?
      modifies this
      ensures Valid() && p !in db.open && old(db).log <= db.log
      ensures r.Ok? ==> AnsweredSince(rank, old(db).log, db.log, Op.Create(identity, task, now), Version(r.value))
      ensures r.Err? && r.error != DatabaseError ==>
                AnsweredSince(rank, old(db).log, db.log, Op.Create(identity, task, 0), Failed(r.error))
      ensures Wrote(old(WrittenBy(p)), WrittenBy(p), Op.Create(identity, task, now), r)
      ensures Calm(turns, old(asked), asked) && Free(old(db), task) ==>
                (db.rows, ReplyOf(r)) == Apply(rank, old(db).rows, Op.Create(identity, task, now))
    {
      hide Run, AnsweredSince, VerifiedOwner, NewRow, WrittenBy, Apply, Do, Commits, Enabled, Free, CommitEvent,
          Writable, Calm;
      if task.value.id in db.rows {
        CreateNotDone(rank, db.rows, identity, task, now);
      }
      var outcome := Await(p);
      if outcome.Aborted? {
        return Err(DatabaseError);
      }
      Insertable(db, p, identity, task, now);
      if task.value.id in db.rows {
        ghost var before := db.log;
        r := RefuseCreate(p, identity, task);
        SinceEarlier(rank, old(db).log, before, db.log, Op.Create(identity, task, 0), Failed(r.error));
        return;
      }
      if !Enabled(db, CreateInsert(p, identity, task, now)) {
        // Another insert of the same id is open, and this one gives up waiting for it.
        return Err(DatabaseError);
      }
      CreateDone(rank, db, p, identity, task, now);
      InsertLogged(rank, db, p, identity, task, now);
      Step(CreateInsert(p, identity, task, now));
      var version := db.open[p].row.version;
      ghost var since := asked;
      var acknowledged, _ := CommitOpen(p);
      CalmParts(turns, old(asked), since, asked);
      if !acknowledged {
        return Err(DatabaseError);
      }
      JustAnswered(rank, trace, db, old(db).log, Event(Op.Create(identity, task, now), Version(version)));
      return Ok(version);
    }

    /** Locks the row and reads its version, or learns that the owner has no such row. */
    method LockRow(p: nat, identity: Option<Identity>, request: Option<UpdateRequest>, owner: Owner)
        returns (r: Result<int, Error>)
      requires Valid() && p !in db.open
      requires Writable(identity, RequestTask(request)) == Ok(owner)
      modifies this
      ensures Valid() && old(db).log <= db.log
      ensures r.Ok? ==> p in db.open && db.open[p] == Txn.Locked(identity, request, r.value)
      ensures r.Err? ==> p !in db.open && (r.error == DatabaseError || r.error == TaskNotFound)
      ensures r.Err? && r.error == TaskNotFound ==>
                AnsweredSince(rank, old(db).log, db.log, Op.Update(identity, request, 0), Failed(TaskNotFound))
      ensures WrittenBy(p) == old(WrittenBy(p))
      ensures old(asked) <= asked
      ensures Calm(turns, old(asked), asked) && Free(old(db), RequestTask(request)) ==>
                if Enabled(old(db), UpdateRefuse(identity, request))
                then r == Err(TaskNotFound) && db.rows == old(db).rows
                else r.Ok? && Enabled(old(db), UpdateLock(p, identity, request))
                     && db == Do(rank, old(db), UpdateLock(p, identity, request))
    {
      hide Run, AnsweredSince, VerifiedOwner, WrittenBy;
      var outcome := Await(p);
      if outcome.Aborted? {
        return Err(DatabaseError);
      }
      if !Owns(db.rows, owner, request.value.task.value.id) {
        Step(UpdateRefuse(identity, request));
        JustAnswered(rank, trace, db, old(db).log, Event(Op.Update(identity, request, 0), Failed(TaskNotFound)));
        return Err(TaskNotFound);
      }
      if !Enabled(db, UpdateLock(p, identity, request)) {
        // Another transaction holds the row lock, and this one gives up waiting for it.
        return Err(DatabaseError);
      }
      Step(UpdateLock(p, identity, request));
      return Ok(db.open[p].stored);
    }

    /** Rewrites the locked row, unless the statement fails. */
    method WriteRow(p: nat, now: int) returns (r: Result<int, Error>)
      requires Valid() && p in db.open && db.open[p].Locked? && db.open[p].request.Some? && VersionMatches(db.open[p])
      modifies this
      ensures Valid() && old(db).log <= db.log
      ensures r.Ok? ==> p in db.open && db.open[p].Written? && db.open[p].row.version == r.value
      ensures r.Ok? ==> CommitEvent(db.open[p]).op == Op.Update(old(db).open[p].identity, old(db).open[p].request, now)
      ensures r.Err? ==> p !in db.open && r.error == DatabaseError
      ensures WrittenBy(p) == old(WrittenBy(p))
      ensures old(asked) <= asked
      ensures Calm(turns, old(asked), asked) ==>
                if Updatable(old(db).rows, old(db).open[p])
                then r.Ok? && Enabled(old(db), UpdateWrite(p, now)) && db == Do(rank, old(db), UpdateWrite(p, now))
                else Enabled(old(db), UpdateFail(p)) && db == Do(rank, old(db), UpdateFail(p))
    {
      hide Run, VerifiedOwner, NextRow, Updatable, WrittenBy;
      var outcome := Await(p);
      if outcome.Aborted? {
        Rollback(p);
        return Err(DatabaseError);
      }
      if !Updatable(db.rows, db.open[p]) {
        Step(UpdateFail(p));
        return Err(DatabaseError);
      }
      Step(UpdateWrite(p, now));
      return Ok(db.open[p].row.version);
    }

    /** Lock the row, read its version, compare, rewrite, commit. */
    method Update(p: nat, identity: Option<Identity>, request: Option<UpdateRequest>, now: int)
        returns (r: Result<int, Error>)
      requires Valid() && p !in db.open
      modifies this
      ensures Valid() && p !in db.open && old(db).log <= db.log
      ensures r.Ok? ==> AnsweredSince(rank, old(db).log, db.log, Op.Update(identity, request, now), Version(r.value))
      ensures r.Err? && r.error != DatabaseError ==>
                AnsweredSince(rank, old(db).log, db.log, Op.Update(identity, request, 0), Failed(r.error))
      ensures Wrote(old(WrittenBy(p)), WrittenBy(p), Op.Update(identity, request, now), r)
      ensures Calm(turns, old(asked), asked) && Free(old(db), RequestTask(request)) ==>
                (db.rows, ReplyOf(r)) == Apply(rank, old(db).rows, Op.Update(identity, request, now))
    {
      hide Run, AnsweredSince, VerifiedOwner, Owns, WrittenBy, Apply, WritesUnderLock, Updatable;
      if Enabled(db, UpdateRefuse(identity, request)) {
        UpdateNotDone(rank, db, identity, request, now);
      }
      if request.None? || request.value.task.None? || request.value.task.value.id == [] {
        r := RefuseUpdate(p, identity, request);
        return;
      }
      var verified := VerifiedOwner(identity);
      if verified.Err? {
        r := RefuseUpdate(p, identity, request);
        return;
      }
      r := LockRow(p, identity, request, verified.value);
      if r.Err? {
        return;
      }
      if Enabled(old(db), UpdateLock(p, identity, request)) {
        UpdateDone(rank, old(db), p, identity, request, now);
      }
      ghost var locked, since := db, asked;
      r := CompareAndWrite(p, identity, request, now);
      SinceLocked(rank, old(db).log, locked.log, db.log, identity, request, now, r);
    }

    /** What Update does once it holds the row. */
    method CompareAndWrite(p: nat, identity: Option<Identity>, request: Option<UpdateRequest>, now: int)
        returns (r: Result<int, Error>)
      requires Valid() && p in db.open && request.Some?
      requires db.open[p].Locked? && db.open[p].identity == identity && db.open[p].request == request
      modifies this
      ensures Valid() && p !in db.open && old(db).log <= db.log
      ensures AnsweredAs(rank, old(db).log, db.log, identity, request, now, r)
      ensures Wrote(old(WrittenBy(p)), WrittenBy(p), Op.Update(identity, request, now), r)
      ensures old(asked) <= asked
      ensures Calm(turns, old(asked), asked) ==>
                WritesUnderLock(rank, old(db), p, now, db.rows, ReplyOf(r))
    {
      hide Run, AnsweredSince, VerifiedOwner, Owns, WrittenBy, Apply, Updatable;
      var storedVersion := db.open[p].stored;
      if request.value.prevVersion != MISSING_VERSION && request.value.prevVersion != storedVersion {
        Step(UpdateReject(p));
        JustAnswered(rank, trace, db, old(db).log,
            Event(Op.Update(identity, request, 0), Failed(ConcurrentModification)));
        return Err(ConcurrentModification);
      }
      r := WriteRow(p, now);
      if r.Err? {
        return;
      }
      var acknowledged, _ := CommitOpen(p);
      if !acknowledged {
        return Err(DatabaseError);
      }
      JustAnswered(rank, trace, db, old(db).log, Event(Op.Update(identity, request, now), Version(r.value)));
    }

    method RefuseUpdate(p: nat, identity: Option<Identity>, request: Option<UpdateRequest>)
        returns (r: Result<int, Error>)
      requires Valid() && p !in db.open && Writable(identity, RequestTask(request)).Err?
      modifies this
      ensures Valid() && p !in db.open && old(db).log <= db.log
      ensures WrittenBy(p) == old(WrittenBy(p))
      ensures r == Err(Writable(identity, RequestTask(request)).error)
      ensures AnsweredSince(rank, old(db).log, db.log, Op.Update(identity, request, 0), Failed(r.error))
      ensures db.rows == old(db).rows && asked == old(asked)
    {
      hide Run, AnsweredSince, VerifiedOwner, Owns, WrittenBy;
      Step(UpdateRefuse(identity, request));
      r := Err(Writable(identity, RequestTask(request)).error);
      JustAnswered(rank, trace, db, old(db).log, Event(Op.Update(identity, request, 0), Failed(r.error)));
    }

    /** Get and List read one snapshot of the committed rows. */
    method ReadCall(p: nat, op: Op) returns (reply: Reply)
      requires Valid() && p !in db.open && (op.Get? || op.List?)
      modifies this
      ensures Valid() && p !in db.open && old(db).log <= db.log
      ensures reply != Failed(DatabaseError) ==> AnsweredSince(rank, old(db).log, db.log, op, reply)
      ensures WrittenBy(p) == old(WrittenBy(p))
      ensures Calm(turns, old(asked), asked) ==> (db.rows, reply) == Apply(rank, old(db).rows, op)
    {
      hide Run, AnsweredSince, Apply, WrittenBy, Do, Enabled;
      var outcome := Await(p);
      if !outcome.Answered? {
        return Failed(DatabaseError);
      }
      ReadDone(rank, db, op);
      ReadLogged(rank, db, p, op);
      Step(Read(op));
      reply := db.log[|db.log| - 1].reply;
      JustAnswered(rank, trace, db, old(db).log, Event(op, reply));
    }

    method RefuseCreate(p: nat, identity: Option<Identity>, task: Option<Task>) returns (r: Result<int, Error>)
      requires Valid() && p !in db.open && Enabled(db, CreateRefuse(identity, task))
      modifies this
      ensures Valid() && p !in db.open && old(db).log <= db.log
      ensures WrittenBy(p) == old(WrittenBy(p))
      ensures r.Err? && r.error == Refusal(Writable(identity, task), TaskAlreadyExists).error
      ensures AnsweredSince(rank, old(db).log, db.log, Op.Create(identity, task, 0), Failed(r.error))
      ensures db.rows == old(db).rows && asked == old(asked)
    {
      hide Run, AnsweredSince, VerifiedOwner, WrittenBy;
      Step(CreateRefuse(identity, task));
      r := Err(Refusal(Writable(identity, task), TaskAlreadyExists).error);
      JustAnswered(rank, trace, db, old(db).log, Event(Op.Create(identity, task, 0), Failed(r.error)));
    }
  }
}
