/** The logs of interleavings are exactly the logs of calls run one at a time: neither more nor fewer can happen. */
module Serial {
  import opened Text
  import opened Errors
  import opened Auth
  import opened Tasks
  import opened Ordering
  import opened Operations
  import opened History
  import opened Transactions
  import Listing

  /** A write that is refused reads no clock. */
  predicate Plain(e: Event) {
    (e.op.Create? || e.op.Update?) && !e.reply.Version? ==> e.op.now == 0
  }

  // ---------- one call, with nobody else there ----------

  /** The database once a call has been carried out and logged. */
  function Called(rank: Collation, db: Db, op: Op): Db {
    Db(Apply(rank, db.rows, op).0, map[], db.log + [Event(op, Apply(rank, db.rows, op).1)])
  }

  lemma CreateCalled(rank: Collation, db: Db, op: Op)
    requires db.open == map[] && op.Create? && Apply(rank, db.rows, op).1.Version?
    ensures
      var insert := CreateInsert(0, op.identity, op.task, op.now);
      && Enabled(db, insert)
      && Enabled(Do(rank, db, insert), Commit(0))
      && Do(rank, Do(rank, db, insert), Commit(0)) == Called(rank, db, op)
  {
    hide VerifiedOwner;
    var inserted := Do(rank, db, CreateInsert(0, op.identity, op.task, op.now));
    assert inserted.open - {0} == map[];
  }

  lemma CreateRefused(rank: Collation, db: Db, op: Op)
    requires db.open == map[] && op.Create? && op.now == 0 && !Apply(rank, db.rows, op).1.Version?
    ensures Enabled(db, CreateRefuse(op.identity, op.task))
    ensures Do(rank, db, CreateRefuse(op.identity, op.task)) == Called(rank, db, op)
  {
    hide VerifiedOwner;
  }

  lemma OwnerErrors(identity: Option<Identity>)
    ensures VerifiedOwner(identity).Err? ==> VerifiedOwner(identity).error == Unauthenticated
  {
  }

  /** An Update that finds the caller's row can lock it. */
  lemma UpdateLocks(rank: Collation, db: Db, op: Op)
    requires db.open == map[] && op.Update?
    requires
      var reply := Apply(rank, db.rows, op).1;
      reply.Version? || reply == Failed(ConcurrentModification) || reply == Failed(DatabaseError)
    ensures
      var lock := UpdateLock(0, op.identity, op.request);
      && RequestTask(op.request).Some? && op.request.value.task.value.id in db.rows
      && Enabled(db, lock)
      && Do(rank, db, lock)
         == db.(open := map[0 := Txn.Locked(op.identity, op.request, db.rows[op.request.value.task.value.id].version)])
  {
    hide VerifiedOwner, NextRow;
    OwnerErrors(op.identity);
  }

  lemma UpdateWrites(rank: Collation, db: Db, op: Op)
    requires db.open == map[] && op.Update? && Apply(rank, db.rows, op).1.Version?
    requires Enabled(db, UpdateLock(0, op.identity, op.request))
    ensures
      var locked := Do(rank, db, UpdateLock(0, op.identity, op.request));
      && Enabled(locked, UpdateWrite(0, op.now))
      && var written := Do(rank, locked, UpdateWrite(0, op.now));
         Enabled(written, Commit(0)) && Do(rank, written, Commit(0)) == Called(rank, db, op)
  {
    hide VerifiedOwner;
    UpdateLocks(rank, db, op);
    var written := Do(rank, Do(rank, db, UpdateLock(0, op.identity, op.request)), UpdateWrite(0, op.now));
    assert written.open - {0} == map[];
  }

  /** Under the lock the versions differ, or the version is the largest there is. */
  lemma UpdateStops(rank: Collation, db: Db, op: Op)
    requires db.open == map[] && op.Update? && op.now == 0
    requires Enabled(db, UpdateLock(0, op.identity, op.request))
    requires
      var reply := Apply(rank, db.rows, op).1;
      reply == Failed(ConcurrentModification) || reply == Failed(DatabaseError)
    ensures
      var locked := Do(rank, db, UpdateLock(0, op.identity, op.request));
      var conflict := Apply(rank, db.rows, op).1 == Failed(ConcurrentModification);
      var stop := if conflict then UpdateReject(0) else UpdateFail(0);
      Enabled(locked, stop) && Do(rank, locked, stop) == Called(rank, db, op)
  {
    hide VerifiedOwner, NextRow;
    OwnerErrors(op.identity);
    UpdateLocks(rank, db, op);
    var locked := Do(rank, db, UpdateLock(0, op.identity, op.request));
    assert locked.open - {0} == map[];
  }

  lemma UpdateRefused(rank: Collation, db: Db, op: Op)
    requires db.open == map[] && op.Update? && op.now == 0
    requires
      var reply := Apply(rank, db.rows, op).1;
      !(reply.Version? || reply == Failed(ConcurrentModification) || reply == Failed(DatabaseError))
    ensures Enabled(db, UpdateRefuse(op.identity, op.request))
    ensures Do(rank, db, UpdateRefuse(op.identity, op.request)) == Called(rank, db, op)
  {
    hide VerifiedOwner, NextRow;
  }

  lemma ReadCalled(rank: Collation, db: Db, op: Op)
    requires db.open == map[] && (op.Get? || op.List?)
    ensures Enabled(db, Read(op)) && Do(rank, db, Read(op)) == Called(rank, db, op)
  {
    hide VerifiedOwner, Listing.ListTasks, OwnerKey;
  }

  // ---------- whole logs ----------

  lemma ThenOne(rank: Collation, trace: seq<Action>, db: Db, a: Action) returns (trace': seq<Action>)
    requires Run(rank, EMPTY, trace, db) && Enabled(db, a)
    ensures Run(rank, EMPTY, trace', Do(rank, db, a))
  {
    hide *;
    RunSnoc(rank, EMPTY, trace, db, a);
    trace' := trace + [a];
  }

  lemma ThenTwo(rank: Collation, trace: seq<Action>, db: Db, a: Action, b: Action) returns (trace': seq<Action>)
    requires Run(rank, EMPTY, trace, db) && Enabled(db, a) && Enabled(Do(rank, db, a), b)
    ensures Run(rank, EMPTY, trace', Do(rank, Do(rank, db, a), b))
  {
    hide *;
    trace' := ThenOne(rank, trace, db, a);
    trace' := ThenOne(rank, trace', Do(rank, db, a), b);
  }

  lemma ThenThree(rank: Collation, trace: seq<Action>, db: Db, a: Action, b: Action, c: Action)
    returns (trace': seq<Action>)
    requires Run(rank, EMPTY, trace, db) && Enabled(db, a) && Enabled(Do(rank, db, a), b)
    requires Enabled(Do(rank, Do(rank, db, a), b), c)
    ensures Run(rank, EMPTY, trace', Do(rank, Do(rank, Do(rank, db, a), b), c))
  {
    hide *;
    trace' := ThenTwo(rank, trace, db, a, b);
    trace' := ThenOne(rank, trace', Do(rank, Do(rank, db, a), b), c);
  }

  /** The run goes on with one call by itself. */
  lemma RunsOn(rank: Collation, trace: seq<Action>, db: Db, op: Op) returns (trace': seq<Action>)
    requires Run(rank, EMPTY, trace, db) && db.open == map[]
    requires Plain(Event(op, Apply(rank, db.rows, op).1))
    ensures Run(rank, EMPTY, trace', Called(rank, db, op))
  {
    hide Apply, Run, Enabled, Do, Called;
    var reply := Apply(rank, db.rows, op).1;
    if op.Create? && reply.Version? {
      CreateCalled(rank, db, op);
      trace' := ThenTwo(rank, trace, db, CreateInsert(0, op.identity, op.task, op.now), Commit(0));
    } else if op.Create? {
      CreateRefused(rank, db, op);
      trace' := ThenOne(rank, trace, db, CreateRefuse(op.identity, op.task));
    } else if op.Update? {
      trace' := UpdateRunsOn(rank, trace, db, op);
    } else {
      ReadCalled(rank, db, op);
      trace' := ThenOne(rank, trace, db, Read(op));
    }
  }

  lemma UpdateRunsOn(rank: Collation, trace: seq<Action>, db: Db, op: Op) returns (trace': seq<Action>)
    requires Run(rank, EMPTY, trace, db) && db.open == map[] && op.Update?
    requires Plain(Event(op, Apply(rank, db.rows, op).1))
    ensures Run(rank, EMPTY, trace', Called(rank, db, op))
  {
    hide Apply, Run, Enabled, Do, Called;
    var reply, lock := Apply(rank, db.rows, op).1, UpdateLock(0, op.identity, op.request);
    if reply.Version? {
      UpdateLocks(rank, db, op);
      UpdateWrites(rank, db, op);
      trace' := ThenThree(rank, trace, db, lock, UpdateWrite(0, op.now), Commit(0));
    } else if reply == Failed(ConcurrentModification) || reply == Failed(DatabaseError) {
      UpdateLocks(rank, db, op);
      UpdateStops(rank, db, op);
      var conflict := reply == Failed(ConcurrentModification);
      trace' := ThenTwo(rank, trace, db, lock, if conflict then UpdateReject(0) else UpdateFail(0));
    } else {
      UpdateRefused(rank, db, op);
      trace' := ThenOne(rank, trace, db, UpdateRefuse(op.identity, op.request));
    }
  }

  ghost predicate AllPlain(log: seq<Event>) {
    forall i | 0 <= i < |log| :: Plain(log[i])
  }

  /** Every legal log can happen, even with no two calls at once. */
  lemma {:induction false} LegalLogRuns(rank: Collation, log: seq<Event>) returns (actions: seq<Action>, db: Db)
    requires Legal(rank, log) && AllPlain(log)
    ensures Run(rank, EMPTY, actions, db)
    ensures db.log == log && db.open == map[] && db.rows == After(rank, log)
  {
    hide Apply, Run, Legal, After, Plain;
    if log == [] {
      actions, db := [], EMPTY;
      NothingRuns(rank);
    } else {
      var init, e := log[..|log| - 1], log[|log| - 1];
      LegalPrefix(rank, log, |log| - 1);
      actions, db := LegalLogRuns(rank, init);
      Answered(rank, log, |log| - 1);
      AfterStep(rank, log, |log| - 1);
      assert log == init + [e] && log[..|log| - 1 + 1] == log;
      actions := RunsOn(rank, actions, db, e.op);
      db := Called(rank, db, e.op);
    }
  }

  lemma NothingRuns(rank: Collation)
    ensures Run(rank, EMPTY, [], EMPTY) && After(rank, []) == EMPTY.rows && EMPTY.log == [] && EMPTY.open == map[]
  {
  }

  lemma StepPlain(rank: Collation, db: Db, a: Action)
    requires Enabled(db, a) && AllPlain(db.log)
    ensures AllPlain(Do(rank, db, a).log)
  {
    hide VerifiedOwner, Listing.ListTasks, Apply, NextRow, NewRow, Owns, Updatable;
  }

  lemma {:induction false} RunPlain(rank: Collation, db: Db, actions: seq<Action>, db': Db)
    requires Run(rank, db, actions, db') && AllPlain(db.log)
    ensures AllPlain(db'.log)
    decreases |actions|
  {
    hide Enabled, Do, AllPlain;
    if actions != [] {
      StepPlain(rank, db, actions[0]);
      RunPlain(rank, Do(rank, db, actions[0]), actions[1..], db');
    }
  }

  /** Some interleaving has this log. */
  ghost predicate Happens(rank: Collation, log: seq<Event>) {
    exists actions, db :: Run(rank, EMPTY, actions, db) && db.log == log
  }

  /**
   The logs of interleavings are exactly the legal ones: concurrency adds no outcome to those of calls
   run one at a time, and takes none away.
   */
  lemma HappensExactly(rank: Collation, log: seq<Event>)
    ensures Happens(rank, log) <==> Legal(rank, log) && AllPlain(log)
  {
    hide Run, Legal, AllPlain;
    if Happens(rank, log) {
      var actions, db :| Run(rank, EMPTY, actions, db) && db.log == log;
      Linearizable(rank, actions, db);
      NothingPlain();
      RunPlain(rank, EMPTY, actions, db);
    }
    if Legal(rank, log) && AllPlain(log) {
      var actions, db := LegalLogRuns(rank, log);
    }
  }

  lemma NothingPlain()
    ensures AllPlain(EMPTY.log)
  {
  }
}
