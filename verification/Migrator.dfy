/** Migrate and VerifySchema as they run, statement by statement, against a server that others use at the same time. */
module Migrator {
  import opened Text
  import opened MigrationSet
  import opened MigrationLedger
  import opened MigrationRuns
  import MigrationAlone

  datatype Outcome = Answered | Refused | Lost

  /** What happens around one statement: what others do before it is carried out, and what becomes of it. */
  datatype Turn = Turn(others: seq<Move>, outcome: Outcome)

  /** Nobody else acts around these statements, and each of them is answered. */
  predicate Calm(turns: nat -> Turn, from: nat, to: nat) {
    forall k | from <= k < to :: turns(k) == Turn([], Answered)
  }

  lemma CalmParts(turns: nat -> Turn, from: nat, middle: nat, to: nat)
    requires from <= middle <= to
    ensures Calm(turns, from, to) <==> Calm(turns, from, middle) && Calm(turns, middle, to)
  {
  }

  /** All that has been done since is the process's own. */
  predicate OwnSince(p: Pid, before: seq<Move>, after: seq<Move>) {
    before <= after && MigrationAlone.OwnMoves(p, after[|before|..])
  }

  lemma OwnMove(p: Pid, before: seq<Move>, m: Move)
    requires m == Acquire(p) || m == Reply(p) || m == Skip(p)
    ensures OwnSince(p, before, before + [m])
  {
  }

  lemma OwnNothing(p: Pid, trace: seq<Move>)
    ensures OwnSince(p, trace, trace)
  {
  }

  lemma OwnThrough(p: Pid, a: seq<Move>, b: seq<Move>, c: seq<Move>)
    requires OwnSince(p, a, b) && OwnSince(p, b, c)
    ensures OwnSince(p, a, c)
  {
    assert c[|a|..] == b[|a|..] + c[|b|..];
  }

  lemma Onward(p: Pid, a: seq<Move>, b: seq<Move>, c: seq<Move>)
    ensures OwnSince(p, a, b) && OwnSince(p, b, c) ==> OwnSince(p, a, c)
  {
    hide OwnSince;
    if OwnSince(p, a, b) && OwnSince(p, b, c) {
      OwnThrough(p, a, b, c);
    }
  }

  lemma {:induction false} RunSuffix<S>(run: (S, Str) -> S, w: World<S>, a: seq<Move>, w1: World<S>, b: seq<Move>,
          w2: World<S>)
    requires a <= b && Run(run, w, a, w1) && Run(run, w, b, w2)
    ensures Run(run, w1, b[|a|..], w2)
    decreases |a|
  {
    hide Enabled, Do;
    if a == [] {
      assert b[0..] == b;
    } else {
      RunSuffix(run, Do(run, w, a[0]), a[1..], w1, b[1..], w2);
      assert b[1..][|a| - 1..] == b[|a|..];
    }
  }

  /** A process is untouched by others, except that its session may have died. */
  ghost predicate Untouched<S>(before: Proc<S>, a: Proc<S>) {
    && a.embedded == before.embedded && a.kind == before.kind && a.pc == before.pc
    && a.conn == before.conn && a.disposals == before.disposals
  }

  /**
   The connection was disposed of once if there was one, it went back to the pool only without the
   lock, and on success every embedded migration is recorded.
   */
  ghost predicate Finished<S>(w: World<S>, p: Pid, ok: bool) {
    && p in w.procs && w.procs[p].pc == Done(ok)
    && w.procs[p].disposals == (if w.procs[p].conn == Unacquired then 0 else 1) && !w.procs[p].conn.InUse?
    && (w.procs[p].conn == Returned ==> w.holder != Some(p))
    && (ok ==> w.procs[p].conn == Returned && w.ledger.Some? && Covers(w.executed, w.procs[p].embedded))
  }

  lemma ReachesFinish<S(!new)>(run: (S, Str) -> S, initial: S, trace: seq<Move>, w: World<S>, p: Pid, ok: bool)
    requires Run(run, Empty(initial), trace, w)
    requires p in w.procs && w.procs[p].pc == Done(ok)
    ensures Finished(w, p, ok)
  {
    hide Run, Covers, Fold, Ascending, Sound, Passed, Front, LedgerOf;
    assert Reachable(run, initial, w);
    DisposedOnce(run, initial, w, p);
    ReachableInv(run, initial, w);
    assert ProcInv(run, w, p, w.procs[p]);
    if ok {
      SuccessLasts(run, initial, w, p);
    }
  }

  /**
   The server and its clients. `turns` is an arbitrary course of events around the statements of one
   process, and `iterate` the order in which it walks a map.
   */
  class Server<S(!new)> {
    const run: (S, Str) -> S
    const initial: S
    const turns: nat -> Turn
    const iterate: Ledger -> seq<int>
    var asked: nat
    var w: World<S>
    ghost var trace: seq<Move>

    constructor (run: (S, Str) -> S, initial: S, turns: nat -> Turn, iterate: Ledger -> seq<int>)
      requires forall ledger, v :: v in iterate(ledger) <==> v in ledger
      ensures Valid()
      ensures w == Empty(initial)
    {
      this.run, this.initial, this.turns, this.iterate := run, initial, turns, iterate;
      asked, w, trace := 0, Empty(initial), [];
    }

    /** All that has happened so far is a run of the protocol. */
    ghost predicate Valid()
      reads this
    {
      && Run(run, Empty(initial), trace, w)
      && forall ledger, v :: v in iterate(ledger) <==> v in ledger
    }

    /** The migrations that a process has committed so far, in order. */
    ghost function ExecutedBy(p: Pid): seq<Migration>
      reads `trace
    {
      Executions(run, Empty(initial), trace, p)
    }

    method Step(m: Move)
      requires Valid() && Enabled(w, m)
      modifies this`w, this`trace
      ensures Valid() && w == Do(run, old(w), m) && trace == old(trace) + [m]
      ensures forall q :: ExecutedBy(q) == old(ExecutedBy(q)) + if q == m.p then Grown(old(w), w) else []
    {
      hide Do, Enabled, Executions, Grown;
      MigrationAlone.RunMore(run, Empty(initial), trace, w, m);
      forall q
        ensures Executions(run, Empty(initial), trace + [m], q)
             == Executions(run, Empty(initial), trace, q) + if q == m.p then Grown(w, Do(run, w, m)) else []
      {
        ExecutionsSnoc(run, Empty(initial), trace, w, m, q);
      }
      w, trace := Do(run, w, m), trace + [m];
    }

    /** Whatever others get done meanwhile, and what is left to the session of the process itself. */
    method Interfere(p: Pid, others: seq<Move>)
      requires Valid() && p in w.procs
      modifies this`w, this`trace
      ensures Valid()
      ensures p in w.procs && Untouched(old(w.procs[p]), w.procs[p])
      ensures old(w.procs[p]).orphan == None ==> w.procs[p].orphan == None && ExecutedBy(p) == old(ExecutedBy(p))
      ensures others == [] ==> w == old(w) && trace == old(trace)
    {
      hide Do, Enabled, Run, ExecutedBy, Grown;
      for i := 0 to |others|
        invariant Valid()
        invariant p in w.procs && Untouched(old(w.procs[p]), w.procs[p])
        invariant old(w.procs[p]).orphan == None ==> w.procs[p].orphan == None && ExecutedBy(p) == old(ExecutedBy(p))
        invariant others == [] ==> w == old(w) && trace == old(trace)
      {
        var m := others[i];
        if (m.p != p || m.End? || m.Orphan?) && Enabled(w, m) {
          OthersUntouched(run, w, p, m);
          Step(m);
        }
      }
    }

    /**
     Sends the statement that the process has come to. When it is answered, `seen` is the state in
     which it was carried out.
     */
    method Ask(p: Pid) returns (answered: bool, seen: World<S>)
      requires Valid() && p in w.procs && w.procs[p].Asking()
      modifies this
      ensures Valid() && p in w.procs
      ensures answered ==>
                && p in seen.procs && Untouched(old(w.procs[p]), seen.procs[p])
                && Inv(run, initial, seen)
                && Enabled(seen, Reply(p))
                && w == Do(run, seen, Reply(p))
                && ExecutedBy(p) == old(ExecutedBy(p)) + Grown(seen, w)
      ensures !answered ==>
                && w.procs[p].pc == GivenUp(old(w.procs[p]).pc)
                && w.procs[p].embedded == old(w.procs[p]).embedded && w.procs[p].kind == old(w.procs[p]).kind
                && w.procs[p].conn != Unacquired
      ensures !answered && !old(w.procs[p]).pc.Release? ==> ExecutedBy(p) == old(ExecutedBy(p))
      ensures asked == old(asked) + 1
      ensures Calm(turns, old(asked), asked) && old(w.procs[p]).Connected() ==>
                (old(w.procs[p]).pc.Waiting? ==> old(w.holder) == None) ==>
                  answered && seen == old(w) && OwnSince(p, old(trace), trace)
    {
      hide Do, Run, Inv, ExecutedBy, Grown;
      NothingLeft(run, initial, trace, w, p);
      var turn := turns(asked);
      asked := asked + 1;
      Interfere(p, turn.others);
      seen := w;
      if turn.outcome.Answered? && Enabled(w, Reply(p)) {
        assert Inv(run, initial, seen) by {
          EmptyInv(run, initial);
          RunKeepsInv(run, initial, Empty(initial), trace, w);
        }
        Proceeds(run, w, p);
        OwnMove(p, trace, Reply(p));
        Step(Reply(p));
        answered := true;
      } else {
        answered := false;
        GaveUp(run, w, p);
        Step(if turn.outcome.Refused? && Enabled(w, Refuse(p)) then Refuse(p) else Break(p));
      }
    }

    // ---------- the program ----------

    /** SELECT pg_advisory_unlock: the connection goes back to the pool only if the lock was held. */
    method ReleaseMigrationLock(p: Pid, ok: bool) returns (ok': bool)
      requires Valid() && p in w.procs && w.procs[p].pc == Release(ok)
      modifies this
      ensures Valid() && p in w.procs && w.procs[p].pc == Done(ok') && w.procs[p].embedded == old(w.procs[p]).embedded
      ensures w.procs[p].kind == old(w.procs[p]).kind
      ensures old(w.procs[p]).Connected() ==> old(w.holder) == Some(p)
      ensures ok' ==> ok && w.procs[p].conn == Returned && w.holder != Some(p) && ExecutedBy(p) == old(ExecutedBy(p))
      ensures w.procs[p].disposals == 1 && (w.procs[p].conn == Returned || w.procs[p].conn == Closed)
      ensures w.procs[p].conn == Returned ==> w.holder != Some(p)
      ensures ok' ==> w.ledger.Some? && SetMatches(w.procs[p].embedded, w.ledger.value, false)
      ensures old(asked) <= asked
      ensures Calm(turns, old(asked), asked) && old(w.procs[p]).Connected() ==> OwnSince(p, old(trace), trace)
    {
      hide OwnSince, Run, Do, Inv, ExecutedBy, Grown, SetMatches;
      HoldsLock(run, initial, trace, w, p, ok);
      var answered, seen := Ask(p);
      ghost var done := if answered && seen.holder == Some(p) then ok else false;
      if answered {
        Proceeds(run, seen, p);
      }
      Unlocked(run, initial, trace, w, p, done);
      if !answered {
        return false;
      }
      var unlocked := seen.holder == Some(p);
      if !unlocked {
        return false;
      }
      if ok {
        EndsVerified(run, initial, seen, p);
      }
      return ok;
    }

    /** What goes on inside the transaction: the contents are executed, and the record is inserted. */
    method ExecuteAndRecord(p: Pid, item: Migration) returns (ok: bool)
      requires Valid() && p in w.procs && w.procs[p].pc.Loop? && w.procs[p].Asking()
      requires item == w.procs[p].embedded[w.procs[p].pc.i]
      modifies this
      ensures Valid() && p in w.procs && w.procs[p].embedded == old(w.procs[p]).embedded
      ensures w.procs[p].kind == old(w.procs[p]).kind
      ensures !ok ==> w.procs[p].pc == Release(false)
      ensures ok ==>
                && w.procs[p].pc.Recorded?
                && w.procs[p].pc.applied == old(w.procs[p]).pc.applied && w.procs[p].pc.i == old(w.procs[p]).pc.i
      ensures ExecutedBy(p) == old(ExecutedBy(p))
      ensures old(asked) <= asked
      ensures Calm(turns, old(asked), asked) && old(w.procs[p]).Connected() ==>
                w.procs[p].Connected() && OwnSince(p, old(trace), trace)
    {
      hide OwnSince, Run, Do, Enabled, Inv, ExecutedBy, Grown;
      var executed, before := Ask(p);
      if !executed {
        return false;
      }
      Proceeds(run, before, p);
      ghost var middle := trace;
      var recorded, seen := Ask(p);
      if !recorded {
        return false;
      }
      Proceeds(run, seen, p);
      Onward(p, old(trace), middle, trace);
      return seen.ledger.Some? && item.version !in seen.ledger.value;
    }

    /** Executes one migration and records it, in one transaction. */
    method ApplyMigration(p: Pid, item: Migration) returns (ok: bool)
      requires Valid() && p in w.procs && w.procs[p].pc.Loop? && w.procs[p].Asking()
      requires item == w.procs[p].embedded[w.procs[p].pc.i]
      modifies this
      ensures Valid() && p in w.procs && w.procs[p].embedded == old(w.procs[p]).embedded
      ensures w.procs[p].kind == old(w.procs[p]).kind
      ensures w.procs[p].pc == if ok then Loop(old(w.procs[p]).pc.applied, old(w.procs[p]).pc.i + 1) else Release(false)
      ensures ExecutedBy(p) == old(ExecutedBy(p)) + if ok then [item] else []
      ensures ok ==>
                && item in w.executed && w.ledger.Some?
                && item.version in w.ledger.value
                && w.ledger.value[item.version] == Applied(item.name, item.checksum)
      ensures old(asked) <= asked
      ensures Calm(turns, old(asked), asked) && old(w.procs[p]).Connected() ==>
                w.procs[p].Connected() && OwnSince(p, old(trace), trace)
    {
      hide OwnSince, Run, Do, Enabled, Inv, ExecutedBy, Grown, Record;
      var prepared := ExecuteAndRecord(p, item);
      if !prepared {
        return false;
      }
      ghost var middle := trace;
      var committed, seen := Ask(p);
      Onward(p, old(trace), middle, trace);
      if committed {
        Proceeds(run, seen, p);
        Commits(run, seen, p);
      }
      return committed;
    }

    /** Loads the ledger once and checks the embedded migrations against it. */
    method LoadAndVerify(p: Pid, items: seq<Migration>, allowPending: bool) returns (ok: bool, applied: Ledger)
      requires Valid() && p in w.procs && w.procs[p].pc.Created? && w.procs[p].embedded == items
      requires allowPending == w.procs[p].kind.Migrate?
      requires Distinct(items) && Positive(items)
      modifies this
      ensures Valid() && p in w.procs && w.procs[p].embedded == items
      ensures w.procs[p].kind == old(w.procs[p]).kind
      ensures w.procs[p].pc == if !ok then Release(false) else if allowPending then Loop(applied, 0) else Release(true)
      ensures ok ==> SetMatches(items, applied, allowPending)
      ensures ExecutedBy(p) == old(ExecutedBy(p))
      ensures old(asked) <= asked
      ensures Calm(turns, old(asked), asked) && old(w.procs[p]).Connected() ==>
                w.procs[p].Connected() && OwnSince(p, old(trace), trace)
    {
      hide OwnSince, Run, Do, Inv, SetMatches, Enabled, ExecutedBy, Grown;
      var loaded, seen := Ask(p);
      if !loaded {
        return false, map[];
      }
      Proceeds(run, seen, p);
      if seen.ledger.None? {
        return false, map[];
      }
      applied := seen.ledger.value;
      var error := VerifyMigrationSet(items, applied, iterate(applied), allowPending);
      ok := error == None;
    }

    /** Goes through the embedded migrations in order, deciding by the ledger loaded before. */
    method ApplyPending(p: Pid, items: seq<Migration>, applied: Ledger) returns (ok: bool)
      requires Valid() && p in w.procs && w.procs[p].pc == Loop(applied, 0) && w.procs[p].embedded == items
      modifies this
      ensures Valid() && p in w.procs && w.procs[p].pc == Release(ok) && w.procs[p].embedded == items
      ensures w.procs[p].kind == old(w.procs[p]).kind
      ensures ok ==> ExecutedBy(p) == old(ExecutedBy(p)) + Unrecorded(items, applied) && Covers(w.executed, items)
      ensures !ok ==> exists i | 0 <= i < |items| ::
                items[i].version !in applied && ExecutedBy(p) == old(ExecutedBy(p)) + Unrecorded(items[..i], applied)
      ensures old(asked) <= asked
      ensures Calm(turns, old(asked), asked) && old(w.procs[p]).Connected() ==>
                w.procs[p].Connected() && OwnSince(p, old(trace), trace)
    {
      hide OwnSince, Run, Do, Inv, ExecutedBy, Grown, Unrecorded, Covers;
      NothingUnrecorded(applied);
      OwnNothing(p, trace);
      assert items[..0] == [];
      for i := 0 to |items|
        invariant Valid() && p in w.procs && w.procs[p].pc == Loop(applied, i) && w.procs[p].embedded == items
        invariant w.procs[p].kind == old(w.procs[p]).kind
        invariant ExecutedBy(p) == old(ExecutedBy(p)) + Unrecorded(items[..i], applied)
        invariant old(asked) <= asked
        invariant Calm(turns, old(asked), asked) && old(w.procs[p]).Connected() ==>
            w.procs[p].Connected() && OwnSince(p, old(trace), trace)
      {
        UnrecordedOneMore(items, applied, i);
        ghost var before := trace;
        if items[i].version in applied {
          Skips(run, w, p);
          OwnMove(p, trace, Skip(p));
          Step(Skip(p));
          Onward(p, old(trace), before, trace);
        } else {
          var done := ApplyMigration(p, items[i]);
          Onward(p, old(trace), before, trace);
          if !done {
            return false;
          }
        }
      }
      assert items[..|items|] == items;
      Skips(run, w, p);
      ghost var before := trace;
      OwnMove(p, trace, Skip(p));
      Step(Skip(p));
      Onward(p, old(trace), before, trace);
      AllRecorded(run, initial, trace, w, p);
      return true;
    }

    /** Migrate between locking and unlocking. */
    method CreateAndApply(p: Pid, items: seq<Migration>) returns (ok: bool, applied: Ledger)
      requires Valid() && p in w.procs && w.procs[p].pc.Locked? && w.procs[p].kind.Migrate?
          && w.procs[p].embedded == items
      requires Distinct(items) && Positive(items)
      modifies this
      ensures Valid() && p in w.procs && w.procs[p].pc == Release(ok) && w.procs[p].embedded == items
      ensures w.procs[p].kind == old(w.procs[p]).kind
      ensures ok ==> SetMatches(items, applied, true)
      ensures ok ==> ExecutedBy(p) == old(ExecutedBy(p)) + Unrecorded(items, applied)
      ensures old(asked) <= asked
      ensures Calm(turns, old(asked), asked) && old(w.procs[p]).Connected() ==>
                w.procs[p].Connected() && OwnSince(p, old(trace), trace)
    {
      hide OwnSince, Run, Do, Inv, Enabled, Distinct, Positive, ExecutedBy, Grown, SetMatches, Unrecorded, Covers, Calm;
      var created, before := Ask(p);
      if !created {
        return false, map[];
      }
      Proceeds(run, before, p);
      ghost var middle, since := trace, asked;
      ok, applied := LoadAndVerify(p, items, true);
      Onward(p, old(trace), middle, trace);
      CalmParts(turns, old(asked), since, asked);
      if !ok {
        return;
      }
      middle, since := trace, asked;
      ok := ApplyPending(p, items, applied);
      Onward(p, old(trace), middle, trace);
      CalmParts(turns, old(asked), since, asked);
    }

    /** VerifySchema between locking and unlocking: a missing ledger table is an error. */
    method LocateAndVerify(p: Pid, items: seq<Migration>) returns (ok: bool)
      requires Valid() && p in w.procs && w.procs[p].pc.Locked? && w.procs[p].kind.Verify?
          && w.procs[p].embedded == items
      requires Distinct(items) && Positive(items)
      modifies this
      ensures Valid() && p in w.procs && w.procs[p].pc == Release(ok) && w.procs[p].embedded == items
      ensures w.procs[p].kind == old(w.procs[p]).kind
      ensures old(asked) <= asked
      ensures Calm(turns, old(asked), asked) && old(w.procs[p]).Connected() ==>
                w.procs[p].Connected() && OwnSince(p, old(trace), trace)
    {
      hide OwnSince, Run, Do, Inv, Enabled, Distinct, Positive, ExecutedBy, Grown, SetMatches;
      var located, before := Ask(p);
      if !located {
        return false;
      }
      Proceeds(run, before, p);
      if before.ledger.None? {
        return false;
      }
      ghost var middle := trace;
      var verified, _ := LoadAndVerify(p, items, false);
      Onward(p, old(trace), middle, trace);
      return verified;
    }

    /** From the start to the end of a process that migrates; nil exactly when it ends well. */
    method MigrateItems(p: Pid, items: seq<Migration>) returns (ok: bool)
      requires Valid() && p in w.procs && w.procs[p].pc.Start? && w.procs[p].kind.Migrate?
          && w.procs[p].embedded == items
      requires Distinct(items) && Positive(items)
      modifies this
      ensures Valid() && p in w.procs && w.procs[p].pc == Done(ok) && w.procs[p].embedded == items
      ensures ok ==> w.ledger.Some? && SetMatches(items, w.ledger.value, false)
      ensures ok ==> exists applied ::
                SetMatches(items, applied, true)
                && ExecutedBy(p) == old(ExecutedBy(p)) + Unrecorded(items, applied)
      ensures Calm(turns, old(asked), asked) && old(w.holder) == None ==> OwnSince(p, old(trace), trace)
    {
      hide OwnSince, ExecutedBy, Grown, SetMatches, Unrecorded, Run, Do, Enabled, Inv, Positive, Distinct;
      var locked := AcquireLock(p);
      if !locked {
        return false;
      }
      ghost var middle := trace;
      var applied;
      ok, applied := CreateAndApply(p, items);
      Onward(p, old(trace), middle, trace);
      middle := trace;
      ok := ReleaseMigrationLock(p, ok);
      Onward(p, old(trace), middle, trace);
    }

    method VerifyItems(p: Pid, items: seq<Migration>) returns (ok: bool)
      requires Valid() && p in w.procs && w.procs[p].pc.Start? && w.procs[p].kind.Verify?
          && w.procs[p].embedded == items
      requires Distinct(items) && Positive(items)
      modifies this
      ensures Valid() && p in w.procs && w.procs[p].pc == Done(ok) && w.procs[p].embedded == items
      ensures w.procs[p].kind.Verify?
      ensures ok ==> w.ledger.Some? && SetMatches(items, w.ledger.value, false)
      ensures Calm(turns, old(asked), asked) && old(w.holder) == None ==> OwnSince(p, old(trace), trace)
    {
      hide OwnSince, ExecutedBy, Grown, SetMatches, Run, Do, Enabled, Inv, Positive, Distinct;
      var locked := AcquireLock(p);
      if !locked {
        return false;
      }
      ghost var middle := trace;
      ok := LocateAndVerify(p, items);
      Onward(p, old(trace), middle, trace);
      middle := trace;
      ok := ReleaseMigrationLock(p, ok);
      Onward(p, old(trace), middle, trace);
    }

    /**
     Nil exactly when the process ends well; without readable migrations it never reaches the server.
     When nothing fails and nobody interferes, it succeeds exactly when it should.
     */
    method Migrate(p: Pid, files: seq<File>, sha256: Str -> Str) returns (ok: bool)
      requires Valid() && p !in w.procs
      modifies this
      ensures Valid()
      ensures !Migratable(files) ==> !ok && w == old(w)
      ensures Migratable(files) ==>
                && Finished(w, p, ok)
                && (ok ==> SetMatches(w.procs[p].embedded, w.ledger.value, false))
                && Reading(w.procs[p].embedded, files, sha256)
      ensures ok ==> exists applied ::
                SetMatches(w.procs[p].embedded, applied, true)
                && ExecutedBy(p) == old(ExecutedBy(p)) + Unrecorded(w.procs[p].embedded, applied)
      ensures Migratable(files) && Calm(turns, old(asked), asked) && old(w.holder) == None ==>
                Migrated(old(w), w, w.procs[p].embedded, ok)
    {
      hide OwnSince, ExecutedBy, Grown, SetMatches, Unrecorded, Run, Do, Enabled, Inv, Ascending, Positive, Distinct,
          Finished, Migratable, Reading, Migrated, Calm;
      var read := ReadMigrations(files, sha256);
      if read.Err? {
        return false;
      }
      var items := read.value;
      AscendingDistinct(items);
      Begins(run, w, p, items, Kind.Migrate);
      Step(Begin(p, items, Kind.Migrate));
      ok := MigrateItems(p, items);
      ReachesFinish(run, initial, trace, w, p, ok);
      MigratedAlone(run, initial, old(trace), old(w), p, items, trace, w, ok);
    }

    method VerifySchema(p: Pid, files: seq<File>, sha256: Str -> Str) returns (ok: bool)
      requires Valid() && p !in w.procs
      modifies this
      ensures Valid()
      ensures !Migratable(files) ==> !ok && w == old(w)
      ensures Migratable(files) ==>
                && Finished(w, p, ok)
                && (ok ==> SetMatches(w.procs[p].embedded, w.ledger.value, false))
                && Reading(w.procs[p].embedded, files, sha256)
                && Silent(run, Empty(initial), trace, p)
      ensures Migratable(files) && Calm(turns, old(asked), asked) && old(w.holder) == None ==>
                SameTables(old(w), w)
                && ok == (old(w).ledger.Some? && SetMatches(w.procs[p].embedded, old(w).ledger.value, false))
    {
      hide OwnSince, ExecutedBy, Grown, SetMatches, Silent, Run, Do, Enabled, Inv, Ascending, Positive, Distinct,
          Finished, Migratable, Reading, SameTables, Calm;
      var read := ReadMigrations(files, sha256);
      if read.Err? {
        return false;
      }
      var items := read.value;
      AscendingDistinct(items);
      Begins(run, w, p, items, Kind.Verify);
      Step(Begin(p, items, Kind.Verify));
      ok := VerifyItems(p, items);
      ReachesFinish(run, initial, trace, w, p, ok);
      VerifyIsSilent(run, initial, trace, w, p);
      VerifiedAlone(run, initial, old(trace), old(w), p, items, trace, w, ok);
    }

    /** pool.Acquire, then SELECT pg_advisory_lock. */
    method AcquireLock(p: Pid) returns (locked: bool)
      requires Valid() && p in w.procs && w.procs[p].pc.Start?
      modifies this
      ensures Valid() && p in w.procs
      ensures w.procs[p].embedded == old(w.procs[p]).embedded && w.procs[p].kind == old(w.procs[p]).kind
      ensures w.procs[p].pc == if locked then Locked else Done(false)
      ensures ExecutedBy(p) == old(ExecutedBy(p))
      ensures old(asked) <= asked
      ensures Calm(turns, old(asked), asked) && old(w.holder) == None ==>
                locked && w.procs[p].Connected() && OwnSince(p, old(trace), trace)
    {
      hide OwnSince, ExecutedBy, Grown, Run, Do, Enabled, Inv;
      var acquired := Connect(p);
      if !acquired {
        return false;
      }
      ghost var middle := trace;
      var before;
      locked, before := Ask(p);
      Onward(p, old(trace), middle, trace);
      if locked {
        Proceeds(run, before, p);
      }
    }

    /** pool.Acquire. */
    method Connect(p: Pid) returns (acquired: bool)
      requires Valid() && p in w.procs && w.procs[p].pc.Start?
      modifies this
      ensures Valid() && p in w.procs
      ensures w.procs[p].embedded == old(w.procs[p]).embedded && w.procs[p].kind == old(w.procs[p]).kind
      ensures w.procs[p].pc == if acquired then Waiting else Done(false)
      ensures ExecutedBy(p) == old(ExecutedBy(p))
      ensures old(asked) <= asked
      ensures Calm(turns, old(asked), asked) ==>
                acquired && w.procs[p].Connected() && w.holder == old(w.holder) && OwnSince(p, old(trace), trace)
    {
      hide Run, ExecutedBy;
      OwnMove(p, trace, Acquire(p));
      NothingLeft(run, initial, trace, w, p);
      var turn := turns(asked);
      asked := asked + 1;
      Interfere(p, turn.others);
      acquired := turn.outcome.Answered?;
      BeginsNothing(run, w, if acquired then Acquire(p) else NoConnection(p));
      Step(if acquired then Acquire(p) else NoConnection(p));
    }
  }

  /** It succeeds exactly when what was executed is the front of its list, and then the rest has been executed. */
  ghost predicate Migrated<S>(w: World<S>, w': World<S>, items: seq<Migration>, ok: bool) {
    && ok == Front(w.executed, items)
    && w'.executed == w.executed + if ok && |w.executed| <= |items| then items[|w.executed|..] else []
  }

  lemma Alone<S(!new)>(run: (S, Str) -> S, initial: S, before: seq<Move>, w: World<S>, p: Pid, items: seq<Migration>,
      kind: Kind, after: seq<Move>, w': World<S>)
    requires Run(run, Empty(initial), before, w) && Run(run, Empty(initial), after, w')
    requires OwnSince(p, before + [Begin(p, items, kind)], after)
    ensures before <= after && MigrationAlone.Undisturbed(after[|before|..], p, items, kind)
    ensures Run(run, w, after[|before|..], w') && Reachable(run, initial, w)
  {
    hide Run, MigrationAlone.OwnMoves;
    var begun := before + [Begin(p, items, kind)];
    assert after[..|begun|] == begun && after[|before|..][1..] == after[|begun|..];
    assert after[|before|] == begun[|before|];
    RunSuffix(run, Empty(initial), before, w, after, w');
  }

  lemma MigratedAlone<S(!new)>(run: (S, Str) -> S, initial: S, before: seq<Move>, w: World<S>, p: Pid,
      items: seq<Migration>, after: seq<Move>, w': World<S>, ok: bool)
    requires Run(run, Empty(initial), before, w) && Run(run, Empty(initial), after, w')
    requires p in w'.procs && w'.procs[p].pc == Done(ok)
    ensures OwnSince(p, before + [Begin(p, items, Migrate)], after) && w.holder == None ==> Migrated(w, w', items, ok)
  {
    hide Run, OwnSince, Reachable, MigrationAlone.Undisturbed, Front;
    if OwnSince(p, before + [Begin(p, items, Migrate)], after) && w.holder == None {
      Alone(run, initial, before, w, p, items, Migrate, after, w');
      MigrationAlone.AloneSucceedsExactly(run, initial, w, p, items, after[|before|..], w');
    }
  }

  lemma VerifiedAlone<S(!new)>(run: (S, Str) -> S, initial: S, before: seq<Move>, w: World<S>, p: Pid,
      items: seq<Migration>, after: seq<Move>, w': World<S>, ok: bool)
    requires Run(run, Empty(initial), before, w) && Run(run, Empty(initial), after, w')
    requires p in w'.procs && w'.procs[p].pc == Done(ok)
    ensures OwnSince(p, before + [Begin(p, items, Verify)], after) && w.holder == None ==>
              SameTables(w, w') && ok == (w.ledger.Some? && SetMatches(items, w.ledger.value, false))
  {
    hide Run, OwnSince, Reachable, MigrationAlone.Undisturbed, SetMatches, SameTables;
    if OwnSince(p, before + [Begin(p, items, Verify)], after) && w.holder == None {
      Alone(run, initial, before, w, p, items, Verify, after, w');
      MigrationAlone.AloneVerifiesExactly(run, initial, w, p, items, after[|before|..], w');
    }
  }

  lemma OthersUntouched<S>(run: (S, Str) -> S, w: World<S>, p: Pid, m: Move)
    requires Enabled(w, m) && p in w.procs && (m.p != p || m.End? || m.Orphan?)
    ensures p in Do(run, w, m).procs && Untouched(w.procs[p], Do(run, w, m).procs[p])
    ensures w.procs[p].orphan == None ==> Do(run, w, m).procs[p].orphan == None
    ensures m.p == p && w.procs[p].orphan == None ==> Grown(w, Do(run, w, m)) == []
  {
    hide SetMatches, Ascending, Record, GiveUp;
  }

  lemma Begins<S>(run: (S, Str) -> S, w: World<S>, p: Pid, items: seq<Migration>, kind: Kind)
    requires p !in w.procs && Ascending(items) && items != []
    ensures Enabled(w, Begin(p, items, kind))
    ensures
      var w' := Do(run, w, Begin(p, items, kind));
      && p in w'.procs && w'.procs[p].pc.Start? && w'.procs[p].embedded == items && w'.procs[p].kind == kind
      && Grown(w, w') == [] && w'.holder == w.holder
  {
    hide Ascending;
  }

  lemma BeginsNothing<S>(run: (S, Str) -> S, w: World<S>, m: Move)
    requires Enabled(w, m) && (m.Begin? || m.Acquire? || m.NoConnection?)
    ensures Grown(w, Do(run, w, m)) == []
  {
  }

  /** Nothing is left to the session of a process that is still working with a sound connection. */
  lemma NothingLeft<S(!new)>(run: (S, Str) -> S, initial: S, trace: seq<Move>, w: World<S>, p: Pid)
    requires Run(run, Empty(initial), trace, w) && p in w.procs
    ensures Inv(run, initial, w)
    ensures w.procs[p].pc.Start? || w.procs[p].Asking() ==> w.procs[p].pc.Release? || w.procs[p].orphan == None
    ensures w.procs[p].pc.Release? && w.procs[p].conn == InUse(false) ==> w.procs[p].orphan == None
  {
    hide LedgerInv, Sound, Passed, Covers, Run;
    EmptyInv(run, initial);
    RunKeepsInv(run, initial, Empty(initial), trace, w);
    assert ProcInv(run, w, p, w.procs[p]);
  }

  lemma HoldsLock<S(!new)>(run: (S, Str) -> S, initial: S, trace: seq<Move>, w: World<S>, p: Pid, ok: bool)
    requires Run(run, Empty(initial), trace, w) && p in w.procs && w.procs[p].pc == Release(ok)
    ensures w.procs[p].Connected() ==> w.holder == Some(p)
  {
    hide LedgerInv, Disposal, Passed, Covers, Run;
    EmptyInv(run, initial);
    RunKeepsInv(run, initial, Empty(initial), trace, w);
    assert ProcInv(run, w, p, w.procs[p]);
  }

  lemma AllRecorded<S(!new)>(run: (S, Str) -> S, initial: S, trace: seq<Move>, w: World<S>, p: Pid)
    requires Run(run, Empty(initial), trace, w) && p in w.procs && w.procs[p].pc == Release(true)
    ensures Covers(w.executed, w.procs[p].embedded)
  {
    hide LedgerInv, Disposal, Passed, Covers, Run, Sound;
    EmptyInv(run, initial);
    RunKeepsInv(run, initial, Empty(initial), trace, w);
    assert ProcInv(run, w, p, w.procs[p]);
  }

  /** After the unlock the connection has been disposed of, and it is in the pool only without the lock. */
  lemma Unlocked<S(!new)>(run: (S, Str) -> S, initial: S, trace: seq<Move>, w: World<S>, p: Pid, ok: bool)
    requires Run(run, Empty(initial), trace, w) && p in w.procs && w.procs[p].pc == Done(ok)
    requires w.procs[p].conn != Unacquired
    ensures w.procs[p].disposals == 1 && (w.procs[p].conn == Returned || w.procs[p].conn == Closed)
    ensures w.procs[p].conn == Returned ==> w.holder != Some(p)
    ensures ok ==> w.procs[p].conn == Returned
  {
    hide LedgerInv, Passed, Covers, Run, Sound;
    EmptyInv(run, initial);
    RunKeepsInv(run, initial, Empty(initial), trace, w);
    assert ProcInv(run, w, p, w.procs[p]);
  }

  /** A commit that is answered has added the migration and its record. */
  lemma Commits<S>(run: (S, Str) -> S, w: World<S>, p: Pid)
    requires Enabled(w, Reply(p)) && w.procs[p].pc.Recorded? && w.procs[p].pc.i < |w.procs[p].embedded|
    ensures
      var w', item := Do(run, w, Reply(p)), w.procs[p].embedded[w.procs[p].pc.i];
      && Grown(w, w') == [item] && item in w'.executed
      && w'.ledger.Some? && item.version in w'.ledger.value
      && w'.ledger.value[item.version] == Applied(item.name, item.checksum)
  {
  }

  /** The migrations that a loaded ledger does not record, in order. */
  function Unrecorded(items: seq<Migration>, applied: Ledger): seq<Migration> {
    if items == [] then []
    else
      var item := items[|items| - 1];
      Unrecorded(items[..|items| - 1], applied) + if item.version in applied then [] else [item]
  }

  lemma NothingUnrecorded(applied: Ledger)
    ensures Unrecorded([], applied) == []
  {
  }

  lemma UnrecordedOneMore(items: seq<Migration>, applied: Ledger, i: nat)
    requires i < |items|
    ensures Unrecorded(items[..i + 1], applied)
         == Unrecorded(items[..i], applied) + if items[i].version in applied then [] else [items[i]]
  {
    assert items[..i + 1][..i] == items[..i];
  }

  /** Where a process goes when a statement fails. */
  function GivenUp<S>(pc: Pc<S>): Pc<S> {
    if pc.Waiting? || pc.Release? then Done(false) else Release(false)
  }

  lemma GaveUp<S>(run: (S, Str) -> S, w: World<S>, p: Pid)
    requires p in w.procs && w.procs[p].Asking()
    ensures forall m | m in {Refuse(p), Break(p)} && Enabled(w, m) ::
              p in Do(run, w, m).procs
              && Do(run, w, m).procs[p].pc == GivenUp(w.procs[p].pc)
              && Do(run, w, m).procs[p].embedded == w.procs[p].embedded
              && Do(run, w, m).procs[p].kind == w.procs[p].kind
              && Do(run, w, m).procs[p].conn != Unacquired
              && Grown(w, Do(run, w, m)) == []
    ensures Enabled(w, Break(p))
  {
  }

  lemma AscendingDistinct(items: seq<Migration>)
    requires Ascending(items)
    ensures Distinct(items)
  {
  }

  lemma Skips<S>(run: (S, Str) -> S, w: World<S>, p: Pid)
    requires Enabled(w, Skip(p))
    ensures p in Do(run, w, Skip(p)).procs
    ensures
      var a, a' := w.procs[p], Do(run, w, Skip(p)).procs[p];
      && a'.embedded == a.embedded && a'.kind == a.kind
      && (a.Connected() ==> a'.Connected())
      && a'.pc == if a.pc.i < |a.embedded| then Loop(a.pc.applied, a.pc.i + 1) else Release(true)
    ensures Grown(w, Do(run, w, Skip(p))) == []
  {
  }

  /** How the answer moves a process on. */
  lemma Proceeds<S>(run: (S, Str) -> S, w: World<S>, p: Pid)
    requires Enabled(w, Reply(p))
    ensures p in Do(run, w, Reply(p)).procs
    ensures
      var a, a' := w.procs[p], Do(run, w, Reply(p)).procs[p];
      && a'.embedded == a.embedded && a'.kind == a.kind
      && (a.pc.Waiting? ==> a'.pc == Locked)
      && (a.pc.Locked? ==> a'.pc == if a.kind.Migrate? || w.ledger.Some? then Created else Release(false))
      && (a.pc.Created? ==>
            a'.pc == if w.ledger.None? || !SetMatches(a.embedded, w.ledger.value, a.kind.Migrate?) then Release(false)
            else if a.kind.Migrate? then Loop(w.ledger.value, 0) else Release(true))
      && (a.pc.Loop? ==> a'.pc.Executed? && a'.pc.applied == a.pc.applied && a'.pc.i == a.pc.i)
      && (a.pc.Executed? && a.pc.i < |a.embedded| ==>
            a'.pc == if w.ledger.None? || a.embedded[a.pc.i].version in w.ledger.value then Release(false)
            else Recorded(a.pc.applied, a.pc.i, a.pc.schema))
      && (a.pc.Recorded? && a.pc.i < |a.embedded| ==> a'.pc == Loop(a.pc.applied, a.pc.i + 1))
      && (a.pc.Release? ==> a'.pc == Done(a.pc.ok && w.holder == Some(p)) && a'.conn != Unacquired)
      && (!a.pc.Recorded? ==> Grown(w, Do(run, w, Reply(p))) == [])
      && (!a.pc.Release? ==> a'.Connected())
  {
    hide SetMatches;
  }
}
