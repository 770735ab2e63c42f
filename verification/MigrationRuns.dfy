/** What the migration protocol guarantees over every run of any number of processes. */
module MigrationRuns {
  import opened Text
  import opened MigrationSet
  import opened MigrationLedger

  /** A state that some interleaving leads to, from a database that has not been migrated. */
  ghost predicate Reachable<S(!new)>(run: (S, Str) -> S, schema: S, w: World<S>) {
    exists moves :: Run(run, Empty(schema), moves, w)
  }

  lemma ReachableInv<S(!new)>(run: (S, Str) -> S, schema: S, w: World<S>)
    requires Reachable(run, schema, w)
    ensures Inv(run, schema, w)
  {
    hide Inv;
    var moves :| Run(run, Empty(schema), moves, w);
    EmptyInv(run, schema);
    RunKeepsInv(run, schema, Empty(schema), moves, w);
  }

  lemma EmptyInv<S(!new)>(run: (S, Str) -> S, schema: S)
    ensures Inv(run, schema, Empty(schema))
  {
  }

  // ---------- the ledger and the schema ----------

  /**
   In every reachable state the ledger is a verified prefix of the embedded list of the process that
   appended last, its versions ascend, and the schema is what the migrations it records make of the
   initial one.
   */
  lemma LedgerIsVerifiedPrefix<S(!new)>(run: (S, Str) -> S, schema: S, w: World<S>)
    requires Reachable(run, schema, w)
    ensures Ascending(w.executed) && Ascending(w.last) && |w.executed| <= |w.last|
    ensures w.ledger.None? ==> w.executed == []
    ensures w.ledger.Some? ==>
              && w.ledger.value == LedgerOf(w.executed) == LedgerOf(w.last[..|w.executed|])
              && SetMatches(w.last, w.ledger.value, true)
    ensures w.schema == Fold(run, schema, w.executed)
  {
    hide SetMatches, LedgerOf, Record, Fold, ProcInv, Ascending;
    ReachableInv(run, schema, w);
    VerifiedFront(w.executed, w.last, true);
    LedgerOfFront(w.executed, w.last);
  }

  /** The migration is committed: its contents are what changes the schema, and the ledger gets its record. */
  ghost predicate CommitsOne<S>(run: (S, Str) -> S, w: World<S>, x: Migration, w': World<S>) {
    && w'.executed == w.executed + [x]
    && w'.schema == run(w.schema, x.contents)
    && w'.ledger.Some?
    && var before := if w.ledger.Some? then w.ledger.value else map[];
       x.version !in before && w'.ledger.value == before[x.version := Applied(x.name, x.checksum)]
  }

  /** Nothing is committed but, possibly, the empty ledger. */
  ghost predicate CommitsNothing<S>(w: World<S>, w': World<S>) {
    && w'.executed == w.executed && w'.schema == w.schema
    && (w'.ledger == w.ledger || (w.ledger == None && w'.ledger == Some(map[])))
  }

  lemma LedgerGrows<S(!new)>(run: (S, Str) -> S, schema: S, w: World<S>, x: Migration, w': World<S>)
    requires LedgerInv(run, schema, w) && LedgerInv(run, schema, w') && w'.executed == w.executed + [x]
    ensures CommitsOne(run, w, x, w')
  {
    hide Front;
    assert w'.executed[..|w.executed|] == w.executed;
    LastIsNew(w'.executed);
  }

  lemma LedgerStays<S(!new)>(run: (S, Str) -> S, schema: S, w: World<S>, w': World<S>)
    requires LedgerInv(run, schema, w) && LedgerInv(run, schema, w') && w'.executed == w.executed
    requires w.ledger.Some? ==> w'.ledger.Some?
    ensures CommitsNothing(w, w')
  {
    hide Front;
  }

  /**
   In every run each step commits nothing, or one migration of the process that takes it, whose contents
   have run on the committed schema, together with its name and checksum in the ledger.
   */
  lemma StepCommits<S(!new)>(run: (S, Str) -> S, schema: S, w: World<S>, m: Move)
    requires Reachable(run, schema, w) && Enabled(w, m)
    ensures
      var w' := Do(run, w, m);
      || CommitsNothing(w, w')
      || (&& m.p in w.procs
          && exists i | 0 <= i < |w.procs[m.p].embedded| :: CommitsOne(run, w, w.procs[m.p].embedded[i], w'))
  {
    hide Reachable, Do, Enabled, LedgerInv, ProcInv, CommitsOne, CommitsNothing;
    var w' := Do(run, w, m);
    ReachableInv(run, schema, w);
    EveryStep(run, schema, w, m);
    Appends(run, w, m);
    if w'.executed == w.executed {
      LedgerStays(run, schema, w, w');
    } else {
      var i :| 0 <= i < |w.procs[m.p].embedded| && w'.executed == w.executed + [w.procs[m.p].embedded[i]];
      LedgerGrows(run, schema, w, w.procs[m.p].embedded[i], w');
    }
  }

  /**
   A commit that its process has given up on, or did not live to see, may still take effect, as long as
   the session lives.
   */
  lemma CommitMayLandLate<S(!new)>(run: (S, Str) -> S, schema: S, w: World<S>, p: Pid, crash: bool)
    requires Reachable(run, schema, w) && p in w.procs && w.procs[p].Connected() && w.procs[p].pc.Recorded?
    ensures w.procs[p].pc.i < |w.procs[p].embedded|
    ensures
      var leave := if crash then Crash(p) else Break(p);
      && Enabled(w, leave)
      && var left := Do(run, w, leave);
         && CommitsNothing(w, left) && p in left.procs
         && left.procs[p].pc == (if crash then Crashed else Release(false))
         && Enabled(left, Orphan(p))
         && CommitsOne(run, w, w.procs[p].embedded[w.procs[p].pc.i], Do(run, left, Orphan(p)))
  {
    hide Reachable, CommitsOne, Inv;
    var leave := if crash then Crash(p) else Break(p);
    NeverRecordsTwice(run, schema, w, p);
    ReachableInv(run, schema, w);
    LeavesCommit(run, w, p, leave);
    StepKeepsInv(run, schema, w, leave);
    var left := Do(run, w, leave);
    StepKeepsInv(run, schema, left, Orphan(p));
    InvLedger(run, schema, w);
    InvLedger(run, schema, Do(run, left, Orphan(p)));
    LedgerGrows(run, schema, w, w.procs[p].embedded[w.procs[p].pc.i], Do(run, left, Orphan(p)));
  }

  lemma InvLedger<S(!new)>(run: (S, Str) -> S, schema: S, w: World<S>)
    requires Inv(run, schema, w)
    ensures LedgerInv(run, schema, w)
  {
  }

  lemma LeavesCommit<S(!new)>(run: (S, Str) -> S, w: World<S>, p: Pid, leave: Move)
    requires leave == Crash(p) || leave == Break(p)
    requires p in w.procs && w.procs[p].Connected() && w.procs[p].pc.Recorded?
    requires w.procs[p].pc.i < |w.procs[p].embedded|
    ensures Enabled(w, leave)
    ensures
      var left := Do(run, w, leave);
      && CommitsNothing(w, left) && p in left.procs
      && left.procs[p].pc == (if leave.Crash? then Crashed else Release(false))
      && Enabled(left, Orphan(p))
      && Do(run, left, Orphan(p)).executed == w.executed + [w.procs[p].embedded[w.procs[p].pc.i]]
  {
    hide Record;
  }

  // ---------- the exact contents ----------

  /** Some process of a run starts with this migration in its list. */
  ghost predicate Embedded(moves: seq<Move>, x: Migration) {
    exists m | m in moves && m.Begin? :: x in m.embedded
  }

  ghost predicate FromLists(moves: seq<Move>, items: seq<Migration>) {
    forall k | 0 <= k < |items| :: Embedded(moves, items[k])
  }

  ghost predicate AllFromLists<S>(moves: seq<Move>, w: World<S>) {
    && FromLists(moves, w.executed) && FromLists(moves, w.last)
    && forall p | p in w.procs :: FromLists(moves, w.procs[p].embedded)
  }

  lemma FromListsStep<S(!new)>(run: (S, Str) -> S, moves: seq<Move>, w: World<S>, m: Move)
    requires Enabled(w, m) && AllFromLists(moves, w) && m in moves
    ensures AllFromLists(moves, Do(run, w, m))
  {
    hide Do, Enabled, FromLists;
    var w' := Do(run, w, m);
    Appends(run, w, m);
    KeepsLists(run, w, m);
    if m.Begin? {
      ItsOwnList(moves, m);
    }
    if w'.executed != w.executed || w'.last != w.last {
      var i :| 0 <= i < |w.procs[m.p].embedded| && w'.executed == w.executed + [w.procs[m.p].embedded[i]];
      FromListsMore(moves, w.executed, w.procs[m.p].embedded, i);
    }
  }

  lemma ItsOwnList(moves: seq<Move>, m: Move)
    requires m in moves && m.Begin?
    ensures FromLists(moves, m.embedded)
  {
  }

  /** Nobody's embedded list changes. */
  lemma KeepsLists<S(!new)>(run: (S, Str) -> S, w: World<S>, m: Move)
    requires Enabled(w, m)
    ensures forall p | p in Do(run, w, m).procs ::
              if p in w.procs then Do(run, w, m).procs[p].embedded == w.procs[p].embedded
              else m.Begin? && Do(run, w, m).procs[p].embedded == m.embedded
  {
    if m.Reply? {
      AnswerKeepsLists(run, w, m.p);
    } else {
      hide Answer, Ascending, Record;
    }
  }

  lemma AnswerKeepsLists<S(!new)>(run: (S, Str) -> S, w: World<S>, q: Pid)
    requires Enabled(w, Reply(q))
    ensures forall p | p in Do(run, w, Reply(q)).procs ::
              p in w.procs && Do(run, w, Reply(q)).procs[p].embedded == w.procs[p].embedded
  {
    hide SetMatches, LedgerOf, Record, Ascending;
  }

  lemma FromListsMore(moves: seq<Move>, items: seq<Migration>, embedded: seq<Migration>, i: nat)
    requires FromLists(moves, items) && FromLists(moves, embedded) && i < |embedded|
    ensures FromLists(moves, items + [embedded[i]])
  {
    hide Embedded;
  }

  /** A step executes nothing, or one migration of the process that takes it. */
  ghost predicate Appended<S>(w: World<S>, p: Pid, w': World<S>) {
    || (w'.executed == w.executed && w'.last == w.last)
    || (p in w.procs && w'.last == w.procs[p].embedded
        && exists i | 0 <= i < |w.procs[p].embedded| :: w'.executed == w.executed + [w.procs[p].embedded[i]])
  }

  lemma AnswerAppends<S(!new)>(run: (S, Str) -> S, w: World<S>, p: Pid)
    requires Enabled(w, Reply(p))
    ensures Appended(w, p, Do(run, w, Reply(p)))
  {
    hide SetMatches, LedgerOf, Record, Ascending;
  }

  lemma Appends<S(!new)>(run: (S, Str) -> S, w: World<S>, m: Move)
    requires Enabled(w, m)
    ensures Appended(w, m.p, Do(run, w, m))
  {
    if m.Reply? {
      AnswerAppends(run, w, m.p);
    } else {
      hide Answer, Ascending, Record, GiveUp;
    }
  }

  lemma {:induction false} FromListsRun<S(!new)>(run: (S, Str) -> S, all: seq<Move>, w: World<S>, moves: seq<Move>,
      w': World<S>)
    requires Run(run, w, moves, w') && AllFromLists(all, w)
    requires forall m | m in moves :: m in all
    ensures AllFromLists(all, w')
    decreases |moves|
  {
    hide AllFromLists, Enabled, Do;
    if moves != [] {
      FromListsStep(run, all, w, moves[0]);
      FromListsRun(run, all, Do(run, w, moves[0]), moves[1..], w');
    }
  }

  /**
   The ledger keeps version, name and checksum; the embedded migrations of a run that agree in these
   agree in contents.
   */
  ghost predicate ToldApart(moves: seq<Move>) {
    forall x, y | Embedded(moves, x) && Embedded(moves, y) && x.version == y.version && Record(x) == Record(y) ::
      x.contents == y.contents
  }

  /**
   When the ledger can tell the embedded migrations of a run apart, as it can unless two of the same
   version and name collide in their checksums, the schema is the fold of exactly the first migrations
   of the list that was appended from last.
   */
  lemma SchemaIsFoldOfPrefix<S(!new)>(run: (S, Str) -> S, schema: S, moves: seq<Move>, w: World<S>)
    requires Run(run, Empty(schema), moves, w)
    requires ToldApart(moves)
    ensures |w.executed| <= |w.last|
    ensures w.executed == w.last[..|w.executed|]
    ensures w.schema == Fold(run, schema, w.last[..|w.executed|])
  {
    hide ProcInv, Fold, Ascending, Enabled, Do, Embedded;
    FromListsRun(run, moves, Empty(schema), moves, w);
    EmptyInv(run, schema);
    RunKeepsInv(run, schema, Empty(schema), moves, w);
  }

  // ---------- once and forever ----------

  lemma {:induction false} ExecutedGrows<S(!new)>(run: (S, Str) -> S, schema: S, w: World<S>, moves: seq<Move>,
          w': World<S>)
    requires Inv(run, schema, w) && Run(run, w, moves, w')
    ensures w.executed <= w'.executed && (w.ledger.Some? ==> w'.ledger.Some?)
    decreases |moves|
  {
    hide Inv, Enabled, Do, LedgerInv, ProcInv;
    if moves != [] {
      EveryStep(run, schema, w, moves[0]);
      StepKeepsInv(run, schema, w, moves[0]);
      ExecutedGrows(run, schema, Do(run, w, moves[0]), moves[1..], w');
    }
  }

  /** Whatever happens next, the ledger only grows at its end, and what it records stays as it was recorded. */
  lemma LedgerIsForwardOnly<S(!new)>(run: (S, Str) -> S, schema: S, w: World<S>, moves: seq<Move>, w': World<S>)
    requires Reachable(run, schema, w) && Run(run, w, moves, w')
    ensures w.executed <= w'.executed
    ensures w.ledger.Some? ==>
              && w'.ledger.Some?
              && forall v | v in w.ledger.value :: v in w'.ledger.value && w'.ledger.value[v] == w.ledger.value[v]
    ensures w.ledger.Some? ==>
              forall k, v | |w.executed| <= k < |w'.executed| && v in w.ledger.value :: v < w'.executed[k].version
  {
    hide ProcInv, Fold, Run, Reachable;
    ReachableInv(run, schema, w);
    ExecutedGrows(run, schema, w, moves, w');
    RunKeepsInv(run, schema, w, moves, w');
    var n := |w.executed|;
    assert w'.executed[..n] == w.executed;
    PrefixLedger(w'.executed, n);
    PrefixLedger(w'.executed, |w'.executed|);
    assert w'.executed[..|w'.executed|] == w'.executed;
  }

  /** No version is ever committed twice, over all runs of all processes. */
  lemma ExecutedOnce<S(!new)>(run: (S, Str) -> S, schema: S, w: World<S>, j: nat, k: nat)
    requires Reachable(run, schema, w)
    requires j < |w.executed| && k < |w.executed| && w.executed[j].version == w.executed[k].version
    ensures j == k
  {
    hide ProcInv, Fold, LedgerOf, Front;
    ReachableInv(run, schema, w);
  }

  /**
   A process inside a transaction is about the migration that comes next in the ledger, whatever
   the age of the copy it decides by: recording it never meets a duplicate key.
   */
  lemma NeverRecordsTwice<S(!new)>(run: (S, Str) -> S, schema: S, w: World<S>, p: Pid)
    requires Reachable(run, schema, w)
    requires p in w.procs && w.procs[p].Connected() && (w.procs[p].pc.Executed? || w.procs[p].pc.Recorded?)
    ensures w.ledger.Some?
    ensures w.procs[p].pc.i == |w.executed| < |w.procs[p].embedded|
    ensures w.procs[p].embedded[w.procs[p].pc.i].version !in w.ledger.value
  {
    hide Fold, Front, Record, Ascending, Disposal, Passed, Covers;
    ReachableInv(run, schema, w);
    var a := w.procs[p];
    assert ProcInv(run, w, p, a);
    NextUnrecorded(w, a.embedded, a.pc.applied, a.pc.i);
  }

  lemma NextUnrecorded<S(!new)>(w: World<S>, embedded: seq<Migration>, applied: Ledger, i: nat)
    requires w.ledger.Some? && w.ledger.value == LedgerOf(w.executed)
    requires Current(w, embedded, applied, i) && |w.executed| == i < |embedded| && Ascending(embedded)
    ensures embedded[i].version !in w.ledger.value
  {
    hide Record;
    LedgerOfFront(w.executed, embedded);
    PrefixLedger(embedded, i);
  }

  /**
   At most one process at a time has a live connection past the lock, and the one that does never finds
   the lock gone when it unlocks.
   */
  lemma OneAtATime<S(!new)>(run: (S, Str) -> S, schema: S, w: World<S>, p: Pid, q: Pid)
    requires Reachable(run, schema, w)
    requires p in w.procs && w.procs[p].Connected() && w.procs[p].pc.PastLock()
    requires q in w.procs && w.procs[q].Connected() && w.procs[q].pc.PastLock()
    ensures p == q && w.holder == Some(p)
  {
    hide LedgerInv, Current, Disposal, Passed, Covers;
    ReachableInv(run, schema, w);
    assert ProcInv(run, w, p, w.procs[p]) && ProcInv(run, w, q, w.procs[q]);
  }

  /**
   On every way out the connection is disposed of exactly once if there was one, and what goes back to
   the pool does not hold the lock.
   */
  lemma DisposedOnce<S(!new)>(run: (S, Str) -> S, schema: S, w: World<S>, p: Pid)
    requires Reachable(run, schema, w) && p in w.procs
    ensures w.procs[p].disposals <= 1
    ensures w.procs[p].pc.Done? ==>
              (w.procs[p].disposals == 1 <==> w.procs[p].conn != Unacquired) && !w.procs[p].conn.InUse?
    ensures w.procs[p].conn == Returned ==> w.holder != Some(p)
    ensures w.procs[p].pc == Done(true) ==> w.procs[p].conn == Returned
  {
    hide LedgerInv, Sound, Passed, Covers;
    ReachableInv(run, schema, w);
    assert ProcInv(run, w, p, w.procs[p]);
  }

  /** No step that a VerifySchema takes, or has left to its session, writes anything. */
  lemma VerifyWritesNothing<S(!new)>(run: (S, Str) -> S, schema: S, w: World<S>, m: Move)
    requires Inv(run, schema, w) && Enabled(w, m)
    requires m.p in w.procs && w.procs[m.p].kind.Verify?
    ensures SameTables(w, Do(run, w, m))
  {
    hide LedgerInv, Sound, Disposal, Passed, Covers, SetMatches, Ascending, LedgerOf, Record;
    assert ProcInv(run, w, m.p, w.procs[m.p]);
  }

  // ---------- who wrote what ----------

  ghost predicate SameTables<S>(w: World<S>, w': World<S>) {
    w'.ledger == w.ledger && w'.schema == w.schema && w'.executed == w.executed && w'.last == w.last
  }

  /** No move of `p` in a run changes the ledger or the schema. */
  ghost predicate Silent<S>(run: (S, Str) -> S, w: World<S>, moves: seq<Move>, p: Pid)
    decreases |moves|
  {
    moves != [] && Enabled(w, moves[0]) ==>
      && (moves[0].p == p ==> SameTables(w, Do(run, w, moves[0])))
      && Silent(run, Do(run, w, moves[0]), moves[1..], p)
  }

  ghost function Grown<S>(w: World<S>, w': World<S>): seq<Migration> {
    if |w.executed| <= |w'.executed| then w'.executed[|w.executed|..] else []
  }

  /** The migrations that moves of `p` commit in a run, in order. */
  ghost function Executions<S>(run: (S, Str) -> S, w: World<S>, moves: seq<Move>, p: Pid): seq<Migration>
    decreases |moves|
  {
    if moves == [] || !Enabled(w, moves[0]) then []
    else
      var w' := Do(run, w, moves[0]);
      (if moves[0].p == p then Grown(w, w') else []) + Executions(run, w', moves[1..], p)
  }

  lemma {:induction false} ExecutionsSnoc<S(!new)>(run: (S, Str) -> S, w: World<S>, moves: seq<Move>, w': World<S>,
      m: Move, p: Pid)
    requires Run(run, w, moves, w') && Enabled(w', m)
    ensures Executions(run, w, moves + [m], p)
         == Executions(run, w, moves, p) + if m.p == p then Grown(w', Do(run, w', m)) else []
    decreases |moves|
  {
    hide Enabled, Do, Grown;
    var more := moves + [m];
    if moves == [] {
      assert more == [m] && more[1..] == [];
    } else {
      assert more[0] == moves[0] && more[1..] == moves[1..] + [m];
      ExecutionsSnoc(run, Do(run, w, moves[0]), moves[1..], w', m, p);
    }
  }

  lemma KindKept<S(!new)>(run: (S, Str) -> S, w: World<S>, m: Move, p: Pid)
    requires Enabled(w, m) && p in w.procs
    ensures p in Do(run, w, m).procs && Do(run, w, m).procs[p].kind == w.procs[p].kind
  {
    hide SetMatches, Ascending, Record, LedgerOf;
  }

  lemma {:induction false} KindStays<S(!new)>(run: (S, Str) -> S, w: World<S>, moves: seq<Move>, w': World<S>, p: Pid)
    requires Run(run, w, moves, w') && p in w.procs
    ensures p in w'.procs && w'.procs[p].kind == w.procs[p].kind
    decreases |moves|
  {
    hide Enabled, Do;
    if moves != [] {
      KindKept(run, w, moves[0], p);
      KindStays(run, Do(run, w, moves[0]), moves[1..], w', p);
    }
  }

  lemma BeginsSilently<S(!new)>(run: (S, Str) -> S, w: World<S>, m: Move)
    requires Enabled(w, m) && m.p !in w.procs
    ensures SameTables(w, Do(run, w, m))
  {
  }

  lemma {:induction false} SilentFrom<S(!new)>(run: (S, Str) -> S, schema: S, w: World<S>, moves: seq<Move>,
      w': World<S>, p: Pid)
    requires Inv(run, schema, w) && Run(run, w, moves, w')
    requires p in w'.procs && w'.procs[p].kind.Verify?
    ensures Silent(run, w, moves, p)
    decreases |moves|
  {
    hide Inv, Enabled, Do, SameTables;
    if moves != [] {
      var w1 := Do(run, w, moves[0]);
      StepKeepsInv(run, schema, w, moves[0]);
      if moves[0].p == p {
        if p in w.procs {
          KindStays(run, w, moves, w', p);
          VerifyWritesNothing(run, schema, w, moves[0]);
        } else {
          BeginsSilently(run, w, moves[0]);
        }
      }
      SilentFrom(run, schema, w1, moves[1..], w', p);
    }
  }

  /** Over every run, a VerifySchema changes neither the ledger nor the schema, whatever becomes of it. */
  lemma VerifyIsSilent<S(!new)>(run: (S, Str) -> S, schema: S, moves: seq<Move>, w: World<S>, p: Pid)
    requires Run(run, Empty(schema), moves, w)
    requires p in w.procs && w.procs[p].kind.Verify?
    ensures Silent(run, Empty(schema), moves, p)
  {
    hide *;
    EmptyInv(run, schema);
    SilentFrom(run, schema, Empty(schema), moves, w, p);
  }

  // ---------- success ----------

  /** Migrate or VerifySchema returns nil only in a state that passes verification with nothing pending. */
  lemma SuccessIsVerified<S(!new)>(run: (S, Str) -> S, schema: S, w: World<S>, p: Pid)
    requires Reachable(run, schema, w)
    requires Enabled(w, Reply(p)) && w.procs[p].pc.Release?
    requires Do(run, w, Reply(p)).procs[p].pc == Done(true)
    ensures var w' := Do(run, w, Reply(p));
            w'.ledger.Some? && SetMatches(w'.procs[p].embedded, w'.ledger.value, false)
  {
    hide Reachable, Inv, Do, Enabled;
    ReachableInv(run, schema, w);
    EndsVerified(run, schema, w, p);
  }

  lemma EndsVerified<S(!new)>(run: (S, Str) -> S, schema: S, w: World<S>, p: Pid)
    requires Inv(run, schema, w)
    requires Enabled(w, Reply(p)) && w.procs[p].pc.Release?
    requires Do(run, w, Reply(p)).procs[p].pc == Done(true)
    ensures var w' := Do(run, w, Reply(p));
            w'.ledger.Some? && SetMatches(w'.procs[p].embedded, w'.ledger.value, false)
  {
    hide Fold, Front, Record, LedgerOf, Ascending, Disposal, Passed, SetMatches, Covers;
    var a := w.procs[p];
    assert ProcInv(run, w, p, a);
    AllCovered(w.executed, a.embedded);
    VerifiedFront(w.executed, a.embedded, false);
  }

  lemma AllCovered(items: seq<Migration>, embedded: seq<Migration>)
    requires Covers(items, embedded)
    ensures |items| == |embedded| ==> Front(items, embedded)
    ensures |items| >= |embedded|
  {
    hide Record;
    if |items| == |embedded| {
      assert items[..|embedded|] == items;
    }
  }

  /** Afterwards VerifySchema with the same migrations succeeds exactly until another migration is appended. */
  lemma SuccessLasts<S(!new)>(run: (S, Str) -> S, schema: S, w: World<S>, p: Pid)
    requires Reachable(run, schema, w)
    requires p in w.procs && w.procs[p].pc == Done(true)
    ensures w.ledger.Some? && |w.executed| >= |w.procs[p].embedded|
    ensures SetMatches(w.procs[p].embedded, w.ledger.value, false) <==> |w.executed| == |w.procs[p].embedded|
  {
    hide Fold, Front, Record, LedgerOf, Ascending, Disposal, Passed, SetMatches, Covers, Sound;
    ReachableInv(run, schema, w);
    var a := w.procs[p];
    assert ProcInv(run, w, p, a);
    AllCovered(w.executed, a.embedded);
    VerifiedFront(w.executed, a.embedded, false);
  }

  /** A process whose whole list is recorded has nothing to execute. */
  ghost predicate Settled<S>(a: Proc<S>) {
    && (a.pc.Loop? ==> FirstPending(a.embedded, a.pc.applied) == |a.embedded|)
    && !a.pc.Executed? && !a.pc.Recorded?
    && (a.orphan.Some? ==> !a.orphan.value.Executed? && !a.orphan.value.Recorded?)
  }

  ghost predicate Repeats<S>(w: World<S>, q: Pid, embedded: seq<Migration>) {
    && Covers(w.executed, embedded)
    && (q in w.procs && w.procs[q].embedded == embedded ==> Settled(w.procs[q]))
  }

  lemma LoadsSettled<S(!new)>(run: (S, Str) -> S, schema: S, w: World<S>, q: Pid)
    requires LedgerInv(run, schema, w) && q in w.procs && ProcInv(run, w, q, w.procs[q])
    requires Enabled(w, Reply(q)) && w.procs[q].pc.Created?
    requires Covers(w.executed, w.procs[q].embedded)
    ensures Settled(Do(run, w, Reply(q)).procs[q])
  {
    hide Fold, Front, Record, LedgerOf, Ascending, Passed, SetMatches, Covers, Current;
    var a := w.procs[q];
    AllCovered(w.executed, a.embedded);
    VerifiedFront(w.executed, a.embedded, true);
    if a.kind.Migrate? && SetMatches(a.embedded, w.ledger.value, true) {
      Loading(w, a.embedded);
      assert |w.executed| <= |a.embedded| by { FrontFits(w.executed, a.embedded); }
    }
  }

  lemma FrontFits(items: seq<Migration>, embedded: seq<Migration>)
    requires Front(items, embedded)
    ensures |items| <= |embedded|
  {
  }

  lemma SettledStep<S(!new)>(run: (S, Str) -> S, schema: S, w: World<S>, m: Move)
    requires Enabled(w, m) && !m.Begin? && Settled(w.procs[m.p])
    requires LedgerInv(run, schema, w) && ProcInv(run, w, m.p, w.procs[m.p])
        && Covers(w.executed, w.procs[m.p].embedded)
    ensures m.p in Do(run, w, m).procs && Settled(Do(run, w, m).procs[m.p])
  {
    hide LedgerInv, ProcInv, Ascending, SetMatches, Covers, LedgerOf;
    if m.Reply? {
      if w.procs[m.p].pc.Created? {
        LoadsSettled(run, schema, w, m.p);
      } else {
        AnswerSettled(run, w, m.p);
      }
    } else {
      hide Answer, Record;
    }
  }

  lemma AnswerSettled<S(!new)>(run: (S, Str) -> S, w: World<S>, p: Pid)
    requires Enabled(w, Reply(p)) && Settled(w.procs[p]) && !w.procs[p].pc.Created?
    ensures p in Do(run, w, Reply(p)).procs && Settled(Do(run, w, Reply(p)).procs[p])
  {
    hide Ascending, SetMatches, Covers, LedgerOf, Record;
  }

  lemma RepeatsStep<S(!new)>(run: (S, Str) -> S, schema: S, w: World<S>, q: Pid, embedded: seq<Migration>, m: Move)
    requires Inv(run, schema, w) && Enabled(w, m)
    requires Repeats(w, q, embedded)
    ensures Repeats(Do(run, w, m), q, embedded)
  {
    hide LedgerInv, ProcInv, Covers, Settled, Do;
    EveryStep(run, schema, w, m);
    var w' := Do(run, w, m);
    CoversMore(w.executed, w'.executed, embedded);
    KeepsLists(run, w, m);
    if m.Begin? {
      StartsSettled(run, w, m);
    }
    if m.p == q && q in w.procs && w.procs[q].embedded == embedded {
      SettledStep(run, schema, w, m);
    }
  }

  lemma StartsSettled<S(!new)>(run: (S, Str) -> S, w: World<S>, m: Move)
    requires Enabled(w, m) && m.Begin?
    ensures Settled(Do(run, w, m).procs[m.p])
  {
    hide Ascending;
  }

  lemma {:induction false} RepeatsRun<S(!new)>(run: (S, Str) -> S, schema: S, w: World<S>, q: Pid,
          embedded: seq<Migration>, moves: seq<Move>, w': World<S>)
    requires Inv(run, schema, w) && Run(run, w, moves, w')
    requires Repeats(w, q, embedded)
    ensures Repeats(w', q, embedded)
    decreases |moves|
  {
    hide Inv, Enabled, Do, Repeats;
    if moves != [] {
      RepeatsStep(run, schema, w, q, embedded, moves[0]);
      StepKeepsInv(run, schema, w, moves[0]);
      RepeatsRun(run, schema, Do(run, w, moves[0]), q, embedded, moves[1..], w');
    }
  }

  /** Once a process has succeeded, one that starts later with the same migrations never executes any of them. */
  lemma SecondRunExecutesNothing<S(!new)>(run: (S, Str) -> S, schema: S, w: World<S>, p: Pid, q: Pid,
          moves: seq<Move>, w': World<S>)
    requires Reachable(run, schema, w) && Run(run, w, moves, w')
    requires p in w.procs && w.procs[p].pc == Done(true)
    requires q !in w.procs && q in w'.procs && w'.procs[q].embedded == w.procs[p].embedded
    ensures !w'.procs[q].pc.Executed? && !w'.procs[q].pc.Recorded?
    ensures w'.procs[q].orphan.Some? ==> !w'.procs[q].orphan.value.Executed? && !w'.procs[q].orphan.value.Recorded?
  {
    hide Run, LedgerInv, Covers, Reachable;
    ReachableInv(run, schema, w);
    assert ProcInv(run, w, p, w.procs[p]);
    RepeatsRun(run, schema, w, q, w.procs[p].embedded, moves, w');
  }
}
