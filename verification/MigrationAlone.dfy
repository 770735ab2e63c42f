/** A Migrate that nobody disturbs: exactly when it succeeds, and what it leaves. */
module MigrationAlone {
  import opened Text
  import opened MigrationSet
  import opened MigrationLedger
  import opened MigrationRuns

  // ---------- undisturbed runs ----------

  /** Only the connection of `p`, the answers to its statements and its own steps between them. */
  predicate OwnMoves(p: Pid, moves: seq<Move>) {
    forall m | m in moves :: m == Acquire(p) || m == Reply(p) || m == Skip(p)
  }

  /** Process `p` starts with a list, and then nothing fails and nobody else acts. */
  predicate Undisturbed(moves: seq<Move>, p: Pid, embedded: seq<Migration>, kind: Kind) {
    moves != [] && moves[0] == Begin(p, embedded, kind) && OwnMoves(p, moves[1..])
  }

  ghost predicate RunAlone<S>(run: (S, Str) -> S, w: World<S>, p: Pid, embedded: seq<Migration>, kind: Kind,
          moves: seq<Move>, w': World<S>) {
    Undisturbed(moves, p, embedded, kind) && Run(run, w, moves, w')
  }

  ghost predicate Ended<S>(w: World<S>, p: Pid) {
    p in w.procs && w.procs[p].pc.Done?
  }

  lemma {:induction false} RunMore<S(!new)>(run: (S, Str) -> S, w: World<S>, moves: seq<Move>, w': World<S>, m: Move)
    requires Run(run, w, moves, w') && Enabled(w', m)
    ensures Run(run, w, moves + [m], Do(run, w', m))
    decreases |moves|
  {
    hide Enabled, Do;
    var more := moves + [m];
    if moves == [] {
      assert more == [m] && more[1..] == [];
    } else {
      assert more[0] == moves[0] && more[1..] == moves[1..] + [m];
      RunMore(run, Do(run, w, moves[0]), moves[1..], w', m);
    }
  }

  lemma BeginsAlone<S(!new)>(run: (S, Str) -> S, w: World<S>, p: Pid, embedded: seq<Migration>, kind: Kind)
    requires Enabled(w, Begin(p, embedded, kind))
    ensures RunAlone(run, w, p, embedded, kind, [Begin(p, embedded, kind)], Do(run, w, Begin(p, embedded, kind)))
  {
    hide Enabled, Do;
    RunMore(run, w, [], w, Begin(p, embedded, kind));
    assert [] + [Begin(p, embedded, kind)] == [Begin(p, embedded, kind)];
  }

  lemma GoesOnAlone<S(!new)>(run: (S, Str) -> S, w: World<S>, p: Pid, embedded: seq<Migration>, kind: Kind,
          moves: seq<Move>, w1: World<S>, m: Move)
    requires RunAlone(run, w, p, embedded, kind, moves, w1) && Enabled(w1, m)
    requires m == Acquire(p) || m == Reply(p) || m == Skip(p)
    ensures RunAlone(run, w, p, embedded, kind, moves + [m], Do(run, w1, m))
  {
    hide Enabled, Do, Run;
    RunMore(run, w, moves, w1, m);
    assert (moves + [m])[1..] == moves[1..] + [m];
  }

  /** A process that has not ended has at most one way to go on by itself, and one that has ended has none. */
  lemma OneChoice<S(!new)>(w: World<S>, p: Pid, a: Move, b: Move)
    requires Enabled(w, a) && (a == Acquire(p) || a == Reply(p) || a == Skip(p))
    requires Enabled(w, b) && (b == Acquire(p) || b == Reply(p) || b == Skip(p))
    ensures a == b && !Ended(w, p)
  {
  }

  lemma OwnFirst(p: Pid, moves: seq<Move>)
    requires OwnMoves(p, moves) && moves != []
    ensures moves[0] == Acquire(p) || moves[0] == Reply(p) || moves[0] == Skip(p)
    ensures OwnMoves(p, moves[1..])
  {
    assert moves[0] in moves;
    assert forall m | m in moves[1..] :: m in moves;
  }

  lemma {:induction false} OnlyWay<S(!new)>(run: (S, Str) -> S, w: World<S>, p: Pid, a: seq<Move>, w1: World<S>,
          b: seq<Move>, w2: World<S>)
    requires Run(run, w, a, w1) && OwnMoves(p, a) && Ended(w1, p)
    requires Run(run, w, b, w2) && OwnMoves(p, b)
    ensures b <= a && (Ended(w2, p) ==> b == a && w2 == w1)
    decreases |a|
  {
    hide Enabled, Do, Ended, OwnMoves;
    if a != [] {
      OwnFirst(p, a);
      OneChoice(w, p, a[0], a[0]);
    }
    if b != [] {
      OwnFirst(p, b);
      OneChoice(w, p, b[0], b[0]);
      OneChoice(w, p, a[0], b[0]);
      OnlyWay(run, Do(run, w, a[0]), p, a[1..], w1, b[1..], w2);
      assert a == [a[0]] + a[1..] && b == [b[0]] + b[1..];
    }
  }

  /** Every undisturbed run of a process from a state is a beginning of the one in which it ends. */
  lemma OnlyWayAlone<S(!new)>(run: (S, Str) -> S, w: World<S>, p: Pid, embedded: seq<Migration>, kind: Kind,
          a: seq<Move>, w1: World<S>, b: seq<Move>, w2: World<S>)
    requires RunAlone(run, w, p, embedded, kind, a, w1) && Ended(w1, p)
    requires RunAlone(run, w, p, embedded, kind, b, w2)
    ensures b <= a && (Ended(w2, p) ==> b == a && w2 == w1)
  {
    hide Enabled, Do, Ended, OwnMoves;
    OnlyWay(run, Do(run, w, a[0]), p, a[1..], w1, b[1..], w2);
    assert a == [a[0]] + a[1..] && b == [b[0]] + b[1..];
  }

  /**
   The only one of its kind: every undisturbed run from `w` is a beginning of this one. It ends with the
   lock free and the connection back in the pool.
   */
  ghost predicate TheRunAlone<S(!new)>(run: (S, Str) -> S, w: World<S>, p: Pid, embedded: seq<Migration>,
          kind: Kind, moves: seq<Move>, w': World<S>) {
    && RunAlone(run, w, p, embedded, kind, moves, w')
    && Ended(w', p) && w'.procs[p].kind == kind && w'.procs[p].embedded == embedded
    && w'.procs[p].conn == Returned && w'.holder == None
    && forall b, w2 | RunAlone(run, w, p, embedded, kind, b, w2) :: b <= moves
  }

  lemma IsTheRunAlone<S(!new)>(run: (S, Str) -> S, w: World<S>, p: Pid, embedded: seq<Migration>, kind: Kind,
          moves: seq<Move>, w': World<S>)
    requires RunAlone(run, w, p, embedded, kind, moves, w')
    requires Ended(w', p) && w'.procs[p].kind == kind && w'.procs[p].embedded == embedded
    requires w'.procs[p].conn == Returned && w'.holder == None
    ensures TheRunAlone(run, w, p, embedded, kind, moves, w')
  {
    hide RunAlone;
    forall b, w2 | RunAlone(run, w, p, embedded, kind, b, w2)
      ensures b <= moves
    {
      OnlyWayAlone(run, w, p, embedded, kind, moves, w', b, w2);
    }
  }

  // ---------- Migrate ----------

  /** A process with a live connection has come to `pc` with its migrations. */
  ghost predicate At<S>(w: World<S>, p: Pid, embedded: seq<Migration>, pc: Pc<S>) {
    && p in w.procs
    && w.procs[p].Connected() && w.procs[p].kind == Migrate && w.procs[p].embedded == embedded && w.procs[p].pc == pc
  }

  lemma Answered<S(!new)>(run: (S, Str) -> S, w: World<S>, p: Pid, embedded: seq<Migration>, pc: Pc<S>)
    requires At(w, p, embedded, pc) && w.procs[p].Asking() && (pc.Waiting? ==> w.holder.None?)
    ensures Enabled(w, Reply(p))
    ensures var w' := Do(run, w, Reply(p));
            && (pc.Waiting? ==> At(w', p, embedded, Pc<S>.Locked) && w'.executed == w.executed)
            && (pc.Locked? ==> At(w', p, embedded, Pc<S>.Created) && w'.executed == w.executed)
            && (pc.Created? && w.ledger.Some? ==>
                  && w'.executed == w.executed
                  && At(w', p, embedded,
                        if SetMatches(embedded, w.ledger.value, true) then Loop(w.ledger.value, 0) else Release(false)))
  {
    hide SetMatches, Record;
  }

  lemma Applies<S(!new)>(run: (S, Str) -> S, w: World<S>, p: Pid, embedded: seq<Migration>, pc: Pc<S>)
    requires At(w, p, embedded, pc) && w.procs[p].Asking() && !pc.Waiting?
    ensures Enabled(w, Reply(p))
    ensures var w' := Do(run, w, Reply(p));
            && (pc.Loop? ==> At(w', p, embedded, Executed(pc.applied, pc.i, run(w.schema, embedded[pc.i].contents))))
            && (pc.Executed? && pc.i < |embedded| && w.ledger.Some? && embedded[pc.i].version !in w.ledger.value ==>
                  At(w', p, embedded, Recorded(pc.applied, pc.i, pc.schema)))
            && (!pc.Recorded? ==> w'.executed == w.executed)
            && (pc.Recorded? && pc.i < |embedded| ==>
                  At(w', p, embedded, Loop(pc.applied, pc.i + 1)) && w'.executed == w.executed + [embedded[pc.i]])
  {
    hide SetMatches, Record;
  }

  lemma Skips<S(!new)>(run: (S, Str) -> S, w: World<S>, p: Pid, embedded: seq<Migration>, applied: Ledger, i: nat)
    requires At(w, p, embedded, Pc<S>.Loop(applied, i)) && (i < |embedded| ==> embedded[i].version in applied)
    ensures Enabled(w, Skip(p))
    ensures At(Do(run, w, Skip(p)), p, embedded, if i < |embedded| then Pc<S>.Loop(applied, i + 1) else Release(true))
    ensures Do(run, w, Skip(p)).executed == w.executed
  {
  }

  lemma Unlocks<S(!new)>(run: (S, Str) -> S, schema: S, w: World<S>, p: Pid, embedded: seq<Migration>, ok: bool)
    requires Inv(run, schema, w) && At(w, p, embedded, Pc<S>.Release(ok))
    ensures Enabled(w, Reply(p))
    ensures Do(run, w, Reply(p)).executed == w.executed
    ensures p in Do(run, w, Reply(p)).procs
    ensures var a := Do(run, w, Reply(p)).procs[p];
            a.pc == Done(ok) && a.kind == Migrate && a.embedded == embedded && a.conn == Returned
    ensures Do(run, w, Reply(p)).holder == None
  {
    hide LedgerInv, Current, Record, Covers, Passed;
    assert ProcInv(run, w, p, w.procs[p]);
  }

  /** In the loop the index is in range, and inside a transaction the migration is not recorded. */
  lemma InLoop<S(!new)>(run: (S, Str) -> S, schema: S, w: World<S>, p: Pid, embedded: seq<Migration>, pc: Pc<S>)
    requires Inv(run, schema, w) && At(w, p, embedded, pc) && (pc.Loop? || pc.Executed? || pc.Recorded?)
    ensures pc.i <= |embedded| && (!pc.Loop? ==> pc.i < |embedded|)
    ensures |w.executed| <= |embedded| && (!pc.Loop? ==> |w.executed| == pc.i)
    ensures pc.Executed? ==> w.ledger.Some? && embedded[pc.i].version !in w.ledger.value
    ensures (pc.Loop? ==> pc.i < |embedded| && embedded[pc.i].version !in pc.applied) ==> w.procs[p].Asking()
  {
    hide Fold, Front, Record, Disposal, Passed, Covers, Ascending;
    assert ProcInv(run, w, p, w.procs[p]);
    if pc.Executed? {
      NextUnrecorded(w, embedded, pc.applied, pc.i);
    }
  }

  /** One answered statement inside the loop. */
  lemma Step<S(!new)>(run: (S, Str) -> S, schema: S, w: World<S>, p: Pid, embedded: seq<Migration>, pc: Pc<S>)
    returns (w': World<S>, pc': Pc<S>)
    requires Inv(run, schema, w) && At(w, p, embedded, pc)
    requires (pc.Loop? && pc.i < |embedded| && embedded[pc.i].version !in pc.applied) || pc.Executed? || pc.Recorded?
    ensures Enabled(w, Reply(p)) && w' == Do(run, w, Reply(p))
    ensures Inv(run, schema, w') && At(w', p, embedded, pc')
    ensures if pc.Loop? then pc'.Executed? && pc'.applied == pc.applied && pc'.i == pc.i
            else if pc.Executed? then pc' == Recorded(pc.applied, pc.i, pc.schema)
            else pc' == Loop(pc.applied, pc.i + 1)
    ensures pc.Recorded? ==> pc.i == |w.executed| < |embedded| && w'.executed == w.executed + [embedded[pc.i]]
    ensures !pc.Recorded? ==> w'.executed == w.executed
  {
    hide *;
    InLoop(run, schema, w, p, embedded, pc);
    Asks(w, p, embedded, pc);
    Applies(run, w, p, embedded, pc);
    StepKeepsInv(run, schema, w, Reply(p));
    w' := Do(run, w, Reply(p));
    pc' := if pc.Loop? then Executed(pc.applied, pc.i, run(w.schema, embedded[pc.i].contents))
           else if pc.Executed? then Recorded(pc.applied, pc.i, pc.schema)
           else Loop(pc.applied, pc.i + 1);
  }

  lemma Asks<S(!new)>(w: World<S>, p: Pid, embedded: seq<Migration>, pc: Pc<S>)
    requires At(w, p, embedded, pc)
    ensures p in w.procs
    ensures pc.Waiting? || pc.Locked? || pc.Created? ==> w.procs[p].Asking()
  {
  }

  lemma AllExecuted<S(!new)>(run: (S, Str) -> S, schema: S, w: World<S>, p: Pid, embedded: seq<Migration>)
    requires Inv(run, schema, w) && At(w, p, embedded, Pc<S>.Release(true))
    ensures |w.executed| == |embedded|
  {
    hide LedgerInv, Disposal, Passed, Covers;
    assert ProcInv(run, w, p, w.procs[p]);
  }

  lemma {:induction false} LoopEnds<S(!new)>(run: (S, Str) -> S, schema: S, w: World<S>, p: Pid,
      embedded: seq<Migration>, first: seq<Move>, w1: World<S>, applied: Ledger, i: nat)
    returns (moves: seq<Move>, w': World<S>)
    requires RunAlone(run, w, p, embedded, Migrate, first, w1)
    requires Inv(run, schema, w1) && At(w1, p, embedded, Pc<S>.Loop(applied, i))
    ensures RunAlone(run, w, p, embedded, Migrate, moves, w')
    ensures Inv(run, schema, w') && At(w', p, embedded, Pc<S>.Release(true))
    ensures |w1.executed| <= |embedded| && w'.executed == w1.executed + embedded[|w1.executed|..]
    decreases |embedded| - i
  {
    hide *;
    InLoop(run, schema, w1, p, embedded, Pc<S>.Loop(applied, i));
    if i == |embedded| || embedded[i].version in applied {
      Skips(run, w1, p, embedded, applied, i);
      StepKeepsInv(run, schema, w1, Skip(p));
      GoesOnAlone(run, w, p, embedded, Migrate, first, w1, Skip(p));
      moves, w' := first + [Skip(p)], Do(run, w1, Skip(p));
      if i == |embedded| {
        AllExecuted(run, schema, w', p, embedded);
        assert w1.executed + embedded[|w1.executed|..] == w1.executed;
      } else {
        moves, w' := LoopEnds(run, schema, w, p, embedded, moves, w', applied, i + 1);
      }
    } else {
      var w2, pc2 := Step(run, schema, w1, p, embedded, Pc<S>.Loop(applied, i));
      GoesOnAlone(run, w, p, embedded, Migrate, first, w1, Reply(p));
      var w3, pc3 := Step(run, schema, w2, p, embedded, pc2);
      GoesOnAlone(run, w, p, embedded, Migrate, first + [Reply(p)], w2, Reply(p));
      var w4, pc4 := Step(run, schema, w3, p, embedded, pc3);
      GoesOnAlone(run, w, p, embedded, Migrate, first + [Reply(p)] + [Reply(p)], w3, Reply(p));
      var n := |w1.executed|;
      assert w1.executed + [embedded[n]] + embedded[n + 1..] == w1.executed + embedded[n..];
      moves := first + [Reply(p)] + [Reply(p)] + [Reply(p)];
      moves, w' := LoopEnds(run, schema, w, p, embedded, moves, w4, applied, i + 1);
    }
  }

  lemma Starts<S(!new)>(run: (S, Str) -> S, w: World<S>, p: Pid, embedded: seq<Migration>)
    requires p !in w.procs && Ascending(embedded) && embedded != []
    ensures Enabled(w, Begin(p, embedded, Migrate))
    ensures
      var w1 := Do(run, w, Begin(p, embedded, Migrate));
      && Enabled(w1, Acquire(p))
      && var w2 := Do(run, w1, Acquire(p));
         At(w2, p, embedded, Pc<S>.Waiting) && w2.holder == w.holder && w2.executed == w.executed
  {
    hide Ascending;
  }

  /** The same migrations verify exactly when what was executed is their front. */
  lemma LoadedVerdict<S(!new)>(run: (S, Str) -> S, schema: S, w: World<S>, p: Pid, embedded: seq<Migration>)
    requires Inv(run, schema, w) && At(w, p, embedded, Pc<S>.Created)
    ensures w.ledger.Some? && (SetMatches(embedded, w.ledger.value, true) <==> Front(w.executed, embedded))
  {
    hide Fold, Front, Record, LedgerOf, Ascending, Disposal, Passed, SetMatches, Covers;
    assert ProcInv(run, w, p, w.procs[p]);
    VerifiedFront(w.executed, embedded, true);
  }

  /** An answered statement, with what it keeps. */
  lemma Replies<S(!new)>(run: (S, Str) -> S, schema: S, w: World<S>, p: Pid, embedded: seq<Migration>, kind: Kind,
          moves: seq<Move>, w1: World<S>)
    requires RunAlone(run, w, p, embedded, kind, moves, w1) && Inv(run, schema, w1) && Enabled(w1, Reply(p))
    ensures RunAlone(run, w, p, embedded, kind, moves + [Reply(p)], Do(run, w1, Reply(p)))
    ensures Inv(run, schema, Do(run, w1, Reply(p)))
  {
    hide *;
    StepKeepsInv(run, schema, w1, Reply(p));
    GoesOnAlone(run, w, p, embedded, kind, moves, w1, Reply(p));
  }

  lemma Connects<S(!new)>(run: (S, Str) -> S, schema: S, w: World<S>, p: Pid, embedded: seq<Migration>, kind: Kind)
    returns (moves: seq<Move>, w': World<S>)
    requires Inv(run, schema, w) && Enabled(w, Begin(p, embedded, kind))
    requires Enabled(Do(run, w, Begin(p, embedded, kind)), Acquire(p))
    ensures w' == Do(run, Do(run, w, Begin(p, embedded, kind)), Acquire(p)) && Inv(run, schema, w')
    ensures RunAlone(run, w, p, embedded, kind, moves, w')
  {
    hide *;
    var begin := Begin(p, embedded, kind);
    BeginsAlone(run, w, p, embedded, kind);
    StepKeepsInv(run, schema, w, begin);
    StepKeepsInv(run, schema, Do(run, w, begin), Acquire(p));
    GoesOnAlone(run, w, p, embedded, kind, [begin], Do(run, w, begin), Acquire(p));
    moves, w' := [begin] + [Acquire(p)], Do(run, Do(run, w, begin), Acquire(p));
  }

  /** A new process, undisturbed, up to its verdict on the ledger. */
  lemma ReachesVerdict<S(!new)>(run: (S, Str) -> S, schema: S, w: World<S>, p: Pid, embedded: seq<Migration>)
    returns (moves: seq<Move>, w': World<S>, applied: Ledger)
    requires Inv(run, schema, w) && w.holder.None? && p !in w.procs && Ascending(embedded) && embedded != []
    ensures RunAlone(run, w, p, embedded, Migrate, moves, w') && Inv(run, schema, w') && w'.executed == w.executed
    ensures At(w', p, embedded, if Front(w.executed, embedded) then Pc<S>.Loop(applied, 0) else Pc<S>.Release(false))
  {
    hide *;
    Starts(run, w, p, embedded);
    var first, w2 := Connects(run, schema, w, p, embedded, Migrate);
    Asks(w2, p, embedded, Pc<S>.Waiting);
    Answered(run, w2, p, embedded, Pc<S>.Waiting);
    Replies(run, schema, w, p, embedded, Migrate, first, w2);
    var w3 := Do(run, w2, Reply(p));
    Asks(w3, p, embedded, Pc<S>.Locked);
    Answered(run, w3, p, embedded, Pc<S>.Locked);
    Replies(run, schema, w, p, embedded, Migrate, first + [Reply(p)], w3);
    var w4 := Do(run, w3, Reply(p));
    Asks(w4, p, embedded, Pc<S>.Created);
    LoadedVerdict(run, schema, w4, p, embedded);
    Answered(run, w4, p, embedded, Pc<S>.Created);
    Replies(run, schema, w, p, embedded, Migrate, first + [Reply(p)] + [Reply(p)], w4);
    moves, w', applied := first + [Reply(p)] + [Reply(p)] + [Reply(p)], Do(run, w4, Reply(p)), w4.ledger.value;
  }

  /** From any reachable state with the lock free, a Migrate that nobody disturbs ends, in only one way. */
  lemma MigrateEnds<S(!new)>(run: (S, Str) -> S, schema: S, w: World<S>, p: Pid, embedded: seq<Migration>)
    returns (moves: seq<Move>, w': World<S>)
    requires Reachable(run, schema, w) && w.holder.None? && p !in w.procs && Ascending(embedded) && embedded != []
    ensures TheRunAlone(run, w, p, embedded, Migrate, moves, w')
    ensures p in w'.procs && w'.procs[p].pc == Done(Front(w.executed, embedded))
    ensures Front(w.executed, embedded) ==>
              |w.executed| <= |embedded| && w'.executed == w.executed + embedded[|w.executed|..]
    ensures !Front(w.executed, embedded) ==> w'.executed == w.executed
  {
    hide Reachable, Inv, RunAlone, At, Do, Enabled, Front, Ascending, TheRunAlone;
    ReachableInv(run, schema, w);
    var first, w1, applied := ReachesVerdict(run, schema, w, p, embedded);
    var ok := Front(w.executed, embedded);
    if ok {
      first, w1 := LoopEnds(run, schema, w, p, embedded, first, w1, applied, 0);
    }
    Unlocks(run, schema, w1, p, embedded, ok);
    Replies(run, schema, w, p, embedded, Migrate, first, w1);
    moves, w' := first + [Reply(p)], Do(run, w1, Reply(p));
    IsTheRunAlone(run, w, p, embedded, Migrate, moves, w');
  }

  /**
   From any reachable state with the lock free, every Migrate whose statements are all answered before
   anybody else acts returns nil exactly when the migrations executed so far are the front of its
   own list, and then it has executed exactly the rest; otherwise it has executed nothing.
   */
  lemma AloneSucceedsExactly<S(!new)>(run: (S, Str) -> S, schema: S, w: World<S>, p: Pid, embedded: seq<Migration>,
          moves: seq<Move>, w': World<S>)
    requires Reachable(run, schema, w) && w.holder.None?
    requires Undisturbed(moves, p, embedded, Migrate) && Run(run, w, moves, w')
    requires p in w'.procs && w'.procs[p].pc.Done?
    ensures w'.procs[p].kind == Migrate && w'.procs[p].embedded == embedded
    ensures w'.procs[p].conn == Returned && w'.holder == None
    ensures w'.procs[p].pc == Done(Front(w.executed, embedded))
    ensures Front(w.executed, embedded) ==>
              |w.executed| <= |embedded| && w'.executed == w.executed + embedded[|w.executed|..]
    ensures !Front(w.executed, embedded) ==> w'.executed == w.executed
  {
    hide Reachable, Undisturbed, Front, Do, Ascending;
    Begun(run, w, p, embedded, Migrate, moves, w');
    var ended, w1 := MigrateEnds(run, schema, w, p, embedded);
    OnlyWayAlone(run, w, p, embedded, Migrate, ended, w1, moves, w');
  }

  lemma Begun<S(!new)>(run: (S, Str) -> S, w: World<S>, p: Pid, embedded: seq<Migration>, kind: Kind,
          moves: seq<Move>, w': World<S>)
    requires Undisturbed(moves, p, embedded, kind) && Run(run, w, moves, w')
    ensures p !in w.procs && Ascending(embedded) && embedded != []
  {
    hide Ascending, Do;
  }

  // ---------- VerifySchema ----------

  ghost predicate Verifies<S>(w: World<S>, p: Pid, embedded: seq<Migration>, pc: Pc<S>) {
    && p in w.procs
    && w.procs[p].Connected() && w.procs[p].kind == Verify && w.procs[p].embedded == embedded && w.procs[p].pc == pc
  }

  /** The ledger is there, and it verifies with nothing pending. */
  predicate Verified<S>(w: World<S>, embedded: seq<Migration>) {
    w.ledger.Some? && SetMatches(embedded, w.ledger.value, false)
  }

  lemma VerifyStarts<S(!new)>(run: (S, Str) -> S, w: World<S>, p: Pid, embedded: seq<Migration>)
    requires p !in w.procs && Ascending(embedded) && embedded != []
    ensures Enabled(w, Begin(p, embedded, Verify))
    ensures
      var w1 := Do(run, w, Begin(p, embedded, Verify));
      && SameTables(w, w1) && Enabled(w1, Acquire(p))
      && var w2 := Do(run, w1, Acquire(p));
         Verifies(w2, p, embedded, Pc<S>.Waiting) && w2.holder == w.holder && SameTables(w1, w2)
  {
    hide Ascending;
  }

  lemma VerifyAnswered<S(!new)>(run: (S, Str) -> S, w: World<S>, p: Pid, embedded: seq<Migration>, pc: Pc<S>)
    requires Verifies(w, p, embedded, pc) && (pc.Waiting? ==> w.holder.None?)
    requires pc.Waiting? || pc.Locked? || pc.Created?
    ensures Enabled(w, Reply(p))
    ensures var w' := Do(run, w, Reply(p));
            && SameTables(w, w')
            && (pc.Waiting? ==> Verifies(w', p, embedded, Pc<S>.Locked))
            && (pc.Locked? ==> Verifies(w', p, embedded, if w.ledger.Some? then Created else Release(false)))
            && (pc.Created? ==> Verifies(w', p, embedded, Release(Verified(w, embedded))))
  {
    hide SetMatches, Record;
  }

  lemma VerifyUnlocks<S(!new)>(run: (S, Str) -> S, schema: S, w: World<S>, p: Pid, embedded: seq<Migration>, ok: bool)
    requires Inv(run, schema, w) && Verifies(w, p, embedded, Pc<S>.Release(ok))
    ensures Enabled(w, Reply(p)) && SameTables(w, Do(run, w, Reply(p)))
    ensures p in Do(run, w, Reply(p)).procs
    ensures var a := Do(run, w, Reply(p)).procs[p];
            a.pc == Done(ok) && a.kind == Verify && a.embedded == embedded && a.conn == Returned
    ensures Do(run, w, Reply(p)).holder == None
  {
    hide LedgerInv, Current, Record, Covers, Passed;
    assert ProcInv(run, w, p, w.procs[p]);
  }

  lemma SameVerdict<S(!new)>(w: World<S>, w': World<S>, embedded: seq<Migration>)
    requires SameTables(w, w')
    ensures Verified(w, embedded) == Verified(w', embedded) && w.ledger.Some? == w'.ledger.Some?
  {
    hide SetMatches;
  }

  lemma SameThrough<S(!new)>(a: World<S>, b: World<S>, c: World<S>)
    requires SameTables(a, b) && SameTables(b, c)
    ensures SameTables(a, c)
  {
  }

  /** A new VerifySchema, undisturbed, up to its verdict. */
  lemma ReachesSchemaVerdict<S(!new)>(run: (S, Str) -> S, schema: S, w: World<S>, p: Pid, embedded: seq<Migration>)
    returns (moves: seq<Move>, w': World<S>)
    requires Inv(run, schema, w) && w.holder.None? && p !in w.procs && Ascending(embedded) && embedded != []
    ensures RunAlone(run, w, p, embedded, Verify, moves, w') && Inv(run, schema, w') && SameTables(w, w')
    ensures Verifies(w', p, embedded, Pc<S>.Release(Verified(w, embedded)))
  {
    hide *;
    VerifyStarts(run, w, p, embedded);
    var first, w2 := Connects(run, schema, w, p, embedded, Verify);
    VerifyAnswered(run, w2, p, embedded, Pc<S>.Waiting);
    Replies(run, schema, w, p, embedded, Verify, first, w2);
    var w3 := Do(run, w2, Reply(p));
    VerifyAnswered(run, w3, p, embedded, Pc<S>.Locked);
    Replies(run, schema, w, p, embedded, Verify, first + [Reply(p)], w3);
    var w4 := Do(run, w3, Reply(p));
    moves, w' := first + [Reply(p)] + [Reply(p)], w4;
    SameThrough(w, Do(run, w, Begin(p, embedded, Verify)), w2);
    SameThrough(w, w2, w3);
    SameThrough(w, w3, w4);
    SameVerdict(w, w3, embedded);
    SameVerdict(w, w4, embedded);
    if w.ledger.Some? {
      VerifyAnswered(run, w4, p, embedded, Pc<S>.Created);
      Replies(run, schema, w, p, embedded, Verify, moves, w4);
      moves, w' := moves + [Reply(p)], Do(run, w4, Reply(p));
      SameThrough(w, w4, w');
    } else {
      Unverified(w, embedded);
    }
  }

  lemma Unverified<S(!new)>(w: World<S>, embedded: seq<Migration>)
    requires w.ledger.None?
    ensures !Verified(w, embedded)
  {
  }

  /** From any reachable state with the lock free, a VerifySchema that nobody disturbs ends, in only one way. */
  lemma VerifySchemaEnds<S(!new)>(run: (S, Str) -> S, schema: S, w: World<S>, p: Pid, embedded: seq<Migration>)
    returns (moves: seq<Move>, w': World<S>)
    requires Reachable(run, schema, w) && w.holder.None? && p !in w.procs && Ascending(embedded) && embedded != []
    ensures TheRunAlone(run, w, p, embedded, Verify, moves, w') && SameTables(w, w')
    ensures p in w'.procs
    ensures w'.procs[p].pc == Done(w.ledger.Some? && SetMatches(embedded, w.ledger.value, false))
  {
    hide RunAlone, TheRunAlone, Reachable, Inv, Do, Enabled, SameTables, SetMatches, Verifies, Ascending;
    ReachableInv(run, schema, w);
    var first, w1 := ReachesSchemaVerdict(run, schema, w, p, embedded);
    VerifyUnlocks(run, schema, w1, p, embedded, Verified(w, embedded));
    Replies(run, schema, w, p, embedded, Verify, first, w1);
    moves, w' := first + [Reply(p)], Do(run, w1, Reply(p));
    SameThrough(w, w1, w');
    IsTheRunAlone(run, w, p, embedded, Verify, moves, w');
  }

  /**
   From any reachable state with the lock free, every VerifySchema whose statements are all answered
   before anybody else acts returns nil exactly when there is a ledger that records its whole list and
   nothing else, and changes nothing.
   */
  lemma AloneVerifiesExactly<S(!new)>(run: (S, Str) -> S, schema: S, w: World<S>, p: Pid, embedded: seq<Migration>,
          moves: seq<Move>, w': World<S>)
    requires Reachable(run, schema, w) && w.holder.None?
    requires Undisturbed(moves, p, embedded, Verify) && Run(run, w, moves, w')
    requires p in w'.procs && w'.procs[p].pc.Done?
    ensures w'.procs[p].kind == Verify && w'.procs[p].embedded == embedded
    ensures w'.procs[p].conn == Returned && w'.holder == None
    ensures w'.procs[p].pc == Done(w.ledger.Some? && SetMatches(embedded, w.ledger.value, false))
    ensures SameTables(w, w')
  {
    hide Reachable, Undisturbed, Do, SameTables, SetMatches, Ascending;
    Begun(run, w, p, embedded, Verify, moves, w');
    var ended, w1 := VerifySchemaEnds(run, schema, w, p, embedded);
    OnlyWayAlone(run, w, p, embedded, Verify, ended, w1, moves, w');
  }

  /**
   After a Migrate or VerifySchema has returned nil, every undisturbed VerifySchema with the same list
   returns nil exactly as long as no further migration has been appended.
   */
  lemma VerifiesUntilAppended<S(!new)>(run: (S, Str) -> S, schema: S, w: World<S>, p: Pid, q: Pid,
          moves: seq<Move>, w': World<S>)
    requires Reachable(run, schema, w) && w.holder.None?
    requires p in w.procs && w.procs[p].pc == Done(true)
    requires Undisturbed(moves, q, w.procs[p].embedded, Verify) && Run(run, w, moves, w')
    requires q in w'.procs && w'.procs[q].pc.Done?
    ensures w'.procs[q].kind == Verify && w'.procs[q].embedded == w.procs[p].embedded
    ensures w'.procs[q].pc == Done(|w.executed| == |w.procs[p].embedded|)
    ensures SameTables(w, w')
  {
    hide Run, Reachable, Undisturbed, SameTables, SetMatches;
    SuccessLasts(run, schema, w, p);
    AloneVerifiesExactly(run, schema, w, q, w.procs[p].embedded, moves, w');
  }
}
