/**
 Any number of processes run Migrate and VerifySchema at once, each with its own embedded
 migrations, and any of them may fail, lose its connection or crash at any step. PostgreSQL gives
 an exclusive advisory lock that lasts as long as the session holding it, transactions that commit
 as a whole, and statements that may still take effect after the client has given up on them.
 */
module MigrationLedger {
  import opened Text
  import opened MigrationSet

  type Pid = nat

  datatype Kind = Migrate | Verify

  /**
   Where a process is. `Loop` is the loop over the embedded migrations with the ledger as it was
   loaded; `Executed` and `Recorded` are inside the transaction of migration `i`, which so far has
   turned the schema into `schema`. `Release` is the deferred unlock.
   */
  datatype Pc<S> =
    | Start
    | Waiting
    | Locked
    | Created
    | Loop(applied: Ledger, i: nat)
    | Executed(applied: Ledger, i: nat, schema: S)
    | Recorded(applied: Ledger, i: nat, schema: S)
    | Release(ok: bool)
    | Done(ok: bool)
    | Crashed
  {
    predicate Applying() {
      Loop? || Executed? || Recorded?
    }

    /** The lock has been acknowledged and not yet been given back. */
    predicate PastLock() {
      !Start? && !Waiting? && !Done? && !Crashed?
    }
  }

  datatype Conn = Unacquired | InUse(broken: bool) | Returned | Closed

  /**
   `open` says that the database session is alive, `orphan` is where the process was when it gave up
   on a statement that the session may still carry out, and `disposals` counts how often the
   connection was given back or closed.
   */
  datatype Proc<S> = Proc(embedded: seq<Migration>, kind: Kind, pc: Pc<S>, conn: Conn, open: bool,
          orphan: Option<Pc<S>>, disposals: nat)
  {
    /** A statement has been sent and its answer is awaited. */
    predicate Asking() {
      || pc.Waiting? || pc.Locked? || pc.Created? || pc.Executed? || pc.Recorded? || pc.Release?
      || (pc.Loop? && pc.i < |embedded| && embedded[pc.i].version !in pc.applied)
    }

    predicate Connected() {
      open && conn == InUse(false) && !pc.Crashed?
    }

    function Dispose(conn: Conn, ok: bool): Proc<S> {
      this.(pc := Done(ok), conn := conn, disposals := disposals + 1)
    }

    /** The statement in flight, if any, is left to the session. */
    function Abandon(): Proc<S> {
      if open && conn == InUse(false) then this.(orphan := Some(pc)) else this
    }
  }

  /**
   The committed ledger table, if it exists, and schema, the migrations whose contents have been
   committed, in order, the embedded list of the process that committed last, and the lock.
   */
  datatype World<S> = World(ledger: Option<Ledger>, schema: S, executed: seq<Migration>, last: seq<Migration>,
          holder: Option<Pid>, procs: map<Pid, Proc<S>>)
  {
    function Put(p: Pid, a: Proc<S>): World<S> {
      this.(procs := procs[p := a])
    }

    function Create(): World<S> {
      this.(ledger := Some(if ledger.Some? then ledger.value else map[]))
    }

    function Unlock(p: Pid): World<S> {
      if holder == Some(p) then this.(holder := None) else this
    }

    function Commit(embedded: seq<Migration>, i: nat, schema: S): World<S>
      requires i < |embedded|
    {
      World(
        Some((if ledger.Some? then ledger.value else map[])[embedded[i].version := Record(embedded[i])]),
        schema, executed + [embedded[i]], embedded, holder, procs)
    }
  }

  function Empty<S>(schema: S): World<S> {
    World(None, schema, [], [], None, map[])
  }

  datatype Move =
    | Begin(p: Pid, embedded: seq<Migration>, kind: Kind)
    | Acquire(p: Pid)
    | NoConnection(p: Pid)
    | Reply(p: Pid)
    | Refuse(p: Pid)
    | Skip(p: Pid)
    | Break(p: Pid)
    | Orphan(p: Pid)
    | End(p: Pid)
    | Crash(p: Pid)

  // ---------- steps ----------

  /** The statement awaited is carried out and answered, and the process goes on. */
  function Answer<S>(run: (S, Str) -> S, w: World<S>, p: Pid): World<S>
    requires p in w.procs && w.procs[p].Asking()
  {
    var a := w.procs[p];
    match a.pc
    case Waiting => w.(holder := Some(p)).Put(p, a.(pc := Locked))
    case Locked =>
      if a.kind.Migrate? then w.Create().Put(p, a.(pc := Created))
      else w.Put(p, a.(pc := if w.ledger.Some? then Created else Release(false)))
    case Created =>
      if w.ledger.None? || !SetMatches(a.embedded, w.ledger.value, a.kind.Migrate?) then
        w.Put(p, a.(pc := Release(false)))
      else w.Put(p, a.(pc := if a.kind.Migrate? then Loop(w.ledger.value, 0) else Release(true)))
    case Loop(applied, i) => w.Put(p, a.(pc := Executed(applied, i, run(w.schema, a.embedded[i].contents))))
    case Executed(applied, i, schema) =>
      if w.ledger.None? || i >= |a.embedded| || a.embedded[i].version in w.ledger.value then
        w.Put(p, a.(pc := Release(false)))
      else w.Put(p, a.(pc := Recorded(applied, i, schema)))
    case Recorded(applied, i, schema) =>
      if i >= |a.embedded| then w else w.Commit(a.embedded, i, schema).Put(p, a.(pc := Loop(applied, i + 1)))
    case Release(ok) =>
      if w.holder == Some(p) then w.Unlock(p).Put(p, a.Dispose(Returned, ok))
      else w.Put(p, a.Dispose(Closed, false))
  }

  /**
   The statement fails, or its answer never comes: the connection is closed if it was not yet locked or
   is being unlocked.
   */
  function GiveUp<S>(a: Proc<S>, broken: bool): Proc<S> {
    if a.pc.Waiting? || a.pc.Release? then a.Dispose(Closed, false)
    else a.(pc := Release(false), conn := InUse(broken))
  }

  /** The session carries out what the process no longer waits for; only these statements have a lasting effect. */
  function Late<S>(w: World<S>, p: Pid, a: Proc<S>, pc: Pc<S>): World<S> {
    match pc
    case Waiting => w.(holder := Some(p))
    case Locked => if a.kind.Migrate? then w.Create() else w
    case Recorded(_, i, schema) => if i < |a.embedded| then w.Commit(a.embedded, i, schema) else w
    case Release(_) => w.Unlock(p)
    case _ => w
  }

  predicate Enabled<S>(w: World<S>, m: Move) {
    if m.Begin? then m.p !in w.procs && Ascending(m.embedded) && m.embedded != []
    else m.p in w.procs && Ready(w, m, w.procs[m.p])
  }

  predicate Ready<S>(w: World<S>, m: Move, a: Proc<S>) {
    match m
    case Begin(_, _, _) => false
    case Acquire(p) => a.pc.Start?
    case NoConnection(p) => a.pc.Start?
    case Reply(p) => a.Connected() && a.Asking() && (a.pc.Waiting? ==> w.holder.None?)
    case Refuse(p) => a.Connected() && a.Asking()
    case Skip(p) => a.pc.Loop? && !a.Asking()
    case Break(p) => a.Asking()
    case Orphan(p) => a.open && a.orphan.Some? && (a.orphan.value.Waiting? ==> w.holder.None?)
    case End(p) => a.open
    case Crash(p) => !a.pc.Done? && !a.pc.Crashed?
  }

  function Do<S>(run: (S, Str) -> S, w: World<S>, m: Move): World<S>
    requires Enabled(w, m)
  {
    match m
    case Begin(p, embedded, kind) => w.Put(p, Proc(embedded, kind, Start, Unacquired, false, None, 0))
    case Acquire(p) => w.Put(p, w.procs[p].(pc := Waiting, conn := InUse(false), open := true))
    case NoConnection(p) => w.Put(p, w.procs[p].(pc := Done(false)))
    case Reply(p) => Answer(run, w, p)
    case Refuse(p) => w.Put(p, GiveUp(w.procs[p], false))
    case Skip(p) =>
      var a := w.procs[p];
      w.Put(p, a.(pc := if a.pc.i < |a.embedded| then Loop(a.pc.applied, a.pc.i + 1) else Release(true)))
    case Break(p) => w.Put(p, GiveUp(w.procs[p].Abandon(), true))
    case Orphan(p) => Late(w, p, w.procs[p], w.procs[p].orphan.value).Put(p, w.procs[p].(orphan := None))
    case End(p) => w.Unlock(p).Put(p, w.procs[p].(open := false, orphan := None))
    case Crash(p) => w.Put(p, w.procs[p].Abandon().(pc := Crashed))
  }

  ghost predicate Run<S>(run: (S, Str) -> S, w: World<S>, moves: seq<Move>, w': World<S>)
    decreases |moves|
  {
    if moves == [] then w == w'
    else Enabled(w, moves[0]) && Run(run, Do(run, w, moves[0]), moves[1..], w')
  }

  // ---------- the invariant ----------

  /** The schema after executing some migrations one by one. */
  function Fold<S>(run: (S, Str) -> S, schema: S, items: seq<Migration>): S {
    if items == [] then schema
    else run(Fold(run, schema, items[..|items| - 1]), items[|items| - 1].contents)
  }

  /** Versions, names and checksums are those at the front of the embedded list. */
  ghost predicate Front(items: seq<Migration>, embedded: seq<Migration>) {
    && |items| <= |embedded|
    && forall k | 0 <= k < |items| :: items[k].version == embedded[k].version && Record(items[k]) == Record(embedded[k])
  }

  /** Every embedded migration is recorded. */
  ghost predicate Covers(items: seq<Migration>, embedded: seq<Migration>) {
    |embedded| <= |items| && Front(items[..|embedded|], embedded)
  }

  /** The ledger loaded before the loop still tells, for migration `i` and later ones, whether it is recorded. */
  ghost predicate Current<S>(w: World<S>, embedded: seq<Migration>, applied: Ledger, i: nat) {
    var n := FirstPending(embedded, applied);
    && i <= |embedded|
    && w.ledger.Some?
    && Front(w.executed, embedded)
    && applied == LedgerOf(embedded[..n])
    && |w.executed| == if n > i then n else i
  }

  /**
   Whatever has become of the lock, the migrations that the loop has passed are recorded, and so are
   those that the loaded ledger holds.
   */
  ghost predicate Passed<S>(executed: seq<Migration>, embedded: seq<Migration>, pc: Pc<S>) {
    pc.Loop? || pc.Executed? || pc.Recorded? ==>
      var n := FirstPending(embedded, pc.applied);
      && pc.i <= |embedded|
      && pc.applied == LedgerOf(embedded[..n])
      && Covers(executed, embedded[..if n > pc.i then n else pc.i])
  }

  /** Migration `i` is the next one to record, and `schema` is what it makes of the committed schema. */
  ghost predicate Next<S>(run: (S, Str) -> S, w: World<S>, embedded: seq<Migration>, applied: Ledger, i: nat,
          schema: S) {
    && Current(w, embedded, applied, i)
    && i < |embedded|
    && |w.executed| == i
    && schema == run(w.schema, embedded[i].contents)
  }

  /** What holds when the session is carrying out the statement of `pc`. */
  ghost predicate Sound<S>(run: (S, Str) -> S, w: World<S>, p: Pid, embedded: seq<Migration>, pc: Pc<S>) {
    && (!pc.Start? && !pc.Waiting? && !pc.Done? && !pc.Crashed? ==> w.holder == Some(p))
    && match pc
       case Created => w.ledger.Some?
       case Loop(applied, i) => Current(w, embedded, applied, i)
       case Executed(applied, i, schema) => Next(run, w, embedded, applied, i, schema)
       case Recorded(applied, i, schema) => Next(run, w, embedded, applied, i, schema)
       case Release(ok) => ok ==> |w.executed| == |embedded|
       case _ => true
  }

  /**
   A connection is disposed of exactly once, when the process is done with it, and goes back to the
   pool only unlocked.
   */
  ghost predicate Disposal<S>(w: World<S>, p: Pid, a: Proc<S>) {
    match a.pc
    case Start => a.conn == Unacquired && a.disposals == 0 && !a.open && a.orphan == None
    case Release(ok) => a.conn.InUse? && a.disposals == 0 && (a.conn.broken ==> !ok)
        && (!a.conn.broken ==> a.orphan == None)
    case Done(ok) =>
      || (a.conn == Unacquired && a.disposals == 0 && !a.open && a.orphan == None && !ok)
      || (a.conn == Returned && a.disposals == 1 && a.orphan == None && w.holder != Some(p))
      || (a.conn == Closed && a.disposals == 1 && !ok)
    case Crashed => (a.conn == Unacquired || a.conn.InUse?) && a.disposals == 0
    case _ => a.conn == InUse(false) && a.disposals == 0 && a.orphan == None
  }

  ghost predicate ProcInv<S>(run: (S, Str) -> S, w: World<S>, p: Pid, a: Proc<S>) {
    && Ascending(a.embedded) && a.embedded != []
    && (w.holder == Some(p) ==> a.open && !a.pc.Waiting?)
    && (a.orphan.Some? ==> a.open)
    && Disposal(w, p, a)
    && (a.Connected() ==> Sound(run, w, p, a.embedded, a.pc))
    && (a.orphan.Some? ==> Sound(run, w, p, a.embedded, a.orphan.value))
    && Passed(w.executed, a.embedded, a.pc)
    && (a.kind.Verify? ==> !a.pc.Applying() && (a.orphan.Some? ==> !a.orphan.value.Applying()))
    && ((a.pc == Release(true) || a.pc == Done(true)) ==> Covers(w.executed, a.embedded))
  }

  /**
   The ledger records what was executed, in ascending order, which is a verified prefix of the list of
   whoever committed last, and the schema is its fold.
   */
  ghost predicate LedgerInv<S>(run: (S, Str) -> S, schema: S, w: World<S>) {
    && (w.ledger.None? ==> w.executed == [])
    && (w.ledger.Some? ==> w.ledger.value == LedgerOf(w.executed))
    && Ascending(w.executed) && Ascending(w.last)
    && Front(w.executed, w.last)
    && w.schema == Fold(run, schema, w.executed)
  }

  ghost predicate Inv<S>(run: (S, Str) -> S, schema: S, w: World<S>) {
    && LedgerInv(run, schema, w)
    && (forall p | p in w.procs :: ProcInv(run, w, p, w.procs[p]))
    && (w.holder.Some? ==> w.holder.value in w.procs)
  }

  // ---------- ledgers and lists ----------

  lemma LedgerOfFront(items: seq<Migration>, embedded: seq<Migration>)
    requires Front(items, embedded)
    ensures LedgerOf(items) == LedgerOf(embedded[..|items|])
  {
    if items != [] {
      var n := |items| - 1;
      LedgerOfFront(items[..n], embedded);
      assert embedded[..n + 1][..n] == embedded[..n];
    }
  }

  lemma LastIsNew(items: seq<Migration>)
    requires Ascending(items) && items != []
    ensures items[|items| - 1].version !in LedgerOf(items[..|items| - 1])
  {
    hide LedgerOf;
    var init, v := items[..|items| - 1], items[|items| - 1].version;
    assert forall k | 0 <= k < |init| :: init[k] == items[k];
    LedgerHolds(init, v);
  }

  /** In an ascending list the last version is the one that its front does not record. */
  lemma LastOfLedger(items: seq<Migration>)
    requires Ascending(items) && items != []
    ensures
      var n := |items| - 1;
      var v := items[n].version;
      && v in LedgerOf(items) && LedgerOf(items)[v] == Record(items[n])
      && (forall u | u in LedgerOf(items) :: u <= v)
      && LedgerOf(items[..n]) == LedgerOf(items) - {v}
  {
    var n := |items| - 1;
    hide Record;
    LastIsNew(items);
    Removed(LedgerOf(items[..n]), items[n].version, Record(items[n]));
    hide LedgerOf;
    forall u | u in LedgerOf(items)
      ensures u <= items[n].version
    {
      LedgerHolds(items, u);
    }
  }

  lemma Removed(ledger: Ledger, v: int, record: Applied)
    requires v !in ledger
    ensures ledger[v := record] - {v} == ledger
  {
  }

  /** Ascending lists with the same ledger agree in length and in all that the ledger records. */
  lemma {:induction false} SameLists(items: seq<Migration>, others: seq<Migration>)
    requires Ascending(items) && Ascending(others) && LedgerOf(items) == LedgerOf(others)
    ensures |items| == |others| && Front(items, others)
  {
    hide LedgerOf, Record;
    LedgerSize(items);
    LedgerSize(others);
    if items != [] {
      var n := |items| - 1;
      LastOfLedger(items);
      LastOfLedger(others);
      SameLists(items[..n], others[..n]);
      assert forall k | 0 <= k < n :: items[..n][k] == items[k] && others[..n][k] == others[k];
    }
  }

  /**
   A ledger made by executing an ascending list passes verification exactly when the list is a front of
   the embedded one, or all of it.
   */
  lemma VerifiedFront(items: seq<Migration>, embedded: seq<Migration>, allowPending: bool)
    requires Ascending(items) && Ascending(embedded)
    ensures SetMatches(embedded, LedgerOf(items), allowPending)
            <==> Front(items, embedded) && (!allowPending ==> |items| == |embedded|)
  {
    hide SetMatches, LedgerOf, Record;
    if Front(items, embedded) {
      LedgerOfFront(items, embedded);
    }
    MatchesPrefix(embedded, LedgerOf(items));
    MatchesWhole(embedded, LedgerOf(items));
    assert embedded[..|embedded|] == embedded;
    if allowPending && SetMatches(embedded, LedgerOf(items), true) {
      var k :| 0 <= k <= |embedded| && LedgerOf(items) == LedgerOf(embedded[..k]);
      SameLists(items, embedded[..k]);
    }
    if !allowPending && SetMatches(embedded, LedgerOf(items), false) {
      SameLists(items, embedded);
    }
  }

  // ---------- what every step keeps ----------

  lemma CoversMore(items: seq<Migration>, more: seq<Migration>, embedded: seq<Migration>)
    requires Covers(items, embedded) && items <= more
    ensures Covers(more, embedded)
  {
    assert more[..|embedded|] == items[..|embedded|];
  }

  lemma PassedMore<S>(executed: seq<Migration>, more: seq<Migration>, embedded: seq<Migration>, pc: Pc<S>)
    requires Passed(executed, embedded, pc) && executed <= more
    ensures Passed(more, embedded, pc)
  {
    hide Covers, LedgerOf;
    if pc.Loop? || pc.Executed? || pc.Recorded? {
      var n := FirstPending(embedded, pc.applied);
      CoversMore(executed, more, embedded[..if n > pc.i then n else pc.i]);
    }
  }

  /**
   A step of one process leaves what is known of another as it was: without the lock it changes nothing
   shared, with it nobody else depends on that.
   */
  lemma Bystander<S>(run: (S, Str) -> S, w: World<S>, w': World<S>, p: Pid, q: Pid, a: Proc<S>)
    requires p != q && ProcInv(run, w, q, a)
    requires w'.holder == w.holder || (w.holder in {None, Some(p)} && w'.holder in {None, Some(p)})
    requires w.holder == Some(p) || (w'.ledger == w.ledger && w'.schema == w.schema && w'.executed == w.executed)
    requires w.executed <= w'.executed
    ensures ProcInv(run, w', q, a)
  {
    hide Front, LedgerOf, Record, FirstPending, Covers, Passed, Ascending;
    if Covers(w.executed, a.embedded) {
      CoversMore(w.executed, w'.executed, a.embedded);
    }
    PassedMore(w.executed, w'.executed, a.embedded, a.pc);
  }

  /** The loaded ledger is right about whether the migration that the loop has reached is recorded. */
  lemma LoadedTells<S>(w: World<S>, embedded: seq<Migration>, applied: Ledger, i: nat)
    requires Ascending(embedded) && Current(w, embedded, applied, i) && i < |embedded|
    ensures embedded[i].version in applied <==> i < |w.executed|
    ensures i <= |w.executed|
  {
    hide Front, LedgerOf, Record;
    PrefixLedger(embedded, FirstPending(embedded, applied));
  }

  lemma PendingFrom(items: seq<Migration>, applied: Ledger, m: nat)
    requires m <= |items|
    requires forall i | 0 <= i < |items| :: items[i].version in applied <==> i < m
    ensures FirstPending(items, applied) == m
  {
    var n := FirstPending(items, applied);
    if n < |items| {
      assert items[n].version !in applied;
    }
    if m < |items| {
      assert items[m].version !in applied;
    }
  }

  /** Loading a ledger that passes verification starts the loop with all it needs to know. */
  lemma Loading<S>(w: World<S>, embedded: seq<Migration>)
    requires w.ledger.Some? && w.ledger.value == LedgerOf(w.executed)
    requires Ascending(w.executed) && Ascending(embedded)
    requires SetMatches(embedded, w.ledger.value, true)
    ensures Current(w, embedded, w.ledger.value, 0)
    ensures FirstPending(embedded, w.ledger.value) == |w.executed|
  {
    hide LedgerOf, Record, SetMatches;
    VerifiedFront(w.executed, embedded, true);
    LedgerOfFront(w.executed, embedded);
    PrefixLedger(embedded, |w.executed|);
    PendingFrom(embedded, w.ledger.value, |w.executed|);
  }

  /**
   Committing migration `i` keeps the ledger in step with what was executed, and the loaded ledger good
   for the migrations after it.
   */
  lemma Committing<S>(run: (S, Str) -> S, schema: S, w: World<S>, embedded: seq<Migration>, applied: Ledger,
          i: nat, schema': S)
    requires LedgerInv(run, schema, w) && Ascending(embedded)
    requires Next(run, w, embedded, applied, i, schema')
    ensures LedgerInv(run, schema, w.Commit(embedded, i, schema'))
    ensures Current(w.Commit(embedded, i, schema'), embedded, applied, i + 1)
    ensures w.executed <= w.Commit(embedded, i, schema').executed
  {
    hide Record;
    var w' := w.Commit(embedded, i, schema');
    assert w'.executed[..i] == w.executed;
    assert w'.executed == w.executed + [embedded[i]];
    LoadedTells(w, embedded, applied, i);
    assert Ascending(w'.executed) by {
      forall j, k | 0 <= j < k < |w'.executed|
        ensures w'.executed[j].version < w'.executed[k].version
      {
        assert w.executed[j].version == embedded[j].version;
      }
    }
  }

  /** What a step of `p` has to show; the rest follows for everybody else. */
  ghost predicate Steps<S>(run: (S, Str) -> S, schema: S, w: World<S>, p: Pid, w': World<S>) {
    && LedgerInv(run, schema, w')
    && (w'.holder == w.holder || (w.holder in {None, Some(p)} && w'.holder in {None, Some(p)}))
    && (w.holder == Some(p) || (w'.ledger == w.ledger && w'.schema == w.schema && w'.executed == w.executed))
    && w.executed <= w'.executed && (w.ledger.Some? ==> w'.ledger.Some?)
    && p in w'.procs && w'.procs == w.procs[p := w'.procs[p]]
    && ProcInv(run, w', p, w'.procs[p])
  }

  lemma StepsKeepInv<S>(run: (S, Str) -> S, schema: S, w: World<S>, p: Pid, w': World<S>)
    requires Inv(run, schema, w) && Steps(run, schema, w, p, w')
    ensures Inv(run, schema, w')
  {
    hide LedgerInv, ProcInv;
    forall q | q in w'.procs
      ensures ProcInv(run, w', q, w'.procs[q])
    {
      if q != p {
        Bystander(run, w, w', p, q, w.procs[q]);
      }
    }
  }

  lemma CurrentPassed<S>(w: World<S>, embedded: seq<Migration>, applied: Ledger, i: nat)
    requires Current(w, embedded, applied, i)
    ensures Passed(w.executed, embedded, Pc<S>.Loop(applied, i))
  {
    hide Record, LedgerOf;
    assert w.executed[..|w.executed|] == w.executed;
  }

  /** Passing over a recorded migration, or leaving the loop, needs no lock. */
  lemma SkipPassed<S>(executed: seq<Migration>, embedded: seq<Migration>, applied: Ledger, i: nat)
    requires Ascending(embedded) && Passed(executed, embedded, Pc<S>.Loop(applied, i))
    requires i < |embedded| ==> embedded[i].version in applied
    ensures i < |embedded| ==> i < FirstPending(embedded, applied)
    ensures i == |embedded| ==> Covers(executed, embedded)
  {
    hide Record, LedgerOf, Front;
    assert embedded[..|embedded|] == embedded;
    PrefixLedger(embedded, FirstPending(embedded, applied));
  }

  lemma SkipSteps<S>(run: (S, Str) -> S, schema: S, w: World<S>, p: Pid)
    requires Enabled(w, Skip(p)) && LedgerInv(run, schema, w) && ProcInv(run, w, p, w.procs[p])
    ensures Steps(run, schema, w, p, Do(run, w, Skip(p)))
  {
    hide Front, LedgerOf, Record, FirstPending, Covers, Ascending, Fold;
    var a := w.procs[p];
    SkipPassed<S>(w.executed, a.embedded, a.pc.applied, a.pc.i);
  }

  /** A step that touches no table has only its own process to answer for. */
  lemma PrivateSteps<S>(run: (S, Str) -> S, schema: S, w: World<S>, p: Pid, w': World<S>)
    requires LedgerInv(run, schema, w)
    requires p in w'.procs && (w' == w.Put(p, w'.procs[p]) || w' == w.Unlock(p).Put(p, w'.procs[p]))
    requires ProcInv(run, w', p, w'.procs[p])
    ensures Steps(run, schema, w, p, w')
  {
    hide Front, LedgerOf, Record, Ascending, Fold, ProcInv;
  }

  lemma StartSteps<S>(run: (S, Str) -> S, schema: S, w: World<S>, m: Move)
    requires Inv(run, schema, w) && Enabled(w, m)
    requires m.Begin? || m.Acquire? || m.NoConnection?
    ensures Steps(run, schema, w, m.p, Do(run, w, m))
  {
    hide LedgerInv, Covers, Ascending;
    assert m.Begin? || ProcInv(run, w, m.p, w.procs[m.p]);
    PrivateSteps(run, schema, w, m.p, Do(run, w, m));
  }

  lemma SoundPut<S>(run: (S, Str) -> S, w: World<S>, p: Pid, a: Proc<S>, embedded: seq<Migration>, pc: Pc<S>)
    ensures Sound(run, w.Put(p, a), p, embedded, pc) == Sound(run, w, p, embedded, pc)
  {
    hide Front, LedgerOf, FirstPending;
  }

  lemma ReleaseSound<S>(run: (S, Str) -> S, w: World<S>, p: Pid, embedded: seq<Migration>, pc: Pc<S>)
    requires Sound(run, w, p, embedded, pc)
    requires !pc.Start? && !pc.Waiting? && !pc.Done? && !pc.Crashed?
    ensures Sound(run, w, p, embedded, Pc<S>.Release(false))
  {
  }

  /** A process that gives up leaves no more than the statement in flight. */
  lemma GiveUpSteps<S>(run: (S, Str) -> S, schema: S, w: World<S>, m: Move)
    requires m.Refuse? || m.Break?
    requires Enabled(w, m) && LedgerInv(run, schema, w) && ProcInv(run, w, m.p, w.procs[m.p])
    ensures Steps(run, schema, w, m.p, Do(run, w, m))
  {
    hide LedgerInv, Covers, Ascending, Sound;
    var a, w' := w.procs[m.p], Do(run, w, m);
    SoundPut(run, w, m.p, w'.procs[m.p], a.embedded, a.pc);
    if !a.pc.Waiting? && a.Connected() {
      ReleaseSound(run, w, m.p, a.embedded, a.pc);
      SoundPut(run, w, m.p, w'.procs[m.p], a.embedded, Pc<S>.Release(false));
    }
    if a.orphan.Some? {
      SoundPut(run, w, m.p, w'.procs[m.p], a.embedded, a.orphan.value);
    }
    PrivateSteps(run, schema, w, m.p, w');
  }

  lemma CrashSteps<S>(run: (S, Str) -> S, schema: S, w: World<S>, p: Pid)
    requires Enabled(w, Crash(p)) && LedgerInv(run, schema, w) && ProcInv(run, w, p, w.procs[p])
    ensures Steps(run, schema, w, p, Do(run, w, Crash(p)))
  {
    hide LedgerInv, Covers, Ascending, Sound;
    var a, w' := w.procs[p], Do(run, w, Crash(p));
    SoundPut(run, w, p, w'.procs[p], a.embedded, a.pc);
    if a.orphan.Some? {
      SoundPut(run, w, p, w'.procs[p], a.embedded, a.orphan.value);
    }
    PrivateSteps(run, schema, w, p, w');
  }

  /** When a session dies its lock goes with it. */
  lemma EndSteps<S>(run: (S, Str) -> S, schema: S, w: World<S>, p: Pid)
    requires Enabled(w, End(p)) && LedgerInv(run, schema, w) && ProcInv(run, w, p, w.procs[p])
    ensures Steps(run, schema, w, p, Do(run, w, End(p)))
  {
    hide LedgerInv, Covers, Ascending, Sound, Passed;
    PrivateSteps(run, schema, w, p, Do(run, w, End(p)));
  }

  /**
   A statement carried out after its process gave up is still carried out under the lock, and a late
   commit still fits the ledger.
   */
  lemma LateCommitSteps<S>(run: (S, Str) -> S, schema: S, w: World<S>, p: Pid)
    requires Enabled(w, Orphan(p)) && LedgerInv(run, schema, w) && ProcInv(run, w, p, w.procs[p])
    requires w.procs[p].orphan.value.Recorded?
    ensures Steps(run, schema, w, p, Do(run, w, Orphan(p)))
  {
    hide Front, Record, FirstPending, Covers, Ascending, Fold, LedgerOf, Current;
    var a := w.procs[p];
    var pc := a.orphan.value;
    Committing(run, schema, w, a.embedded, pc.applied, pc.i, pc.schema);
  }

  lemma LateSteps<S>(run: (S, Str) -> S, schema: S, w: World<S>, p: Pid)
    requires Enabled(w, Orphan(p)) && LedgerInv(run, schema, w) && ProcInv(run, w, p, w.procs[p])
    requires !w.procs[p].orphan.value.Recorded?
    ensures Steps(run, schema, w, p, Do(run, w, Orphan(p)))
  {
    hide Front, Record, FirstPending, Covers, Ascending, Fold, Current;
  }

  lemma LockSteps<S>(run: (S, Str) -> S, schema: S, w: World<S>, p: Pid)
    requires Enabled(w, Reply(p)) && LedgerInv(run, schema, w) && ProcInv(run, w, p, w.procs[p])
    requires w.procs[p].pc.Waiting? || w.procs[p].pc.Locked? || w.procs[p].pc.Release?
    ensures Steps(run, schema, w, p, Do(run, w, Reply(p)))
  {
    hide Front, Record, FirstPending, Covers, Ascending, Fold, Current;
  }

  lemma LoadSteps<S>(run: (S, Str) -> S, schema: S, w: World<S>, p: Pid)
    requires Enabled(w, Reply(p)) && LedgerInv(run, schema, w) && ProcInv(run, w, p, w.procs[p])
    requires w.procs[p].pc.Created?
    ensures Steps(run, schema, w, p, Do(run, w, Reply(p)))
  {
    hide Front, Record, FirstPending, Covers, Ascending, Fold, LedgerOf, Current, SetMatches;
    var a, w' := w.procs[p], Do(run, w, Reply(p));
    VerifiedFront(w.executed, a.embedded, a.kind.Migrate?);
    if SetMatches(a.embedded, w.ledger.value, a.kind.Migrate?) {
      if a.kind.Migrate? {
        Loading(w, a.embedded);
        CurrentPassed(w, a.embedded, w.ledger.value, 0);
        CurrentPut(w, p, w'.procs[p], a.embedded, w.ledger.value, 0);
      } else {
        WholeCovers(w.executed, a.embedded);
      }
    }
  }

  lemma CurrentPut<S>(w: World<S>, p: Pid, a: Proc<S>, embedded: seq<Migration>, applied: Ledger, i: nat)
    ensures Current(w.Put(p, a), embedded, applied, i) == Current(w, embedded, applied, i)
  {
    hide Front, LedgerOf, FirstPending;
  }

  lemma WholeCovers(items: seq<Migration>, embedded: seq<Migration>)
    requires Front(items, embedded) && |items| == |embedded|
    ensures Covers(items, embedded)
  {
    assert items[..|embedded|] == items;
  }

  lemma ApplySteps<S>(run: (S, Str) -> S, schema: S, w: World<S>, p: Pid)
    requires Enabled(w, Reply(p)) && LedgerInv(run, schema, w) && ProcInv(run, w, p, w.procs[p])
    requires w.procs[p].pc.Loop? || w.procs[p].pc.Executed?
    ensures Steps(run, schema, w, p, Do(run, w, Reply(p)))
  {
    hide Front, Record, FirstPending, Covers, Ascending, Fold, LedgerOf, Current;
    var a, w' := w.procs[p], Do(run, w, Reply(p));
    CurrentPut(w, p, w'.procs[p], a.embedded, a.pc.applied, a.pc.i);
    LoadedTells(w, a.embedded, a.pc.applied, a.pc.i);
  }

  lemma CommitSteps<S>(run: (S, Str) -> S, schema: S, w: World<S>, p: Pid)
    requires Enabled(w, Reply(p)) && LedgerInv(run, schema, w) && ProcInv(run, w, p, w.procs[p])
    requires w.procs[p].pc.Recorded?
    ensures Steps(run, schema, w, p, Do(run, w, Reply(p)))
  {
    hide Front, Record, FirstPending, Covers, Ascending, Fold, LedgerOf, Current, Passed;
    var a, w' := w.procs[p], Do(run, w, Reply(p));
    var pc := a.pc;
    Committing(run, schema, w, a.embedded, pc.applied, pc.i, pc.schema);
    var done := w.Commit(a.embedded, pc.i, pc.schema);
    CurrentPassed(done, a.embedded, pc.applied, pc.i + 1);
    CurrentPut(done, p, w'.procs[p], a.embedded, pc.applied, pc.i + 1);
  }

  lemma EveryStep<S>(run: (S, Str) -> S, schema: S, w: World<S>, m: Move)
    requires Inv(run, schema, w) && Enabled(w, m)
    ensures Steps(run, schema, w, m.p, Do(run, w, m))
  {
    hide LedgerInv, ProcInv, Steps, Do;
    match m {
      case Begin(_, _, _) => StartSteps(run, schema, w, m);
      case Acquire(_) => StartSteps(run, schema, w, m);
      case NoConnection(_) => StartSteps(run, schema, w, m);
      case Reply(p) =>
        match w.procs[p].pc {
          case Created => LoadSteps(run, schema, w, p);
          case Loop(_, _) => ApplySteps(run, schema, w, p);
          case Executed(_, _, _) => ApplySteps(run, schema, w, p);
          case Recorded(_, _, _) => CommitSteps(run, schema, w, p);
          case _ => LockSteps(run, schema, w, p);
        }
      case Refuse(_) => GiveUpSteps(run, schema, w, m);
      case Skip(p) => SkipSteps(run, schema, w, p);
      case Break(_) => GiveUpSteps(run, schema, w, m);
      case Orphan(p) =>
        if w.procs[p].orphan.value.Recorded? {
          LateCommitSteps(run, schema, w, p);
        } else {
          LateSteps(run, schema, w, p);
        }
      case End(p) => EndSteps(run, schema, w, p);
      case Crash(p) => CrashSteps(run, schema, w, p);
    }
  }

  lemma StepKeepsInv<S>(run: (S, Str) -> S, schema: S, w: World<S>, m: Move)
    requires Inv(run, schema, w) && Enabled(w, m)
    ensures Inv(run, schema, Do(run, w, m))
  {
    hide Inv, Steps, Do;
    EveryStep(run, schema, w, m);
    StepsKeepInv(run, schema, w, m.p, Do(run, w, m));
  }

  lemma {:induction false} RunKeepsInv<S>(run: (S, Str) -> S, schema: S, w: World<S>, moves: seq<Move>, w': World<S>)
    requires Inv(run, schema, w) && Run(run, w, moves, w')
    ensures Inv(run, schema, w')
    decreases |moves|
  {
    hide Inv, Do, Enabled;
    if moves != [] {
      StepKeepsInv(run, schema, w, moves[0]);
      RunKeepsInv(run, schema, Do(run, w, moves[0]), moves[1..], w');
    }
  }
}
