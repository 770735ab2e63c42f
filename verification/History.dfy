/** Logs of completed calls: the versions they return, and the states that conditional updates replace. */
module History {
  import opened Text
  import opened Auth
  import opened Tasks
  import opened Ordering
  import opened Listing
  import opened Operations

  datatype Event = Event(op: Op, reply: Reply)

  /** The committed rows after the calls of a log, starting from the empty table. */
  function After(rank: Collation, log: seq<Event>): Table {
    if log == [] then map[] else Apply(rank, After(rank, log[..|log| - 1]), log[|log| - 1].op).0
  }

  /** Every call was answered as if it ran alone, in log order. */
  ghost predicate Legal(rank: Collation, log: seq<Event>) {
    forall i | 0 <= i < |log| :: log[i].reply == Apply(rank, After(rank, log[..i]), log[i].op).1
  }

  lemma LegalPrefix(rank: Collation, log: seq<Event>, n: nat)
    requires Legal(rank, log) && n <= |log|
    ensures Legal(rank, log[..n])
  {
    hide Apply, After;
    forall i | 0 <= i < n
      ensures log[..n][..i] == log[..i]
    {
    }
  }

  lemma LegalSnoc(rank: Collation, log: seq<Event>, e: Event)
    requires Legal(rank, log)
    requires e.reply == Apply(rank, After(rank, log), e.op).1
    ensures Legal(rank, log + [e])
    ensures After(rank, log + [e]) == Apply(rank, After(rank, log), e.op).0
  {
    hide Apply;
    var longer := log + [e];
    assert longer[..|log|] == log;
    forall i | 0 <= i < |longer|
      ensures longer[i].reply == Apply(rank, After(rank, longer[..i]), longer[i].op).1
    {
      if i < |log| {
        assert longer[..i] == log[..i];
      }
    }
  }

  lemma AfterStep(rank: Collation, log: seq<Event>, i: nat)
    requires i < |log|
    ensures After(rank, log[..i + 1]) == Apply(rank, After(rank, log[..i]), log[i].op).0
  {
    assert log[..i + 1][..i] == log[..i];
  }

  lemma {:induction false} AfterConsistent(rank: Collation, log: seq<Event>)
    ensures Consistent(After(rank, log))
  {
    hide Apply, Consistent;
    if log != [] {
      AfterConsistent(rank, log[..|log| - 1]);
      ApplyKeepsConsistent(rank, After(rank, log[..|log| - 1]), log[|log| - 1].op);
    } else {
      EmptyConsistent();
    }
  }

  lemma EmptyConsistent()
    ensures Consistent(map[])
  {
  }

  // ---------- versions ----------

  /** The task a call writes when it succeeds. */
  function Target(op: Op): Option<Str> {
    match op
    case Create(_, task, _) => if task.Some? then Some(task.value.id) else None
    case Update(_, request, _) => if RequestTask(request).Some? then Some(RequestTask(request).value.id) else None
    case _ => None
  }

  predicate Writes(e: Event, id: Str) {
    Target(e.op) == Some(id) && e.reply.Version?
  }

  /** The versions that the log returned for one task, in commit order. */
  function Versions(log: seq<Event>, id: Str): seq<int> {
    if log == [] then []
    else
      var e := log[|log| - 1];
      Versions(log[..|log| - 1], id) + if Writes(e, id) then [e.reply.version] else []
  }

  /** A write of one task moves its version on by one, from nothing to 1; any other call leaves the row alone. */
  lemma WriteCounts(rank: Collation, rows: Table, op: Op, id: Str)
    ensures
      var (rows', reply) := Apply(rank, rows, op);
      if Target(op) == Some(id) && reply.Version? then
        && id in rows'
        && reply.version == rows'[id].version == (if id in rows then rows[id].version + 1 else 1)
        && op.Create? == (id !in rows)
      else if id in rows then id in rows' && rows'[id] == rows[id]
      else id !in rows'
  {
    hide ListTasks, VerifiedOwner, OwnerKey, Conflict;
  }

  /** A task written later than its owner's other matching tasks heads the next listing. */
  lemma WrittenComesFirst(rank: Collation, rows: Table, op: Op, owner: Owner, request: ListRequest, id: Str)
    requires Apply(rank, rows, op).1.Version? && Target(op) == Some(id)
    requires id in Selected(Apply(rank, rows, op).0, owner, request)
    requires forall other | other in Selected(Apply(rank, rows, op).0, owner, request) && other != id ::
               Apply(rank, rows, op).0[other].updatedAt < op.now
    ensures
      var ordered := Ordered(rank, Selected(Apply(rank, rows, op).0, owner, request));
      ordered != [] && ordered[0] == id
  {
    hide ListTasks, VerifiedOwner, OwnerKey, Conflict, Matches, Apply, Target;
    var selected := Selected(Apply(rank, rows, op).0, owner, request);
    WrittenNow(rank, rows, op, id);
    assert IsNewest(rank, selected, id);
    NewestUnique(rank, selected, Newest(rank, selected), id);
  }

  lemma WrittenNow(rank: Collation, rows: Table, op: Op, id: Str)
    requires Apply(rank, rows, op).1.Version? && Target(op) == Some(id)
    ensures op.Create? || op.Update?
    ensures id in Apply(rank, rows, op).0 && Apply(rank, rows, op).0[id].updatedAt == op.now
  {
    hide ListTasks, VerifiedOwner, OwnerKey, Conflict;
  }

  /**
   The versions returned for a task are 1, 2, 3, ... without gap or repeat, and the last of them is the
   stored one.
   */
  lemma {:induction false} VersionsGapFree(rank: Collation, log: seq<Event>, id: Str)
    requires Legal(rank, log)
    ensures forall k | 0 <= k < |Versions(log, id)| :: Versions(log, id)[k] == k + 1
    ensures id in After(rank, log) <==> Versions(log, id) != []
    ensures id in After(rank, log) ==> After(rank, log)[id].version == |Versions(log, id)|
  {
    hide Apply, Legal, Target;
    if log != [] {
      var init, e := log[..|log| - 1], log[|log| - 1];
      LegalPrefix(rank, log, |log| - 1);
      VersionsGapFree(rank, init, id);
      Answered(rank, log, |log| - 1);
      WriteCounts(rank, After(rank, init), e.op, id);
    }
  }

  /** The first version of a task comes from Create and the later ones from Update. */
  lemma CreatedOnce(rank: Collation, log: seq<Event>, i: nat, id: Str)
    requires Legal(rank, log) && i < |log| && Writes(log[i], id)
    ensures log[i].op.Create? <==> log[i].reply.version == 1
    ensures log[i].reply.version == |Versions(log[..i], id)| + 1
  {
    hide Apply;
    LegalPrefix(rank, log, i);
    VersionsGapFree(rank, log[..i], id);
    WriteCounts(rank, After(rank, log[..i]), log[i].op, id);
  }

  // ---------- conditional updates ----------

  predicate ConditionalSuccess(e: Event, id: Str, prevVersion: int) {
    e.op.Update? && Writes(e, id) && e.op.request.value.prevVersion == prevVersion && prevVersion != MISSING_VERSION
  }

  /** A conditional update that succeeds replaces exactly the committed state that carries its PrevVersion. */
  lemma ConditionalReplaces(rank: Collation, log: seq<Event>, i: nat, id: Str, prevVersion: int)
    requires Legal(rank, log) && i < |log| && ConditionalSuccess(log[i], id, prevVersion)
    ensures
      var before, after := After(rank, log[..i]), After(rank, log[..i + 1]);
      && id in before && before[id].version == prevVersion
      && log[i].reply == Version(prevVersion + 1)
      && after == before[id := NextRow(before[id], log[i].op.request.value.task.value, log[i].op.now)]
  {
    hide ListTasks, VerifiedOwner, OwnerKey, After, Legal;
    AfterStep(rank, log, i);
    Answered(rank, log, i);
  }

  lemma Answered(rank: Collation, log: seq<Event>, i: nat)
    requires Legal(rank, log) && i < |log|
    ensures log[i].reply == Apply(rank, After(rank, log[..i]), log[i].op).1
  {
  }

  lemma {:induction false} VersionsGrow(log: seq<Event>, id: Str, i: nat, j: nat)
    requires i <= j <= |log|
    ensures |Versions(log[..i], id)| <= |Versions(log[..j], id)|
    ensures i < j && Writes(log[i], id) ==> |Versions(log[..i], id)| < |Versions(log[..j], id)|
    decreases j
  {
    hide Writes;
    if i < j {
      VersionsGrow(log, id, i, j - 1);
      assert log[..j][..j - 1] == log[..j - 1];
    }
  }

  /** At most one conditional update per task and PrevVersion ever succeeds. */
  lemma ConditionalOnce(rank: Collation, log: seq<Event>, i: nat, j: nat, id: Str, prevVersion: int)
    requires Legal(rank, log) && i < |log| && j < |log|
    requires ConditionalSuccess(log[i], id, prevVersion) && ConditionalSuccess(log[j], id, prevVersion)
    ensures i == j
  {
    hide Apply, Legal;
    ConditionalReplaces(rank, log, i, id, prevVersion);
    ConditionalReplaces(rank, log, j, id, prevVersion);
    CreatedOnce(rank, log, i, id);
    CreatedOnce(rank, log, j, id);
    if i < j {
      VersionsGrow(log, id, i, j);
    } else if j < i {
      VersionsGrow(log, id, j, i);
    }
  }
}
