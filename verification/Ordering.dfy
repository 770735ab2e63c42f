/** ORDER BY updated_at DESC, task_id DESC, and what a keyset condition cuts from it. */
module Ordering {
  import opened Text
  import opened Tasks

  // ---------- the order of task ids ----------

  /**
   Distinct texts rank apart. Strings being countable, every strict total order on them is the order of
   some such ranks.
   */
  ghost predicate Strict(rank: Str -> real) {
    forall a: Str, b: Str :: rank(a) == rank(b) ==> a == b
  }

  /** The collation of the column task_id. */
  type Collation = rank: Str -> real | Strict(rank) ghost witness Shortlex()

  function Number(s: Str): (n: nat)
    ensures n == 0 <==> s == []
  {
    if s == [] then 0 else 256 * Number(s[..|s| - 1]) + s[|s| - 1] as int + 1
  }

  lemma {:induction false} NumberInjective(a: Str, b: Str)
    requires Number(a) == Number(b)
    ensures a == b
  {
    if a != [] {
      var a', b' := a[..|a| - 1], b[..|b| - 1];
      var x, y := a[|a| - 1], b[|b| - 1];
      assert 256 * Number(a') + x as int == 256 * Number(b') + y as int;
      assert Number(a') == Number(b') && x as int == y as int;
      NumberInjective(a', b');
      assert a == a' + [x] && b == b' + [y];
    }
  }

  ghost function Shortlex(): (rank: Str -> real)
    ensures Strict(rank)
  {
    var rank := (s: Str) => Number(s) as real;
    assert Strict(rank) by {
      forall a: Str, b: Str | rank(a) == rank(b)
        ensures a == b
      {
        NumberInjective(a, b);
      }
    }
    rank
  }

  // ---------- the order of rows ----------

  datatype Key = Key(time: int, id: Str)

  function KeyOf(rows: Table, id: Str): Key
    requires id in rows
  {
    Key(rows[id].updatedAt, id)
  }

  /** (a.time, a.id) > (b.time, b.id) as SQL compares rows. */
  predicate Newer(rank: Collation, a: Key, b: Key) {
    a.time > b.time || (a.time == b.time && rank(a.id) > rank(b.id))
  }

  predicate IsNewest(rank: Collation, rows: Table, id: Str) {
    id in rows && forall other | other in rows && other != id :: Newer(rank, KeyOf(rows, id), KeyOf(rows, other))
  }

  lemma NewestExists(rank: Collation, rows: Table) returns (id: Str)
    requires rows != map[]
    ensures IsNewest(rank, rows, id)
    decreases |rows|
  {
    var any :| any in rows;
    var others := rows - {any};
    if others == map[] {
      assert forall other | other in rows && other != any :: other in others;
      id := any;
    } else {
      var best := NewestExists(rank, others);
      id := if Newer(rank, KeyOf(rows, any), KeyOf(rows, best)) then any else best;
      assert forall other | other in rows :: other == any || other in others;
    }
  }

  function Newest(rank: Collation, rows: Table): (id: Str)
    requires rows != map[]
    ensures IsNewest(rank, rows, id)
  {
    assert exists id :: id in rows && IsNewest(rank, rows, id) by {
      var _ := NewestExists(rank, rows);
    }
    var id :| id in rows && IsNewest(rank, rows, id);
    id
  }

  /** The task ids of the rows in the order in which the query returns them. */
  function Ordered(rank: Collation, rows: Table): (ids: seq<Str>)
    ensures |ids| == |rows|
    ensures forall id :: id in ids <==> id in rows
    decreases |rows|
  {
    if rows == map[] then []
    else
      var id := Newest(rank, rows);
      [id] + Ordered(rank, rows - {id})
  }

  ghost predicate Sorted(rank: Collation, rows: Table, ids: seq<Str>) {
    && (forall i | 0 <= i < |ids| :: ids[i] in rows)
    && (forall id | id in rows :: id in ids)
    && (forall i, j | 0 <= i < j < |ids| :: Newer(rank, KeyOf(rows, ids[i]), KeyOf(rows, ids[j])))
  }

  /** Sorted ids are the newest and the sorted rest. */
  lemma SortedTail(rank: Collation, rows: Table, ids: seq<Str>)
    requires ids != [] && Sorted(rank, rows, ids)
    ensures IsNewest(rank, rows, ids[0]) && Sorted(rank, rows - {ids[0]}, ids[1..])
  {
    var others, rest := rows - {ids[0]}, ids[1..];
    forall other | other in rows && other != ids[0]
      ensures other in rest && Newer(rank, KeyOf(rows, ids[0]), KeyOf(rows, other))
    {
      var i :| 0 <= i < |ids| && ids[i] == other;
      assert rest[i - 1] == other;
    }
    NotFirst(rank, rows, ids);
    hide Newer;
    forall i, j | 0 <= i < j < |rest|
      ensures Newer(rank, KeyOf(others, rest[i]), KeyOf(others, rest[j]))
    {
      assert Newer(rank, KeyOf(rows, ids[i + 1]), KeyOf(rows, ids[j + 1]));
    }
  }

  lemma NotFirst(rank: Collation, rows: Table, ids: seq<Str>)
    requires ids != [] && Sorted(rank, rows, ids)
    ensures forall i | 0 <= i < |ids[1..]| :: ids[1..][i] in rows - {ids[0]}
  {
    forall i | 0 <= i < |ids[1..]|
      ensures ids[1..][i] in rows - {ids[0]}
    {
      assert Newer(rank, KeyOf(rows, ids[0]), KeyOf(rows, ids[i + 1]));
    }
  }

  lemma NewestFirst(rank: Collation, rows: Table, ids: seq<Str>)
    requires ids != [] && IsNewest(rank, rows, ids[0]) && Sorted(rank, rows - {ids[0]}, ids[1..])
    ensures Sorted(rank, rows, ids)
  {
    hide Newer;
    var others, rest := rows - {ids[0]}, ids[1..];
    forall i | 0 < i < |ids|
      ensures ids[i] == rest[i - 1] && ids[i] in others
    {
    }
    forall i, j | 0 <= i < j < |ids|
      ensures Newer(rank, KeyOf(rows, ids[i]), KeyOf(rows, ids[j]))
    {
      if i > 0 {
        assert Newer(rank, KeyOf(others, rest[i - 1]), KeyOf(others, rest[j - 1]));
      }
    }
    forall other | other in rows
      ensures other in ids
    {
      if other in others {
        var k :| 0 <= k < |rest| && rest[k] == other;
        assert ids[k + 1] == other;
      }
    }
  }

  lemma {:induction false} OrderedIsSorted(rank: Collation, rows: Table)
    ensures Sorted(rank, rows, Ordered(rank, rows))
    decreases |rows|
  {
    if rows != map[] {
      var id := Newest(rank, rows);
      OrderedIsSorted(rank, rows - {id});
      var ids := Ordered(rank, rows);
      assert ids[0] == id && ids[1..] == Ordered(rank, rows - {id});
      NewestFirst(rank, rows, ids);
    }
  }

  /** Only one sequence is sorted, so the query's order is determined. */
  lemma {:induction false} SortedUnique(rank: Collation, rows: Table, ids: seq<Str>)
    requires Sorted(rank, rows, ids)
    ensures ids == Ordered(rank, rows)
    decreases |ids|
  {
    if ids == [] {
      assert rows == map[] by {
        assert forall id :: id !in rows;
      }
    } else {
      var id, rest := ids[0], ids[1..];
      assert ids == [id] + rest;
      assert id in rows;
      SortedTail(rank, rows, ids);
      SortedUnique(rank, rows - {id}, rest);
      NewestUnique(rank, rows, Newest(rank, rows), id);
    }
  }

  lemma NewestUnique(rank: Collation, rows: Table, a: Str, b: Str)
    requires IsNewest(rank, rows, a) && IsNewest(rank, rows, b)
    ensures a == b
  {
  }

  /** The keyset condition (updated_at, task_id) < cursor; no cursor, no condition. */
  predicate Past(rank: Collation, cursor: Option<Key>, key: Key) {
    cursor.None? || Newer(rank, cursor.value, key)
  }

  function Below(rank: Collation, rows: Table, cursor: Option<Key>): Table {
    map id | id in rows && Past(rank, cursor, KeyOf(rows, id)) :: rows[id]
  }

  lemma SortedBelow(rank: Collation, rows: Table, ids: seq<Str>, m: nat, k: nat)
    requires Sorted(rank, rows, ids) && 0 < m <= |ids| && k < |ids|
    ensures ids[k] in Below(rank, rows, Some(KeyOf(rows, ids[m - 1]))) <==> m <= k
  {
    if k < m - 1 {
      assert Newer(rank, KeyOf(rows, ids[k]), KeyOf(rows, ids[m - 1]));
    }
    if m - 1 < k {
      assert Newer(rank, KeyOf(rows, ids[m - 1]), KeyOf(rows, ids[k]));
    }
  }

  /** Continuing behind the m-th row leaves exactly the rows after it, in the same order. */
  lemma BelowIsSuffix(rank: Collation, rows: Table, m: nat)
    requires 0 < m <= |rows|
    ensures Ordered(rank, rows)[m - 1] in rows
    ensures Ordered(rank, Below(rank, rows, Some(KeyOf(rows, Ordered(rank, rows)[m - 1])))) == Ordered(rank, rows)[m..]
  {
    hide Ordered, Newer;
    var ids := Ordered(rank, rows);
    OrderedIsSorted(rank, rows);
    var below := Below(rank, rows, Some(KeyOf(rows, ids[m - 1])));
    var rest := ids[m..];
    forall id | id in below
      ensures id in rest
    {
      var k :| 0 <= k < |ids| && ids[k] == id;
      SortedBelow(rank, rows, ids, m, k);
      assert rest[k - m] == id;
    }
    forall i | 0 <= i < |rest|
      ensures rest[i] in below
    {
      SortedBelow(rank, rows, ids, m, m + i);
    }
    forall i, j | 0 <= i < j < |rest|
      ensures Newer(rank, KeyOf(below, rest[i]), KeyOf(below, rest[j]))
    {
      assert Newer(rank, KeyOf(rows, ids[m + i]), KeyOf(rows, ids[m + j]));
    }
    SortedUnique(rank, below, rest);
  }

  /** In the order, the rows up to the m-th are those not below it. */
  lemma PrefixIsNotBelow(rank: Collation, rows: Table, m: nat, id: Str)
    requires 0 < m <= |rows|
    ensures Ordered(rank, rows)[m - 1] in rows
    ensures id in Ordered(rank, rows)[..m]
       <==> id in rows && !Newer(rank, KeyOf(rows, Ordered(rank, rows)[m - 1]), KeyOf(rows, id))
  {
    var ids := Ordered(rank, rows);
    OrderedIsSorted(rank, rows);
    if id in rows {
      var k :| 0 <= k < |ids| && ids[k] == id;
      if k < m {
        assert ids[..m][k] == id;
        assert k < m - 1 ==> Newer(rank, KeyOf(rows, id), KeyOf(rows, ids[m - 1]));
      } else {
        assert Newer(rank, KeyOf(rows, ids[m - 1]), KeyOf(rows, id));
      }
    }
    if id in ids[..m] {
      var k :| 0 <= k < m && ids[k] == id;
      assert k < m - 1 ==> Newer(rank, KeyOf(rows, id), KeyOf(rows, ids[m - 1]));
    }
  }
}
