/** The embedded migrations, and the check of a ledger against them. */
module MigrationSet {
  import opened Text
  import opened WhiteSpace

  datatype Migration = Migration(version: int, name: Str, contents: Str, checksum: Str)

  /** What the ledger records of a migration. */
  datatype Applied = Applied(name: Str, checksum: Str)

  type Ledger = map<int, Applied>

  function Record(item: Migration): Applied {
    Applied(item.name, item.checksum)
  }

  /** The ledger after some migrations have been recorded one by one. */
  function LedgerOf(items: seq<Migration>): Ledger {
    if items == [] then map[]
    else LedgerOf(items[..|items| - 1])[items[|items| - 1].version := Record(items[|items| - 1])]
  }

  predicate Ascending(items: seq<Migration>) {
    forall i, j | 0 <= i < j < |items| :: items[i].version < items[j].version
  }

  ghost predicate Distinct(items: seq<Migration>) {
    forall i, j | 0 <= i < j < |items| :: items[i].version != items[j].version
  }

  ghost predicate Positive(items: seq<Migration>) {
    forall i | 0 <= i < |items| :: items[i].version > 0
  }

  // ---------- verification ----------

  /** A recorded version is embedded, under the same name and checksum. */
  predicate Known(items: seq<Migration>, applied: Ledger, v: int)
    requires v in applied
  {
    exists i | 0 <= i < |items| :: items[i].version == v && applied[v] == Record(items[i])
  }

  /**
   Nothing recorded is unknown or altered, no embedded migration is missing below a recorded one,
   and, unless some may still be pending, none is missing at all.
   */
  predicate SetMatches(items: seq<Migration>, applied: Ledger, allowPending: bool) {
    && (forall v | v in applied :: Known(items, applied, v))
    && (forall i, v | 0 <= i < |items| && v in applied && items[i].version < v :: items[i].version in applied)
    && (!allowPending ==> forall i | 0 <= i < |items| :: items[i].version in applied)
  }

  datatype SetError =
    | UnknownVersion(version: int)
    | NameMismatch(version: int)
    | ChecksumMismatch(version: int)
    | Gap(version: int)
    | Pending(version: int)

  /** What an error says is so. */
  ghost predicate Explains(items: seq<Migration>, applied: Ledger, allowPending: bool, error: SetError) {
    var v := error.version;
    match error
    case UnknownVersion(_) => v in applied && forall i | 0 <= i < |items| :: items[i].version != v
    case NameMismatch(_) =>
      v in applied && exists i | 0 <= i < |items| :: items[i].version == v && applied[v].name != items[i].name
    case ChecksumMismatch(_) =>
      v in applied && exists i | 0 <= i < |items| :: items[i].version == v && applied[v].checksum != items[i].checksum
    case Gap(_) =>
      v !in applied && (exists i | 0 <= i < |items| :: items[i].version == v) && exists u | u in applied :: v < u
    case Pending(_) =>
      && !allowPending && v !in applied
      && (exists i | 0 <= i < |items| :: items[i].version == v)
      && forall u | u in applied :: u < v
  }

  /** `embedded` indexes the items by version. */
  ghost predicate Indexes(embedded: map<int, Migration>, items: seq<Migration>) {
    && (forall k | 0 <= k < |items| :: items[k].version in embedded && embedded[items[k].version] == items[k])
    && (forall v | v in embedded :: exists k | 0 <= k < |items| :: items[k].version == v)
  }

  lemma IndexedKnown(embedded: map<int, Migration>, items: seq<Migration>, applied: Ledger, v: int)
    requires Indexes(embedded, items) && v in applied
    ensures Known(items, applied, v) <==> v in embedded && applied[v] == Record(embedded[v])
    ensures v in embedded <==> exists k | 0 <= k < |items| :: items[k].version == v && embedded[v] == items[k]
  {
    if v in embedded {
      var k :| 0 <= k < |items| && items[k].version == v;
    }
  }

  method IndexByVersion(items: seq<Migration>) returns (embedded: map<int, Migration>)
    requires Distinct(items)
    ensures Indexes(embedded, items)
  {
    embedded := map[];
    for i := 0 to |items|
      invariant Indexes(embedded, items[..i])
    {
      IndexesOneMore(embedded, items, i);
      embedded := embedded[items[i].version := items[i]];
    }
    assert items[..|items|] == items;
  }

  lemma IndexesOneMore(before: map<int, Migration>, items: seq<Migration>, i: nat)
    requires i < |items| && Distinct(items)
    requires Indexes(before, items[..i])
    ensures Indexes(before[items[i].version := items[i]], items[..i + 1])
  {
    var more := items[..i + 1];
    assert more[i] == items[i] && forall k | 0 <= k < i :: more[k] == items[..i][k];
    forall v | v in before
      ensures exists k | 0 <= k < |more| :: more[k].version == v
    {
      var k :| 0 <= k < i && items[..i][k].version == v;
      assert more[k].version == v;
    }
  }

  /**
   `order` is the order in which the map iteration runs; neither it nor the order of the list matters
   to the verdict.
   */
  method VerifyMigrationSet(items: seq<Migration>, applied: Ledger, order: seq<int>,
          allowPending: bool) returns (error: Option<SetError>)
    requires Distinct(items) && Positive(items)
    requires forall v :: v in order <==> v in applied
    ensures error == None <==> SetMatches(items, applied, allowPending)
    ensures error.Some? ==> Explains(items, applied, allowPending, error.value)
  {
    hide Indexes, Known;
    var embedded := IndexByVersion(items);
    var maxApplied := 0;
    for n := 0 to |order|
      invariant forall k | 0 <= k < n ::
          order[k] in applied && Known(items, applied, order[k]) && order[k] <= maxApplied
      invariant maxApplied == 0 || maxApplied in applied
    {
      var version := order[n];
      assert version in order;
      var recorded := applied[version];
      IndexedKnown(embedded, items, applied, version);
      if version !in embedded {
        return Some(UnknownVersion(version));
      }
      var item := embedded[version];
      if recorded.name != item.name {
        return Some(NameMismatch(version));
      }
      if recorded.checksum != item.checksum {
        return Some(ChecksumMismatch(version));
      }
      if version > maxApplied {
        maxApplied := version;
      }
    }
    assert forall v | v in applied :: v in order && Known(items, applied, v) && v <= maxApplied;
    for i := 0 to |items|
      invariant forall k | 0 <= k < i ::
                  items[k].version in applied || (items[k].version > maxApplied && allowPending)
    {
      if items[i].version !in applied {
        if items[i].version <= maxApplied {
          return Some(Gap(items[i].version));
        }
        if !allowPending {
          return Some(Pending(items[i].version));
        }
      }
    }
    return None;
  }

  // ---------- what verification means for an ordered list ----------

  lemma {:induction false} LedgerHolds(items: seq<Migration>, v: int)
    requires Ascending(items)
    ensures v in LedgerOf(items) <==> exists i | 0 <= i < |items| :: items[i].version == v
    ensures forall i | 0 <= i < |items| ::
              items[i].version in LedgerOf(items) && LedgerOf(items)[items[i].version] == Record(items[i])
  {
    if items != [] {
      var init := items[..|items| - 1];
      LedgerHolds(init, v);
      assert forall i | 0 <= i < |init| :: init[i] == items[i];
    }
  }

  function FirstPending(items: seq<Migration>, applied: Ledger): (k: nat)
    ensures k <= |items|
    ensures forall i | 0 <= i < k :: items[i].version in applied
    ensures k < |items| ==> items[k].version !in applied
  {
    if items == [] || items[0].version !in applied then 0 else 1 + FirstPending(items[1..], applied)
  }

  /** With pending migrations allowed, a ledger passes exactly when it records a prefix of the embedded list. */
  lemma MatchesPrefix(items: seq<Migration>, applied: Ledger)
    requires Ascending(items)
    ensures SetMatches(items, applied, true) <==> exists k | 0 <= k <= |items| :: applied == LedgerOf(items[..k])
  {
    if SetMatches(items, applied, true) {
      var k := FirstPending(items, applied);
      PrefixLedger(items, k);
      SameLedger(items, applied, k);
    }
    if k :| 0 <= k <= |items| && applied == LedgerOf(items[..k]) {
      PrefixLedger(items, k);
      forall v | v in applied
        ensures Known(items, applied, v)
      {
        var i :| 0 <= i < k && items[i].version == v;
      }
    }
  }

  lemma SameLedger(items: seq<Migration>, applied: Ledger, k: nat)
    requires Ascending(items) && k <= |items|
    requires forall v | v in applied :: Known(items, applied, v)
    requires forall i | 0 <= i < |items| :: items[i].version in applied <==> i < k
    ensures applied == LedgerOf(items[..k])
  {
    PrefixLedger(items, k);
    var ledger := LedgerOf(items[..k]);
    forall v
      ensures v in applied <==> v in ledger
      ensures v in applied ==> applied[v] == ledger[v]
    {
      if v in applied {
        var i :| 0 <= i < |items| && items[i].version == v && applied[v] == Record(items[i]);
        assert items[i].version in applied;
      }
      if v in ledger {
        var i :| 0 <= i < k && items[i].version == v;
      }
    }
  }

  lemma PrefixLedger(items: seq<Migration>, k: nat)
    requires Ascending(items) && k <= |items|
    ensures forall v :: v in LedgerOf(items[..k]) <==> exists i | 0 <= i < k :: items[i].version == v
    ensures forall i | 0 <= i < |items| :: items[i].version in LedgerOf(items[..k]) <==> i < k
    ensures forall i | 0 <= i < k :: LedgerOf(items[..k])[items[i].version] == Record(items[i])
  {
    var prefix := items[..k];
    assert forall i | 0 <= i < k :: prefix[i] == items[i];
    forall v
      ensures v in LedgerOf(prefix) <==> exists i | 0 <= i < k :: items[i].version == v
    {
      LedgerHolds(prefix, v);
    }
    LedgerHolds(prefix, 0);
  }

  /** With none allowed, a ledger passes exactly when it records the whole list. */
  lemma MatchesWhole(items: seq<Migration>, applied: Ledger)
    requires Ascending(items)
    ensures SetMatches(items, applied, false) <==> applied == LedgerOf(items)
  {
    assert items[..|items|] == items;
    PrefixLedger(items, |items|);
    if SetMatches(items, applied, false) {
      SameLedger(items, applied, |items|);
    }
    if applied == LedgerOf(items) {
      MatchesPrefix(items, applied);
    }
  }

  lemma {:induction false} LedgerSize(items: seq<Migration>)
    requires Ascending(items)
    ensures |LedgerOf(items)| == |items|
  {
    if items != [] {
      LedgerSize(items[..|items| - 1]);
      LedgerHolds(items[..|items| - 1], items[|items| - 1].version);
    }
  }

  // ---------- reading the embedded files ----------

  datatype File = File(name: Str, directory: bool, contents: Str)

  const MAX_INT64 := 0x7FFF_FFFF_FFFF_FFFF

  /** strconv.ParseInt in base 10 for 64 bits. */
  function ParseInt(s: Str): Option<int> {
    var signed := s != [] && (s[0] == '+' || s[0] == '-');
    var digits := if signed then s[1..] else s;
    if digits == [] || !AllDigits(digits) then None
    else
      var v: int := if signed && s[0] == '-' then -(Value(digits) as int) else Value(digits);
      if -MAX_INT64 - 1 <= v <= MAX_INT64 then Some(v) else None
  }

  predicate IsSql(f: File) {
    !f.directory && |f.name| >= 4 && f.name[|f.name| - 4..] == ".sql"
  }

  /** The number before the first underscore of a file name. */
  function VersionPrefix(name: Str): Option<int> {
    var separator := IndexByte(name, '_');
    if separator < 1 then None else ParseInt(name[..separator])
  }

  predicate Usable(f: File) {
    VersionPrefix(f.name).Some? && VersionPrefix(f.name).value > 0 && TrimSpace(f.contents) != []
  }

  function MigrationOf(f: File, sha256: Str -> Str): Migration {
    var version := VersionPrefix(f.name);
    Migration(if version.Some? then version.value else 0, f.name, f.contents, sha256(f.contents))
  }

  function SqlFiles(files: seq<File>): (sql: seq<File>)
    ensures forall f | f in sql :: f in files && IsSql(f)
    ensures forall f | f in files && IsSql(f) :: f in sql
  {
    if files == [] then []
    else
      var init, f := files[..|files| - 1], files[|files| - 1];
      SqlFiles(init) + if IsSql(f) then [f] else []
  }

  /** Every file is a migration, and no two share a version. */
  ghost predicate Readable(sql: seq<File>) {
    && (forall i | 0 <= i < |sql| :: Usable(sql[i]))
    && (forall i, j | 0 <= i < j < |sql| :: VersionPrefix(sql[i].name) != VersionPrefix(sql[j].name))
  }

  function InsertByVersion(item: Migration, sorted: seq<Migration>): (r: seq<Migration>)
    ensures multiset(r) == multiset(sorted) + multiset{item}
  {
    if sorted == [] then [item]
    else if item.version < sorted[0].version then
      assert [item] + sorted == [item] + sorted;
      [item] + sorted
    else
      assert sorted == [sorted[0]] + sorted[1..];
      [sorted[0]] + InsertByVersion(item, sorted[1..])
  }

  /** sort.Slice by version. */
  function ByVersion(items: seq<Migration>): (r: seq<Migration>)
    ensures multiset(r) == multiset(items)
  {
    if items == [] then []
    else
      assert items == [items[0]] + items[1..];
      InsertByVersion(items[0], ByVersion(items[1..]))
  }

  lemma AscendingCons(item: Migration, rest: seq<Migration>)
    requires Ascending(rest) && forall x | x in rest :: item.version < x.version
    ensures Ascending([item] + rest)
  {
  }

  lemma InsertedLater(item: Migration, sorted: seq<Migration>)
    requires sorted != [] && item.version >= sorted[0].version
    ensures InsertByVersion(item, sorted) == [sorted[0]] + InsertByVersion(item, sorted[1..])
  {
  }

  lemma {:induction false} InsertKeepsOrder(item: Migration, sorted: seq<Migration>)
    requires Ascending(sorted)
    requires forall i | 0 <= i < |sorted| :: sorted[i].version != item.version
    ensures Ascending(InsertByVersion(item, sorted))
  {
    if sorted != [] && item.version >= sorted[0].version {
      var rest := InsertByVersion(item, sorted[1..]);
      InsertKeepsOrder(item, sorted[1..]);
      hide InsertByVersion;
      forall x | x in rest
        ensures sorted[0].version < x.version
      {
        assert x in multiset(rest);
        assert x == item || x in sorted[1..];
      }
      AscendingCons(sorted[0], rest);
      InsertedLater(item, sorted);
    } else {
      AscendingCons(item, sorted);
    }
  }

  /** Sorting by version puts migrations of distinct versions in ascending order. */
  lemma {:induction false} SortedAscends(items: seq<Migration>)
    requires Distinct(items)
    ensures Ascending(ByVersion(items))
  {
    if items != [] {
      var rest := ByVersion(items[1..]);
      SortedAscends(items[1..]);
      forall i | 0 <= i < |rest|
        ensures rest[i].version != items[0].version
      {
        assert rest[i] in multiset(rest);
        assert rest[i] in items[1..];
      }
      InsertKeepsOrder(items[0], rest);
    }
  }

  datatype ReadError = NoVersionPrefix(name: Str) | InvalidVersion(name: Str) | DuplicateVersion(name: Str)
      | EmptyFile(name: Str) | NoMigrations

  /** What a refusal says is so of some file. */
  ghost predicate Refuses(files: seq<File>, error: ReadError) {
    if error.NoMigrations? then SqlFiles(files) == []
    else exists i | 0 <= i < |files| :: IsSql(files[i]) && files[i].name == error.name && RefusesAt(files, error, i)
  }

  ghost predicate RefusesAt(files: seq<File>, error: ReadError, i: nat)
    requires i < |files|
  {
    match error
    case NoVersionPrefix(name) => IndexByte(name, '_') < 1
    case InvalidVersion(name) => VersionPrefix(name).None? || VersionPrefix(name).value <= 0
    case DuplicateVersion(name) =>
      exists j | 0 <= j < i :: IsSql(files[j]) && VersionPrefix(files[j].name) == VersionPrefix(name)
    case EmptyFile(_) => TrimSpace(files[i].contents) == []
    case NoMigrations => false
  }

  /** The migrations of usable files, in file order. */
  function Migrations(sql: seq<File>, sha256: Str -> Str): (items: seq<Migration>)
    ensures |items| == |sql| && forall i | 0 <= i < |sql| :: items[i] == MigrationOf(sql[i], sha256)
  {
    seq(|sql|, i requires 0 <= i < |sql| => MigrationOf(sql[i], sha256))
  }

  lemma SqlOneMore(files: seq<File>, i: nat)
    requires i < |files|
    ensures SqlFiles(files[..i + 1])
         == if IsSql(files[i]) then SqlFiles(files[..i]) + [files[i]] else SqlFiles(files[..i])
  {
    assert files[..i + 1][..i] == files[..i];
  }

  lemma {:induction false} SqlPrefix(files: seq<File>, n: nat)
    requires n <= |files|
    ensures SqlFiles(files[..n]) <= SqlFiles(files)
    decreases |files|
  {
    if n < |files| {
      var init := files[..|files| - 1];
      SqlPrefix(init, n);
      assert init[..n] == files[..n];
    } else {
      assert files[..n] == files;
    }
  }

  /** An unusable file, or one with a version seen before, spoils the whole set. */
  lemma Spoils(files: seq<File>, i: nat)
    requires i < |files| && IsSql(files[i])
    requires
      var sql := SqlFiles(files[..i]);
      !Usable(files[i]) || exists k | 0 <= k < |sql| :: VersionPrefix(sql[k].name) == VersionPrefix(files[i].name)
    ensures !Readable(SqlFiles(files))
  {
    hide Usable, VersionPrefix, IsSql, SqlFiles;
    var sql := SqlFiles(files[..i]);
    SqlOneMore(files, i);
    SqlPrefix(files, i + 1);
    assert SqlFiles(files)[|sql|] == (sql + [files[i]])[|sql|] == files[i];
    assert forall k | 0 <= k < |sql| :: SqlFiles(files)[k] == (sql + [files[i]])[k] == sql[k];
  }

  /** The four ways in which a file is refused. */
  lemma RefusedAt(files: seq<File>, i: nat)
    requires i < |files| && IsSql(files[i])
    ensures
      var name := files[i].name;
      && (IndexByte(name, '_') < 1 ==> Refuses(files, NoVersionPrefix(name)))
      && (VersionPrefix(name).None? || VersionPrefix(name).value <= 0 ==> Refuses(files, InvalidVersion(name)))
      && (TrimSpace(files[i].contents) == [] ==> Refuses(files, EmptyFile(name)))
  {
    hide IsSql, VersionPrefix, IndexByte, TrimSpace;
    assert IndexByte(files[i].name, '_') < 1 ==> RefusesAt(files, NoVersionPrefix(files[i].name), i);
    assert VersionPrefix(files[i].name).None? || VersionPrefix(files[i].name).value <= 0 ==>
        RefusesAt(files, InvalidVersion(files[i].name), i);
    assert TrimSpace(files[i].contents) == [] ==> RefusesAt(files, EmptyFile(files[i].name), i);
  }

  lemma NoneToRead(files: seq<File>)
    requires SqlFiles(files) == []
    ensures Refuses(files, NoMigrations)
  {
  }

  lemma SeenBefore(files: seq<File>, i: nat)
    requires i < |files| && IsSql(files[i])
    requires
      var sql := SqlFiles(files[..i]);
      exists k | 0 <= k < |sql| :: VersionPrefix(sql[k].name) == VersionPrefix(files[i].name)
    ensures Refuses(files, DuplicateVersion(files[i].name))
  {
    hide IsSql, VersionPrefix;
    var sql := SqlFiles(files[..i]);
    var k :| 0 <= k < |sql| && VersionPrefix(sql[k].name) == VersionPrefix(files[i].name);
    assert sql[k] in files[..i];
    var j :| 0 <= j < i && files[..i][j] == sql[k];
    assert RefusesAt(files, DuplicateVersion(files[i].name), i) by {
      assert IsSql(files[j]);
    }
  }

  lemma ReadableOneMore(sql: seq<File>, f: File, sha256: Str -> Str)
    requires Readable(sql) && Usable(f)
    requires forall k | 0 <= k < |sql| :: VersionPrefix(sql[k].name) != VersionPrefix(f.name)
    ensures Readable(sql + [f])
    ensures Migrations(sql + [f], sha256) == Migrations(sql, sha256) + [MigrationOf(f, sha256)]
  {
    hide Usable, VersionPrefix;
  }

  lemma DistinctMigrations(sql: seq<File>, sha256: Str -> Str)
    requires Readable(sql)
    ensures Distinct(Migrations(sql, sha256)) && Positive(Migrations(sql, sha256))
  {
    hide VersionPrefix;
    var items := Migrations(sql, sha256);
    forall i, j | 0 <= i < j < |items|
      ensures items[i].version != items[j].version
    {
      assert VersionPrefix(sql[i].name) != VersionPrefix(sql[j].name);
    }
  }

  /** `seen` holds the versions of the files so far. */
  ghost predicate Tracks(seen: map<int, Str>, sql: seq<File>) {
    forall v :: v in seen <==> exists k | 0 <= k < |sql| :: VersionPrefix(sql[k].name) == Some(v)
  }

  lemma TracksOneMore(seen: map<int, Str>, sql: seq<File>, f: File, v: int)
    requires Tracks(seen, sql) && VersionPrefix(f.name) == Some(v)
    ensures Tracks(seen[v := f.name], sql + [f])
    ensures v in seen <==> exists k | 0 <= k < |sql| :: VersionPrefix(sql[k].name) == VersionPrefix(f.name)
  {
    hide VersionPrefix;
    var more, longer := seen[v := f.name], sql + [f];
    assert forall k | 0 <= k < |sql| :: longer[k] == sql[k];
    forall u
      ensures u in more <==> exists k | 0 <= k < |longer| :: VersionPrefix(longer[k].name) == Some(u)
    {
      if u == v {
        assert VersionPrefix(longer[|sql|].name) == Some(u);
      } else if u in seen {
        var k :| 0 <= k < |sql| && VersionPrefix(sql[k].name) == Some(u);
        assert VersionPrefix(longer[k].name) == Some(u);
      }
    }
  }

  lemma NoFiles(sha256: Str -> Str)
    ensures SqlFiles([]) == [] && Readable([]) && Migrations([], sha256) == [] && Tracks(map[], [])
  {
  }

  // ---------- what a reading is ----------

  /** Decimal digits, with an optional sign before them. */
  ghost predicate WritesNumber(s: Str, v: int) {
    || (s != [] && AllDigits(s) && v == Value(s))
    || (|s| > 1 && s[0] == '+' && AllDigits(s[1..]) && v == Value(s[1..]))
    || (|s| > 1 && s[0] == '-' && AllDigits(s[1..]) && v == -(Value(s[1..]) as int))
  }

  /** What stands before the first underscore writes the version, a positive bigint. */
  ghost predicate NamesVersion(name: Str, v: int) {
    && 0 < v <= 9_223_372_036_854_775_807
    && exists n | 0 < n < |name| :: name[n] == '_' && '_' !in name[..n] && WritesNumber(name[..n], v)
  }

  ghost predicate SqlNamed(f: File) {
    !f.directory && exists stem: Str :: f.name == stem + ".sql"
  }

  /** The migration that a file holds; the checksum is that of its contents. */
  ghost predicate From(item: Migration, f: File, sha256: Str -> Str) {
    && SqlNamed(f) && NamesVersion(f.name, item.version)
    && item.name == f.name && item.contents == f.contents && item.checksum == sha256(f.contents)
  }

  ghost predicate FromAt(items: seq<Migration>, files: seq<File>, sha256: Str -> Str, i: nat, k: nat) {
    i < |items| && k < |files| && From(items[i], files[k], sha256)
  }

  ghost predicate FromSome(items: seq<Migration>, files: seq<File>, sha256: Str -> Str, i: nat) {
    exists k: nat :: FromAt(items, files, sha256, i, k)
  }

  ghost predicate Gives(items: seq<Migration>, files: seq<File>, sha256: Str -> Str, k: nat) {
    exists i: nat :: FromAt(items, files, sha256, i, k)
  }

  /** Every file named .sql gives one migration, there are no others, and their versions ascend. */
  ghost predicate Reading(items: seq<Migration>, files: seq<File>, sha256: Str -> Str) {
    && Ascending(items)
    && (forall i: nat | i < |items| :: FromSome(items, files, sha256, i))
    && (forall k: nat | k < |files| && SqlNamed(files[k]) :: Gives(items, files, sha256, k))
    && (forall i: nat, k: nat, l: nat | FromAt(items, files, sha256, i, k) && FromAt(items, files, sha256, i, l) ::
          k == l)
  }

  /** There is a file named .sql, and each of them names a version of its own and is not blank. */
  ghost predicate Migratable(files: seq<File>) {
    && (exists k | 0 <= k < |files| :: SqlNamed(files[k]))
    && (forall k | 0 <= k < |files| && SqlNamed(files[k]) ::
          (exists v :: NamesVersion(files[k].name, v)) && !Blank(files[k].contents))
    && (forall k, l, v | 0 <= k < l < |files| && SqlNamed(files[k]) && SqlNamed(files[l]) ::
          !(NamesVersion(files[k].name, v) && NamesVersion(files[l].name, v)))
  }

  lemma NumberIs(s: Str, v: int)
    ensures ParseInt(s) == Some(v) <==> WritesNumber(s, v) && -MAX_INT64 - 1 <= v <= MAX_INT64
  {
    hide Value;
    if s != [] && (s[0] == '+' || s[0] == '-') {
      assert !IsDigit(s[0]);
    }
  }

  /** A version is read from a name exactly when it is written there. */
  lemma VersionIs(name: Str, v: int)
    ensures VersionPrefix(name) == Some(v) && v > 0 <==> NamesVersion(name, v)
  {
    hide ParseInt, WritesNumber, IndexByte;
    var separator := IndexByte(name, '_');
    if separator >= 1 {
      NumberIs(name[..separator], v);
    }
    if n :| 0 < n < |name| && name[n] == '_' && '_' !in name[..n] && WritesNumber(name[..n], v) {
      IndexByteAfter(name[..n], '_', name[n + 1..]);
      assert name == name[..n] + ['_'] + name[n + 1..];
    }
  }

  lemma UsableIs(f: File)
    ensures Usable(f) <==> (exists v :: NamesVersion(f.name, v)) && !Blank(f.contents)
  {
    hide TrimSpace, NamesVersion, VersionPrefix, Blank;
    TrimmedAway(f.contents);
    if VersionPrefix(f.name).Some? {
      VersionIs(f.name, VersionPrefix(f.name).value);
    }
    if v :| NamesVersion(f.name, v) {
      VersionIs(f.name, v);
    }
  }

  lemma SqlIs(f: File)
    ensures IsSql(f) <==> SqlNamed(f)
  {
    if IsSql(f) {
      assert f.name == f.name[..|f.name| - 4] + ".sql";
    }
  }

  lemma {:induction false} VersionsApart(files: seq<File>, k: nat, l: nat)
    requires Readable(SqlFiles(files)) && k < l < |files| && IsSql(files[k]) && IsSql(files[l])
    ensures VersionPrefix(files[k].name) != VersionPrefix(files[l].name)
  {
    hide VersionPrefix, IsSql, SqlFiles, Usable;
    var before, all := SqlFiles(files[..l]), SqlFiles(files);
    SqlOneMore(files, l);
    SqlPrefix(files, l + 1);
    assert files[..l][k] == files[k];
    var j :| 0 <= j < |before| && before[j] == files[k];
    var n := |before|;
    assert all[j] == SqlFiles(files[..l + 1])[j] == files[k] && all[n] == SqlFiles(files[..l + 1])[n] == files[l];
  }

  lemma FilesAre(files: seq<File>)
    ensures forall k | 0 <= k < |files| ::
              && (IsSql(files[k]) <==> SqlNamed(files[k]))
              && (Usable(files[k]) <==> (exists v :: NamesVersion(files[k].name, v)) && !Blank(files[k].contents))
  {
    hide IsSql, SqlNamed, Usable, NamesVersion, Blank;
    forall k | 0 <= k < |files|
      ensures IsSql(files[k]) <==> SqlNamed(files[k])
      ensures Usable(files[k]) <==> (exists v :: NamesVersion(files[k].name, v)) && !Blank(files[k].contents)
    {
      SqlIs(files[k]);
      UsableIs(files[k]);
    }
  }

  lemma ReadableMigrates(files: seq<File>)
    requires SqlFiles(files) != [] && Readable(SqlFiles(files))
    ensures Migratable(files)
  {
    hide IsSql, SqlFiles, SqlNamed, Usable, NamesVersion, VersionPrefix, Blank;
    var sql := SqlFiles(files);
    FilesAre(files);
    assert sql[0] in files;
    forall k | 0 <= k < |files| && SqlNamed(files[k])
      ensures Usable(files[k])
    {
      assert files[k] in sql;
    }
    forall k, l, v | 0 <= k < l < |files| && SqlNamed(files[k]) && SqlNamed(files[l])
      ensures !(NamesVersion(files[k].name, v) && NamesVersion(files[l].name, v))
    {
      VersionsApart(files, k, l);
      VersionIs(files[k].name, v);
      VersionIs(files[l].name, v);
    }
  }

  lemma MigratableReads(files: seq<File>)
    requires Migratable(files)
    ensures SqlFiles(files) != [] && Readable(SqlFiles(files))
  {
    hide IsSql, SqlFiles, SqlNamed, Usable, NamesVersion, VersionPrefix, Blank, Readable;
    FilesAre(files);
    var k :| 0 <= k < |files| && SqlNamed(files[k]);
    assert files[k] in SqlFiles(files);
    forall k, l | 0 <= k < l < |files| && IsSql(files[k]) && IsSql(files[l])
      ensures Usable(files[k]) && Usable(files[l]) && VersionPrefix(files[k].name) != VersionPrefix(files[l].name)
    {
      var v :| NamesVersion(files[k].name, v);
      VersionIs(files[k].name, v);
      VersionIs(files[l].name, v);
    }
    ReadableOf(files);
  }

  /** Files apart in their versions stay apart among the migrations. */
  lemma {:induction false} ReadableOf(files: seq<File>)
    requires forall k | 0 <= k < |files| && IsSql(files[k]) :: Usable(files[k])
    requires forall k, l | 0 <= k < l < |files| && IsSql(files[k]) && IsSql(files[l]) ::
               VersionPrefix(files[k].name) != VersionPrefix(files[l].name)
    ensures Readable(SqlFiles(files))
  {
    hide IsSql, Usable, VersionPrefix;
    if files != [] {
      var init, f := files[..|files| - 1], files[|files| - 1];
      assert forall k | 0 <= k < |init| :: init[k] == files[k];
      ReadableOf(init);
      if IsSql(f) {
        var sql := SqlFiles(init);
        forall k | 0 <= k < |sql|
          ensures VersionPrefix(sql[k].name) != VersionPrefix(f.name)
        {
          assert sql[k] in init;
          var j :| 0 <= j < |init| && init[j] == sql[k];
        }
        ReadableOneMore(sql, f, s => s);
      }
    }
  }

  /** Sorted by version, the migrations of readable files are a reading of them. */
  lemma SortedReading(files: seq<File>, sha256: Str -> Str)
    requires Readable(SqlFiles(files))
    ensures Reading(ByVersion(Migrations(SqlFiles(files), sha256)), files, sha256)
  {
    hide IsSql, SqlFiles, Readable, From, MigrationOf, Migrations, ByVersion, Ascending, SqlNamed;
    var sql := SqlFiles(files);
    var all := Migrations(sql, sha256);
    var items := ByVersion(all);
    DistinctMigrations(sql, sha256);
    SortedAscends(all);
    FilesAre(files);
    forall i: nat | i < |items|
      ensures FromSome(items, files, sha256, i)
    {
      assert items[i] in multiset(all);
      var j :| 0 <= j < |all| && all[j] == items[i];
      assert sql[j] in files;
      var k: nat :| k < |files| && files[k] == sql[j];
      IsFrom(sql, j, sha256);
      assert FromAt(items, files, sha256, i, k);
    }
    forall k: nat | k < |files| && SqlNamed(files[k])
      ensures Gives(items, files, sha256, k)
    {
      assert files[k] in sql;
      var j :| 0 <= j < |sql| && sql[j] == files[k];
      IsFrom(sql, j, sha256);
      assert all[j] in multiset(items);
      var i: nat :| i < |items| && items[i] == all[j];
      assert FromAt(items, files, sha256, i, k);
    }
    forall i: nat, k: nat, l: nat | FromAt(items, files, sha256, i, k) && FromAt(items, files, sha256, i, l)
      ensures k == l
    {
      OneFile(files, items[i], k, l, sha256);
    }
  }

  lemma IsFrom(sql: seq<File>, j: nat, sha256: Str -> Str)
    requires Readable(sql) && j < |sql| && IsSql(sql[j])
    ensures From(Migrations(sql, sha256)[j], sql[j], sha256)
  {
    hide IsSql, SqlNamed, NamesVersion, VersionPrefix;
    SqlIs(sql[j]);
    VersionIs(sql[j].name, VersionPrefix(sql[j].name).value);
  }

  lemma OneFile(files: seq<File>, item: Migration, k: nat, l: nat, sha256: Str -> Str)
    requires Readable(SqlFiles(files)) && k < |files| && l < |files|
    requires From(item, files[k], sha256) && From(item, files[l], sha256)
    ensures k == l
  {
    hide IsSql, SqlNamed, NamesVersion, VersionPrefix, SqlFiles, Readable;
    SqlIs(files[k]);
    SqlIs(files[l]);
    VersionIs(files[k].name, item.version);
    VersionIs(files[l].name, item.version);
    if k < l {
      VersionsApart(files, k, l);
    } else if l < k {
      VersionsApart(files, l, k);
    }
  }

  /**
   Reading succeeds exactly on usable files of distinct versions, at least one, and then orders their
   migrations by version.
   */
  method ReadMigrations(files: seq<File>, sha256: Str -> Str) returns (r: Result<seq<Migration>, ReadError>)
    ensures r.Ok? <==> Migratable(files)
    ensures r.Ok? ==> Reading(r.value, files, sha256) && Ascending(r.value) && Positive(r.value) && r.value != []
    ensures r.Err? ==> Refuses(files, r.error)
  {
    hide Refuses, Readable, SqlFiles, IsSql, TrimSpace, ParseInt;
    hide IndexByte, ByVersion, Tracks, Ascending, Positive, Distinct, Reading, Migratable;
    if Migratable(files) {
      MigratableReads(files);
    }
    NoFiles(sha256);
    assert files[..0] == [];
    var result: seq<Migration> := [];
    var seen: map<int, Str> := map[];
    for i := 0 to |files|
      invariant Readable(SqlFiles(files[..i]))
      invariant result == Migrations(SqlFiles(files[..i]), sha256)
      invariant Tracks(seen, SqlFiles(files[..i]))
    {
      var entry := files[i];
      SqlOneMore(files, i);
      if !IsSql(entry) {
        continue;
      }
      RefusedAt(files, i);
      var separator := IndexByte(entry.name, '_');
      if separator < 1 {
        Spoils(files, i);
        return Err(NoVersionPrefix(entry.name));
      }
      var version := ParseInt(entry.name[..separator]);
      if version.None? || version.value <= 0 {
        Spoils(files, i);
        return Err(InvalidVersion(entry.name));
      }
      TracksOneMore(seen, SqlFiles(files[..i]), entry, version.value);
      if version.value in seen {
        SeenBefore(files, i);
        Spoils(files, i);
        return Err(DuplicateVersion(entry.name));
      }
      if TrimSpace(entry.contents) == [] {
        Spoils(files, i);
        return Err(EmptyFile(entry.name));
      }
      seen := seen[version.value := entry.name];
      result := result + [Migration(version.value, entry.name, entry.contents, sha256(entry.contents))];
      ReadableOneMore(SqlFiles(files[..i]), entry, sha256);
    }
    assert files[..|files|] == files;
    DistinctMigrations(SqlFiles(files), sha256);
    SortedAscends(result);
    SortedReading(files, sha256);
    SortedPositive(result);
    result := ByVersion(result);
    if |result| == 0 {
      NoneToRead(files);
      return Err(NoMigrations);
    }
    ReadableMigrates(files);
    return Ok(result);
  }

  lemma SortedPositive(items: seq<Migration>)
    requires Positive(items)
    ensures Positive(ByVersion(items)) && |ByVersion(items)| == |items|
  {
    var sorted := ByVersion(items);
    assert |multiset(sorted)| == |multiset(items)|;
    forall i | 0 <= i < |sorted|
      ensures sorted[i].version > 0
    {
      assert sorted[i] in multiset(items);
    }
  }
}
