/** What the checksums are for: a ledger verifies against the files it was recorded from, and against no edited ones. */
module MigrationFiles {
  import opened Text
  import opened MigrationSet
  import opened MigrationLedger

  /** The checksum tells the contents in one list from those in the other. */
  ghost predicate TellsApart(sha256: Str -> Str, a: seq<Migration>, b: seq<Migration>) {
    forall i, k | 0 <= i < |a| && 0 <= k < |b| && sha256(a[i].contents) == sha256(b[k].contents) ::
      a[i].contents == b[k].contents
  }

  ghost predicate Hashed(items: seq<Migration>, sha256: Str -> Str) {
    forall i | 0 <= i < |items| :: items[i].checksum == sha256(items[i].contents)
  }

  lemma ReadingHashed(items: seq<Migration>, files: seq<File>, sha256: Str -> Str)
    requires Reading(items, files, sha256)
    ensures Hashed(items, sha256) && Ascending(items)
  {
    hide SqlNamed, NamesVersion;
    forall i: nat | i < |items|
      ensures items[i].checksum == sha256(items[i].contents)
    {
      assert FromSome(items, files, sha256, i);
      var k: nat :| FromAt(items, files, sha256, i, k);
    }
  }

  /** With checksums that tell contents apart, only the same migrations are recorded alike. */
  lemma FrontIsPrefix(a: seq<Migration>, b: seq<Migration>, sha256: Str -> Str)
    requires Hashed(a, sha256) && Hashed(b, sha256) && TellsApart(sha256, a, b)
    ensures Front(a, b) <==> a <= b
  {
    if Front(a, b) {
      forall k | 0 <= k < |a|
        ensures a[k] == b[k]
      {
        assert Record(a[k]) == Record(b[k]);
      }
    }
  }

  lemma BeginningAscends(items: seq<Migration>, n: nat)
    requires n <= |items| && Ascending(items)
    ensures Ascending(items[..n])
  {
  }

  /**
   A ledger recorded from the first migrations of one reading verifies against another reading exactly
   when that begins with the same migrations: versions, names and contents.
   */
  lemma VerifiesUnedited(files: seq<File>, items: seq<Migration>, n: nat, files': seq<File>, items': seq<Migration>,
      sha256: Str -> Str)
    requires Reading(items, files, sha256) && Reading(items', files', sha256) && n <= |items|
    requires TellsApart(sha256, items[..n], items')
    ensures SetMatches(items', LedgerOf(items[..n]), true) <==> items[..n] <= items'
    ensures SetMatches(items', LedgerOf(items[..n]), false) <==> items[..n] == items'
  {
    hide Reading, SetMatches, LedgerOf, Front, TellsApart, Ascending;
    ReadingHashed(items, files, sha256);
    ReadingHashed(items', files', sha256);
    BeginningAscends(items, n);
    VerifiedFront(items[..n], items', true);
    VerifiedFront(items[..n], items', false);
    FrontIsPrefix(items[..n], items', sha256);
  }

  /** A file that has been edited after its migration was recorded is caught. */
  lemma EditIsCaught(files: seq<File>, items: seq<Migration>, n: nat, files': seq<File>, items': seq<Migration>,
      sha256: Str -> Str, i: nat, k: nat, allowPending: bool)
    requires Reading(items, files, sha256) && Reading(items', files', sha256)
    requires i < n <= |items| && TellsApart(sha256, items[..n], items')
    requires k < |files'| && SqlNamed(files'[k]) && files'[k].name == items[i].name
    requires files'[k].contents != items[i].contents
    ensures !SetMatches(items', LedgerOf(items[..n]), allowPending)
  {
    hide SetMatches, LedgerOf, TellsApart, NamesVersion, SqlNamed;
    VerifiesUnedited(files, items, n, files', items', sha256);
    if items[..n] <= items' {
      assert items'[i] == items[..n][i] == items[i];
      assert FromSome(items', files', sha256, i) && Gives(items', files', sha256, k);
      var l: nat :| FromAt(items', files', sha256, i, l);
      var j: nat :| FromAt(items', files', sha256, j, k);
      OneVersion(items[i].name, items'[i].version, items'[j].version);
    }
  }

  lemma OneVersion(name: Str, v: int, u: int)
    requires NamesVersion(name, v) && NamesVersion(name, u)
    ensures v == u
  {
    hide NamesVersion, VersionPrefix;
    VersionIs(name, v);
    VersionIs(name, u);
  }
}
