# Verification of the A2A server's stateful core

This project models, in Dafny, the parts of the A2A server that keep state or speak a grammar, and
proves what they promise over every input, every run and every interleaving. `dafny verify
dfyconfig.toml` checks all of it.

## What is modelled

**The task store.** `Tasks`, `Ordering`, `Listing` and `Operations` define the table, the order of a
listing, the answer to a List call and the effect of each call alone; `Calls` says when each call
succeeds, what it then does and how it fails otherwise. `Store` is the program itself, a class whose methods build the query conditions, run the statements and loop over the rows; each method
is proved against those definitions. `Transactions` lets any number of calls run at once as rows of
database steps and proves that every interleaving is equivalent to running the answered calls one at a
time; `Serial` proves the converse, that every such log can happen. `StoreSteps` runs the statements of a
call with others acting in between, and proves that the call is answered as if alone at some moment of
its execution, and exactly as if alone when nobody interferes. `Ownership` shows what an owner can learn
of the others. `History`, `Interleavings`, `Isolation`,
`Pagination`, `QuietListing` and `ListingRuns` prove what follows: version
numbers without gaps, conditional updates that succeed once, owners that cannot see each other, and
listings that give no task twice and miss none that stayed put. `FullListing` shows that such listings
exist and end; `ClockBack` and `MovedBack` show what the clock has to do with it.

**The migration ledger.** `MigrationSet` reads the embedded files and checks a ledger against them;
`MigrationFiles` shows that an edited file is caught.
`MigrationLedger` is a state machine of any number of Migrate and VerifySchema processes over one
database, each with its own embedded list, any of them free to fail, lose its connection or crash at any
statement; a statement that its client has given up on may still take effect later. `MigrationRuns`
proves the guarantees over every run, and `MigrationAlone` that an undisturbed process ends, in only one
way, and when it succeeds. `Migrator` is the program, statement by statement, against a
server on which others act in between, and it is proved that each of its executions is a run of the
state machine and ends where the state machine says.

**The executor.** `Executor` is the loop that turns dispatcher outputs into events for a consumer that
may stop at any of them. `ExecutorStream` gives the grammar of the stream and proves that artifacts
arrive whole, and says what every event of the stream is.

**Encodings.** `Cursor` is the page token, over `Timestamp`, `Calendar` and `Base64`; `Auth` is the
owner key and the bearer credential; `Protocol` is the normalization of list parameters and the version
check. `WhiteSpace` says what trimming does, by Unicode's white space. `Text` and `Errors` hold what they
share.

## Conventions

- A Go string is a sequence of octets. Times are integers: nanoseconds in a task and in a token,
  microseconds in a column, as `timestamptz` keeps them. PostgreSQL's text order on task ids is any
  strict total order.
- From PostgreSQL the model takes exclusive row locks, atomic commits, unique keys that make a second
  insert wait, reads of committed rows, a fixed snapshot for a read-only transaction, and advisory locks
  that end with their session. The clock, the outcome of each statement, the interleaving, made-up
  artifact ids, the order of a map iteration, the checksum function and the effect of a migration's
  contents on the schema are parameters, and the theorems hold for all of them. Only the exact contents
  behind a ledger need something of checksums: that those of one run's migrations do not collide.
- A task that nobody writes is listed exactly once whatever the database clock does. A task that is
  written is not listed twice unless one of those updates reads a clock behind the task's last write;
  `ClockBack.ListedTwiceInARun` is a run with such an update, and `MovedBack.TwiceExactly` says exactly
  when one can have that effect.
- Three rules hold up to a condition, which is proved exact. A page token decodes exactly when its id is
  not empty and its year has four digits. The status time filter is exact to the nanosecond exactly when
  the request names no time or one of whole microseconds; to the microsecond it always is. A client's
  artifacts are never replaced exactly when the made-up artifact id is not also an explicit one; when it
  is, parts are always lost.
- The log of `Transactions` holds the calls as the database carried them out, whether or not the answer
  reached the client. In `StoreSteps` a client whose commit is not acknowledged gets an error.
- The comment at `internal/storage/postgres/store.go:24-25` says that access is scoped by tenant and
  subject. The statements scope it by issuer as well, and the model follows the statements.
- The database refuses an update of a row whose version is the largest `bigint`; the model gives that
  error.

## Main results

- Listing: `ListingRuns.NoTaskTwiceInAnyRun`, `ListingRuns.ExactlyOnceInAnyRun`,
  `MovedBack.TwiceExactly`, `QuietListing.PagesConcatenate`, `QuietListing.PageCount`,
  `FullListing.ListingCompletes`, `Calls.ListExactly`, `Operations.ListAgreesExactly`.
- Store: `Transactions.Linearizable`, `Serial.HappensExactly`, `StoreSteps.Server.Update`,
  `Calls.UpdateExactly`, `Interleavings.UpdatesInAnyRun`, `Interleavings.VersionsInAnyRun`,
  `Interleavings.ConditionalOnceInAnyRun`.
- Owners: `Interleavings.StrippedRunUnnoticed`, `Interleavings.StoryHappensAlone`,
  `Ownership.OwnCallsAgree`, `Ownership.CreateTells`, `Calls.GetExactly`.
- Migrations: `MigrationRuns.LedgerIsVerifiedPrefix`, `MigrationRuns.SchemaIsFoldOfPrefix`,
  `MigrationRuns.ExecutedOnce`, `MigrationRuns.NeverRecordsTwice`, `MigrationRuns.DisposedOnce`,
  `MigrationRuns.SuccessLasts`, `MigrationRuns.SecondRunExecutesNothing`, `MigrationRuns.VerifyIsSilent`,
  `MigrationRuns.StepCommits`, `MigrationAlone.AloneSucceedsExactly`, `MigrationAlone.MigrateEnds`,
  `MigrationAlone.VerifiesUntilAppended`, `MigrationSet.VerifyMigrationSet`,
  `MigrationSet.ReadMigrations`, `MigrationFiles.VerifiesUnedited`, `Migrator.Server.Migrate`.
- Executor: `Executor.Execute`, `ExecutorStream.StreamIs`, `ExecutorStream.Grammar`,
  `ExecutorStream.ArtifactsArriveWhole`, `ExecutorStream.ArtifactsArriveInOrder`,
  `ExecutorStream.ClearMeansNeverReplaced`, `ExecutorStream.SharedIdLosesParts`.
- Encodings: `Cursor.DecodeEncode`, `Cursor.EncodeInjective`, `Cursor.DecodeExactly`,
  `Timestamp.ParseExactly`, `Auth.OwnerKeyInjective`, `Auth.BearerToken`, `Protocol.ItemsExactly`,
  `Protocol.ItemsJoined`, `Protocol.Request.CheckProtocolVersion`, `WhiteSpace.TrimSpaceIs`.

The table has the rest as well: what these build on, and the program's own methods.

## Model

| member | source | states |
|---|---|---|
| ListingRuns.NoTaskTwiceInAnyRun | internal/storage/postgres/store.go:202-263 | Over every interleaving of any clients' calls, a client that follows NextPageToken with one filter gets a task twice only if an update of that task, between its first and its last page, reads a clock behind the task's last write |
| ListingRuns.MovesBackMeans | internal/storage/postgres/store.go:108-117 | In a legal history a call that moves a task back in time is an Update whose clock reading is behind that task's last write |
| ListingRuns.ExactlyOnceInAnyRun | internal/storage/postgres/store.go:202-263 | In every run, whatever the clock does, a matching task present at the start and not written until the token runs out is returned exactly once |
| ListingRuns.ListingFollows | internal/storage/postgres/store.go:198-263 | The pages that a client gets at scattered places of a concurrent history are a listing that follows its tokens |
| Pagination.NoTaskTwice | internal/storage/postgres/store.go:212-263 | Whatever else happens to the table between two pages, an id whose own row does not go back in time occurs at most once in all pages together |
| Pagination.ExactlyOnce | internal/storage/postgres/store.go:212-263 | A candidate whose row stays as it is through a complete listing occurs exactly once, whatever else happens to the table |
| Pagination.AgainMeansMovedBack | internal/storage/postgres/store.go:212-263 | A task that comes again on a later page has been moved back in time in between, with no condition on the tables |
| Pagination.EndKeysDescend | internal/storage/postgres/store.go:215-221 | The last keys of successive pages strictly descend, whatever happens to the table |
| Pagination.CursorIsEndKey | internal/storage/postgres/store.go:260-263 | The cursor decoded for a page is the key of the last task of the page before it |
| Pagination.OnPage | internal/storage/postgres/store.go:212-256 | A page holds exactly the candidates past its cursor, down to its last key unless it is the last page |
| ClockBack.ListedTwiceInARun | internal/storage/postgres/store.go:108-117 | There is a run whose calls are exactly two Creates, a List, an Update that reads a clock set back, and the List of the next page, in which the client gets the updated task twice |
| MovedBack.TwiceExactly | internal/storage/postgres/store.go:202-263 | For any two tables with printable times, some listing that sees first the one and then the other gives a task of both twice exactly when its time is earlier in the second and a row came after it in the first |
| MovedBack.TwiceAfterUpdate | internal/storage/postgres/store.go:108-117 | So an update can make its task come twice exactly when it reads a clock behind the task's last write and the task was not the last of the listing |
| QuietListing.PagesConcatenate | internal/storage/postgres/store.go:202-263 | On a table nobody writes, all pages together are the owner's matching ids, newest first, whatever the page sizes; every TotalSize is their number |
| QuietListing.PageCount | internal/storage/postgres/store.go:178-263 | With one page size p a complete listing of n rows takes max(1, ceil(n/p)) pages |
| FullListing.ListingCompletes | internal/storage/postgres/store.go:178-263 | Every table has, for every page size, a listing that follows the tokens to their end and gives all of the owner's matching rows, provided these have printable times |
| Ordering.SortedUnique | internal/storage/postgres/store.go:221 | The query order is determined: only one sequence of the ids is sorted |
| Ordering.BelowIsSuffix | internal/storage/postgres/store.go:215-222 | Continuing behind the m-th row leaves exactly the rows after it, in the same order |
| Listing.FilterAgreesWithTasks | internal/storage/postgres/store.go:296-313 | On consistent rows the column filter selects exactly the tasks that the filter wants, times compared in microseconds |
| Listing.FilterRoundsDown | internal/storage/postgres/store.go:308-311 | In nanoseconds it lets through exactly those tasks more whose status time is earlier within the same microsecond |
| Listing.FilterExactly | internal/storage/postgres/store.go:308-311 | The filter is exact to the nanosecond for every task exactly when the request names no status time or one of whole microseconds |
| Listing.ShapeIs | internal/storage/postgres/store.go:315-328 | A listed task keeps its newest messages up to the limit, artifacts only on request, and everything else |
| Listing.TokenKeyRoundTrip | internal/storage/postgres/store.go:185-192 | A row's key survives the token exactly when its year is printable |
| Operations.ListAgreesWithGet | internal/storage/postgres/store.go:134-166 | List's filter selects exactly the ids whose task Get returns to the same owner and the filter wants |
| Operations.ListAgreesExactly | internal/storage/postgres/store.go:296-313 | To the nanosecond List's filter selects what Get and the same filter would, on every consistent table, exactly under that condition on the request |
| Calls.VerifiedExactly | internal/storage/postgres/store.go:272-278 | A caller is identified exactly when issuer, tenant and subject each hold more than white space, and then it is these three that own its tasks; otherwise the error is Unauthenticated |
| Calls.CreateExactly | internal/storage/postgres/store.go:41-73 | Create stores the task as the caller's at version 1 exactly when task and id are given, the caller is identified and nobody has that id; which of three errors else, and nothing changed |
| Calls.UpdateExactly | internal/storage/postgres/store.go:76-131 | Update returns version v+1 and stores the task exactly when the caller has it at version v, PrevVersion is 0 or v, and v is below the largest bigint; task not found exactly when the caller has no such task, a conflict exactly when PrevVersion is neither |
| Calls.GetExactly | internal/storage/postgres/store.go:134-166 | Get returns the caller's task with its version and owner key, and task not found exactly when the id is empty or the identified caller has no such task, whether or not somebody else has |
| Calls.ListExactly | internal/storage/postgres/store.go:170-263 | On consistent rows List answers with the first tasks that are left behind the token, newest first and shaped, 50 of them by default and never over 100, the number of all that match, and the token of the last one if more are left; the errors are exact |
| Operations.GetReturnsWritten | internal/storage/postgres/store.go:145-165 | After a successful Create or Update its owner gets that task with that version and its own owner key, and no other identity gets it |
| Operations.FailureChangesNothing | internal/storage/postgres/store.go:90-130 | A call that returns no version leaves the table as it was |
| Operations.ApplyKeepsConsistent | internal/storage/postgres/store.go:54-65 | The columns stay the projection of the stored task, times cut to microseconds |
| Operations.ApplyEvolves | internal/storage/postgres/store.go:107-121 | Rows never vanish or change owner, change only under a higher version, and under a clock that does not move back never lie further back in time |
| History.WriteCounts | internal/storage/postgres/store.go:107-121 | A successful write moves the version of its task on by one, from none to 1, and touches no other row |
| History.WrittenComesFirst | internal/storage/postgres/store.go:218-222 | A task written later than its owner's other matching tasks heads the next listing |
| History.VersionsGapFree | internal/storage/postgres/store.go:90-130 | The versions returned for a task are 1, 2, 3, ... in commit order, and the last is the stored one |
| History.CreatedOnce | internal/storage/postgres/store.go:54-72 | Version 1 comes from Create and every later version from Update |
| History.ConditionalReplaces | internal/storage/postgres/store.go:103-121 | A successful conditional update replaces exactly the committed state that carries its PrevVersion |
| History.ConditionalOnce | internal/storage/postgres/store.go:103-105 | At most one conditional update per task and PrevVersion succeeds |
| Transactions.Linearizable | internal/storage/postgres/store.go:90-130 | Every interleaving of steps gives the answers and the rows of running the answered calls one at a time in commit order |
| Transactions.LocksExclude | internal/storage/postgres/store.go:92-96 | At any moment a task has at most one open transaction |
| Transactions.CommitKeepsInv | internal/storage/postgres/store.go:107-126 | A row prepared under the lock is at commit still what the call run alone would write |
| Serial.HappensExactly | internal/storage/postgres/store.go:41-131 | The logs of interleavings are exactly the logs of calls answered one at a time in which refused writes read no clock |
| Serial.LegalLogRuns | internal/storage/postgres/store.go:41-131 | Every such log is that of a run in which no two calls overlap |
| Interleavings.VersionsInAnyRun | internal/storage/postgres/store.go:90-130 | Over every interleaving the versions returned for a task are 1, 2, 3, ... in commit order, and the last is the committed one |
| Interleavings.ConditionalOnceInAnyRun | internal/storage/postgres/store.go:103-105 | Over every interleaving at most one conditional update per task and PrevVersion succeeds |
| Interleavings.ConditionalReplacesInAnyRun | internal/storage/postgres/store.go:103-121 | It replaces exactly the committed state that carries its PrevVersion |
| Interleavings.UpdatesInAnyRun | internal/storage/postgres/store.go:92-130 | Over every interleaving a logged Update failed with a conflict exactly when the caller's task was committed at a version other than PrevVersion and PrevVersion is not 0, with task not found exactly when the caller had no such task, and else went through |
| Interleavings.ListAgreesInAnyRun | internal/storage/postgres/store.go:296-313 | After every interleaving the columns agree with the stored tasks, and List's filter selects exactly the ids whose task Get returns to the same owner and the filter wants, to the microsecond, and to the nanosecond when the request names no finer time |
| Interleavings.NonInterferenceInAnyRun | internal/storage/postgres/store.go:92-117 | The answers of an interleaving to everyone else are those of running the calls alone without one owner's reads and updates |
| Interleavings.StrippedRunUnnoticed | internal/storage/postgres/store.go:92-117 | Deleting every step of one owner's reads and updates from an interleaving leaves an interleaving, each step still possible, in which everyone else makes the same calls and gets the same answers |
| Interleavings.StoryHappensAlone | internal/storage/postgres/store.go:90-153 | In every interleaving, the calls and answers of one owner, but for Creates of ids that others have, are those of some run with nobody else in it, and so are its rows |
| StoreSteps.Server.Create | internal/storage/postgres/store.go:41-73 | Amid any acts of others, an answer other than a database error is the one the call run alone would get at some moment between its start and its return; a success has committed that one write, a refusal none, a database error at most it; with nobody interfering and no failure it does exactly what the call run alone does |
| StoreSteps.Server.Update | internal/storage/postgres/store.go:76-131 | The same for lock, read, compare, rewrite and commit as separate statements, any of which may fail, and a commit whose acknowledgement may be lost |
| StoreSteps.Server.ReadCall | internal/storage/postgres/store.go:198-206 | The same for Get and List, which read one snapshot |
| Isolation.NonInterference | internal/storage/postgres/store.go:92-117 | Deleting every Get, List and Update of one owner from a history changes no answer to anyone else |
| Isolation.OthersUnaffected | internal/storage/postgres/store.go:145-149 | A call cannot tell apart two tables that differ only inside another owner's rows |
| Isolation.OwnUnnoticed | internal/storage/postgres/store.go:108-117 | An owner's calls change nothing but its own rows and the set of ids it creates |
| Ownership.OwnCallsAgree | internal/storage/postgres/store.go:92-166 | On any two tables that agree on one owner's rows, that owner's Get, List and Update answer the same and leave its rows the same |
| Ownership.CreateTells | internal/storage/postgres/store.go:54-69 | Its Create answers differently exactly when the id is somebody else's in one of the tables only |
| Ownership.OthersKeepOwn | internal/storage/postgres/store.go:92-117 | Nobody else's call changes the owner's rows |
| Ownership.StoryIsLegal | internal/storage/postgres/store.go:90-153 | The owner's own calls, but for Creates of ids that others have, are by themselves a history with the answers they got |
| Store.ListFilter | internal/storage/postgres/store.go:296-313 | The conditions built refer only to given arguments and hold of exactly the rows asked for |
| Store.ShapeListedTask | internal/storage/postgres/store.go:315-328 | Edits the task into its listed shape |
| Store.TaskStore.UpdateReturning | internal/storage/postgres/store.go:108-121 | Rewrites the owner's row, projecting the columns and counting the version |
| Store.TaskStore.Query | internal/storage/postgres/store.go:216-223 | The first rows of the selection in query order, at most the limit |
| Store.TaskStore.Create | internal/storage/postgres/store.go:41-73 | Answers and changes the table as the call run alone |
| Store.TaskStore.Update | internal/storage/postgres/store.go:76-131 | Answers and changes the table as the call run alone |
| Store.TaskStore.Get | internal/storage/postgres/store.go:134-166 | The owner's task with its version and owner key, or the error |
| Store.TaskStore.List | internal/storage/postgres/store.go:170-270 | The page that the request is due, or its error |
| Store.TaskStore.ReadPage | internal/storage/postgres/store.go:198-265 | Two queries, one row more than the page and a cut make the page, its total and its token |
| Cursor.DecodeEncode | internal/storage/postgres/cursor.go:12-31 | A token gives back its instant and id exactly when the id is not empty and the year has four digits, and is refused otherwise |
| Cursor.EncodeInjective | internal/storage/postgres/cursor.go:12-15 | No other cursor shares the token of a printable one |
| Cursor.TokenNotEmpty | internal/storage/postgres/cursor.go:12-15 | A token is never the empty one that asks for the first page |
| Cursor.DecodeExactly | internal/storage/postgres/cursor.go:17-31 | Any token at all is accepted exactly when it is the base64 of a timestamp, an underscore and an id that is not empty |
| Timestamp.ParseFormat | internal/storage/postgres/cursor.go:13-26 | The timestamp printed for a UTC time of the years 0000 to 9999, its fraction trimmed, parses to the same nanosecond |
| Timestamp.ParseRejectsOtherYears | internal/storage/postgres/cursor.go:26-29 | The timestamp printed for any other year does not parse |
| Timestamp.FormatHasNoUnderscore | internal/storage/postgres/cursor.go:22 | The first underscore ends the timestamp, whatever the id holds |
| Timestamp.ParseExactly | internal/storage/postgres/cursor.go:26 | Text is read as an instant exactly when it is written in one of the ways there are, with valid fields |
| Timestamp.FormatWrites | internal/storage/postgres/cursor.go:13 | What is printed is in UTC, with two digits for the hour and no needless fraction |
| Base64.RoundTrip | internal/storage/postgres/cursor.go:14-18 | Padded base64url decodes to what was encoded |
| Base64.ReadBack | internal/storage/postgres/cursor.go:18 | Whatever is read is, but for line breaks and leftover bits, what is written for the octets read |
| Base64.AlphabetIs | internal/storage/postgres/cursor.go:14 | The letters are those of the URL and filename safe alphabet |
| Auth.OwnerKeyInjective | internal/auth/auth.go:131-133 | Two identities share a key exactly when issuer, tenant and subject agree, over all byte strings |
| Auth.FieldEndsByItself | internal/auth/auth.go:132 | A length-prefixed field is read back uniquely in front of any text |
| Auth.ValidBearerCredential | internal/auth/auth.go:212-245 | The two-flag scan accepts exactly one or more token characters followed by padding |
| Auth.BearerToken | internal/auth/auth.go:187-207 | Succeeds exactly on one field of at most 16384 bytes of the form Bearer, spaces, token, and returns that token |
| Auth.BearerUnique | internal/auth/auth.go:201-206 | A field carries at most one token |
| Auth.SchemeIgnoresCase | internal/auth/auth.go:195-196 | Each letter of the scheme Bearer may be a capital or a small one |
| Protocol.SplitParameterValues | internal/server/protocol.go:61-71 | The nested loops compute the items of the field lines |
| Protocol.ItemsExactly | internal/server/protocol.go:61-71 | The items of a line are the members written in it, between commas and with any white space around them, in order and without the empty ones |
| WhiteSpace.TrimSpaceIs | internal/server/protocol.go:65 | Trimming takes all white space of Unicode from both ends and leaves everything in between |
| WhiteSpace.TrimmedAway | internal/storage/postgres/store.go:274 | Nothing is left exactly of text that is all white space |
| Protocol.ItemsIdempotent | internal/server/protocol.go:61-71 | Splitting again changes nothing |
| Protocol.ItemsFixed | internal/server/protocol.go:61-71 | Splitting leaves a list alone exactly when all of its members are items |
| Protocol.ItemsConcat | internal/server/protocol.go:53-56 | Splitting distributes over concatenation |
| Protocol.ItemsJoined | internal/server/protocol.go:61-71 | Joining the lines with commas changes nothing |
| Protocol.Request.NormalizeVersionParameter | internal/server/protocol.go:40-51 | The header becomes the items of header and query, two equal ones collapsed |
| Protocol.Request.NormalizeListParameter | internal/server/protocol.go:53-59 | The header becomes the items of header and query |
| Protocol.CanonicalIgnoresCase | internal/server/protocol.go:47-58 | Header operations treat names that differ in the case of letters alike |
| Protocol.CanonicalIs | internal/server/protocol.go:45-48 | The canonical form of a field name differs from it only in the case of letters, with capitals exactly at the start and after hyphens |
| Protocol.Request.CheckProtocolVersion | internal/server/protocol.go:31-38 | A request passes exactly when its version items are 1.0 once or twice; extensions are listed and other headers untouched |
| Protocol.VersionAcceptedExactly | internal/server/protocol.go:19-29 | The interceptor accepts the normalized header exactly in those two cases |
| MigrationRuns.LedgerIsVerifiedPrefix | internal/storage/postgres/migrations.go:53-103 | In every reachable state the ledger is an ascending, verified prefix of the list of the process that appended last, and the schema is the fold of what was executed |
| MigrationRuns.StepCommits | internal/storage/postgres/migrations.go:249-266 | In every run each step commits nothing, or one migration of its process: its contents run on the committed schema, and its name and checksum are recorded under a version that was not there |
| MigrationRuns.CommitMayLandLate | internal/storage/postgres/migrations.go:250-265 | A commit that its process gave up on or did not live to see may still take effect |
| MigrationRuns.SchemaIsFoldOfPrefix | internal/storage/postgres/migrations.go:249-266 | Unless two embedded migrations of the run with one version and name collide in their checksums, the schema is the fold of exactly that prefix |
| MigrationRuns.LedgerIsForwardOnly | internal/storage/postgres/migrations.go:94-101 | The ledger only grows at its end, by higher versions, and what it records stays |
| MigrationRuns.ExecutedOnce | internal/storage/postgres/migrations.go:66-101 | Over all runs of all processes no version is committed twice |
| MigrationRuns.NeverRecordsTwice | internal/storage/postgres/migrations.go:86-101 | Deciding by a ledger loaded before the loop is safe: the migration in hand is the next one and not recorded |
| MigrationRuns.OneAtATime | internal/storage/postgres/migrations.go:66-74 | Only one process is past the lock with a live connection, wherever it is, and it holds the lock |
| MigrationRuns.DisposedOnce | internal/storage/postgres/migrations.go:268-289 | On every way out a connection acquired is disposed of exactly once, and one returned to the pool does not hold the lock |
| MigrationRuns.VerifyIsSilent | internal/storage/postgres/migrations.go:107-142 | Over every run, no step of a VerifySchema, and nothing it leaves to its session, changes the ledger or the schema |
| MigrationRuns.SuccessIsVerified | internal/storage/postgres/migrations.go:86-102 | Migrate and VerifySchema return nil only in a state that verifies with nothing pending |
| MigrationRuns.SuccessLasts | internal/storage/postgres/migrations.go:137-141 | Afterwards the same set verifies with nothing pending exactly until another migration is appended |
| MigrationRuns.SecondRunExecutesNothing | internal/storage/postgres/migrations.go:94-101 | After a success, a later process with the same set never executes a migration |
| MigrationAlone.AloneSucceedsExactly | internal/storage/postgres/migrations.go:53-103 | From any reachable state with the lock free, every Migrate that ends after all of its statements were answered with nobody else acting returns nil exactly when what was executed before is the front of its list, and has then executed exactly the rest; otherwise it has executed nothing |
| MigrationAlone.MigrateEnds | internal/storage/postgres/migrations.go:53-103 | Such a run to the end exists, and every undisturbed run of that Migrate is a beginning of it |
| MigrationAlone.AloneVerifiesExactly | internal/storage/postgres/migrations.go:107-142 | Every VerifySchema that ends in that way returns nil exactly when there is a ledger of its whole list and nothing else, and changes nothing |
| MigrationAlone.VerifySchemaEnds | internal/storage/postgres/migrations.go:107-142 | Such a run to the end exists, and every undisturbed run of that VerifySchema is a beginning of it |
| MigrationAlone.OnlyWayAlone | internal/storage/postgres/migrations.go:53-142 | Two undisturbed runs of one process from one state that both end are the same run with the same outcome |
| MigrationAlone.VerifiesUntilAppended | internal/storage/postgres/migrations.go:137-141 | After a nil, every undisturbed VerifySchema with the same list that ends returns nil exactly as long as no further migration has been appended |
| MigrationLedger.StepKeepsInv | internal/storage/postgres/migrations.go:62-103 | Every step of every process, failures, late effects and crashes included, keeps the invariant behind these |
| MigrationLedger.Committing | internal/storage/postgres/migrations.go:249-266 | A commit keeps ledger, log and schema in step, and the loaded ledger right for the migrations after it |
| MigrationLedger.Bystander | internal/storage/postgres/migrations.go:66-74 | A step of one process leaves what is known of another as it was |
| MigrationLedger.LateCommitSteps | internal/storage/postgres/migrations.go:250-265 | A commit that lands after its process gave up still fits the ledger |
| MigrationLedger.VerifiedFront | internal/storage/postgres/migrations.go:214-247 | A ledger of executed migrations verifies exactly when they are the front of the embedded list, or all of it |
| MigrationSet.VerifyMigrationSet | internal/storage/postgres/migrations.go:214-247 | For distinct positive versions in any order and any map order, nil exactly when nothing recorded is unknown, renamed or altered, nothing is missing below a recorded version, and nothing is pending unless allowed; an error says what is so |
| MigrationSet.MatchesPrefix | internal/storage/postgres/migrations.go:214-247 | With pending allowed, an ascending list verifies exactly a ledger that records a prefix of it |
| MigrationSet.MatchesWhole | internal/storage/postgres/migrations.go:214-247 | Without, exactly a ledger that records the whole list |
| MigrationSet.ReadMigrations | internal/storage/postgres/migrations.go:144-186 | Succeeds exactly when there is a file named .sql and each of these names a positive bigint of its own before its first underscore and is not blank; each of them then gives exactly one migration, with its name, its contents and their checksum, by ascending version; an error names an offending file |
| MigrationSet.VersionIs | internal/storage/postgres/migrations.go:155-162 | The version is the decimal number before the first underscore, an optional sign included |
| MigrationFiles.VerifiesUnedited | internal/storage/postgres/migrations.go:214-247 | With checksums that tell contents apart, a ledger recorded from one reading verifies against another exactly when that begins with the same versions, names and contents |
| MigrationFiles.EditIsCaught | internal/storage/postgres/migrations.go:228-229 | A file edited after its migration was recorded never verifies |
| Migrator.Server.Migrate | internal/storage/postgres/migrations.go:53-103 | Amid any acts of others and any failures the process ends with its connection disposed of once; nil means that at its return the ledger records its whole list and nothing else, and that it executed exactly what a ledger that verified did not record; with nobody interfering and no failure it is nil exactly when what was executed is the front of its list |
| Migrator.Server.VerifySchema | internal/storage/postgres/migrations.go:107-142 | The same end for verification, nil meaning that at its return nothing is pending and nothing unknown is recorded; none of its statements changes the ledger or the schema; with nobody interfering and no failure it is nil exactly when a ledger records its whole list and nothing else |
| Migrator.Server.ApplyPending | internal/storage/postgres/migrations.go:94-102 | The loop executes the migrations that the loaded ledger does not record, in list order, all of them on success and those before the failing one otherwise; on success the whole list is recorded |
| Migrator.Server.ApplyMigration | internal/storage/postgres/migrations.go:249-266 | On success exactly this migration has been committed, with its record in the ledger; otherwise this call has committed nothing |
| Migrator.Server.LoadAndVerify | internal/storage/postgres/migrations.go:86-92 | Succeeds only with a ledger that verifies, and executes nothing |
| Migrator.Server.ReleaseMigrationLock | internal/storage/postgres/migrations.go:268-282 | A live session holds the lock when this is called; the connection is disposed of once, returned only without the lock, and on success returned over a ledger that verifies with nothing pending |
| Executor.Execute | internal/orchestrator/executor.go:59-112 | The consumer sees the whole stream or exactly the part up to where it stopped, and is never called again after that |
| Executor.SeenOnce | internal/orchestrator/executor.go:59-112 | What a consumer sees of a stream is determined |
| Executor.StreamSoFar | internal/orchestrator/executor.go:82-110 | What has been yielded while the dispatcher goes on is a proper beginning of the whole stream |
| Executor.Cancel | internal/orchestrator/executor.go:114-129 | Exactly one event or one error |
| ExecutorStream.Grammar | internal/orchestrator/executor.go:59-112 | Whatever is seen follows the grammar Submitted unless stored, Working, artifacts, one end; the end is seen exactly when all is |
| ExecutorStream.EndsAsDispatched | internal/orchestrator/executor.go:84-110 | The stream ends in Failed exactly when the dispatcher failed, else in Completed |
| ExecutorStream.EventsMirrorChunks | internal/orchestrator/executor.go:89-107 | One artifact event per output with parts, in order, with its parts, mark and id, appending exactly when its key was seen before |
| ExecutorStream.StreamIs | internal/orchestrator/executor.go:59-112 | Every event of the stream: Submitted unless stored, Working, for each output with parts an artifact event with its parts and mark, appending if its key came before, under its own id or the one made up for the first output without, and Failed or Completed |
| ExecutorStream.ReassemblyIsWhole | internal/orchestrator/executor.go:82-108 | Folding the artifact events gives, for every key, all of its parts in order, for any interleaving of keys, and nothing else |
| ExecutorStream.ArtifactsArriveWhole | internal/orchestrator/executor.go:82-108 | The same for the whole stream, up to the dispatcher's end or first error |
| ExecutorStream.ArtifactsArriveInOrder | internal/orchestrator/executor.go:82-108 | A consumer that stops anywhere holds exactly the artifacts of the first so many outputs, each with a prefix of the parts of its key |
| ExecutorStream.ClearMeansOwnIds | internal/orchestrator/executor.go:94-99 | Keys have ids of their own exactly when the made-up id is not another artifact's |
| ExecutorStream.ClearMeansNeverReplaced | internal/orchestrator/executor.go:89-104 | In every stream, an event that carries a used id always appends exactly when the made-up id is not another artifact's |
| ExecutorStream.SharedIdLosesParts | internal/orchestrator/executor.go:94-99 | In every stream where it is another artifact's, parts are lost: that id ends up with fewer parts than were produced for the two keys that share it |

## Left out

- HTTP serving, routing, SSE, SDK handlers, the error boundary and request body limits: glue over libraries.
- OIDC discovery, keys, signatures, claims and dialing in `internal/auth/oidc.go`, and tenant handling in `internal/auth/auth.go`: cryptography, network and single-branch checks.
- Configuration, pool setup, agent card loading, logging and the loopback dispatcher: straight-line code that would add only easy members.
- JSON encoding: a stored task is taken to decode to the task that was encoded. Failures of it, and text that PostgreSQL refuses, such as NUL, are not modelled.
- SQL text and query planning: a query is modelled by its list of conditions, arguments, order and limit.
- Store.TaskStore.Create: database errors other than a taken id are not modelled in this class, where one call runs at a time; StoreSteps has them.
- Store.TaskStore.Update: the same, and a commit whose acknowledgement is lost; StoreSteps has both.
- StoreSteps.Server.Update: waiting for a row lock ends by getting it or by giving up; an unbounded wait is not modelled.
- Store.TaskStore.List: the check of the count against the platform's integer, and the difference between nil and empty slices of the response, are not modelled.
- Store.ShapeListedTask: edits a value, so aliasing of the decoded task is not captured.
- Protocol.Request.NormalizeListParameter: query strings are taken as already parsed, and so is the SDK's reading of the version parameter from the header.
- MigrationSet.ReadMigrations: the embedded directory is a list of files, failures to read it are left out, and sort.Slice is an insertion sort, the result being the same for distinct versions.
- Migrator.Server.Migrate: waiting for the lock ends by getting it or by giving up; an unbounded wait is not modelled. The nil pool check is left out.
- MigrationLedger.StepKeepsInv: a migration's contents are taken to run inside their transaction, so contents that end it themselves are not covered; progress is shown for an undisturbed process only.
- Executor.Execute: the dispatcher yields finitely many outputs that do not depend on the consumer; the request passed to it, with tenant, extensions and related tasks, is not modelled. That a new artifact event replaces and an update event appends is the SDK's meaning of them; the SDK is not part of this model.
- CurrentSchemaVersion: the last version of a list that MigrationSet.ReadMigrations proves ascending.
- Infinite timestamps of PostgreSQL and times that a column cannot hold.
