# DuckDB attached databases, ICU helpers and the prepared-statement lifecycle in Dafny

This project models three parts of the DuckDB embedded analytical database and
proves properties of each.

- **Attached databases** (`attached_database.dfy`). An attached database
  owns a storage manager, a catalog and a transaction manager under one
  database name. The model covers:
  - the attach-time name rule: `"memory"` for an empty path or `:memory:`,
    otherwise the base name of the path;
  - the initialisation order: the catalog first, then the storage;
  - the teardown decision: run one forced checkpoint only when no exception
    is unwinding, the storage is file-backed and checkpoint-on-shutdown is
    enabled, and swallow a failing checkpoint.

  The subsystems are small classes that record every call in one shared
  call log. This lets the contracts state the order, the number and the
  arguments of the calls the attachment makes.
- **ICU extension helpers** (`icu_collate.dfy`, `icu_timezone.dfy`,
  `string_util.dfy`). This covers:
  - the sort-key-to-hexadecimal encoder and its decoding round trip;
  - the grow-only sort-key scratch buffer;
  - the collate function over a column;
  - the bind rules of collations and of `icu_sort_key`, including their error
    cases;
  - the construction of collation names from locales, and the proof that
    binding a collation name gives back its locale;
  - `IcuBindData::Copy`;
  - the short-name rule for time zones;
  - the bounded row-fill loop of the `pg_timezone_names` table function.

  ICU itself is not modelled. These stand in for it:
  - the collator's sort keys are a function from strings to bytes;
  - collator creation is a predicate on the locale;
  - the time-zone enumeration is a sequence of steps;
  - the per-zone facts (equivalent ids, offsets) are a function of the
    zone id.
- **Prepared statements** (`prepared_api.dfy`, `prepared_api_scenarios.dfy`).
  This models the lifecycle of databases, connections and prepared-statement
  handles that the tests in `test/api/test_prepared_api.cpp` pin down.
  - The database can be destroyed.
  - A connection has an optional open transaction and a registry from names
    to its prepared statements.
  - A handle records whether its prepare succeeded, its parameter count, its
    owning connection, the tables it uses and whether it has been
    invalidated. A rollback, or a commit that fails, invalidates the
    connection's handles that use a table the transaction created, and
    nothing makes a handle valid again.
  - `Execute` succeeds only when all of these hold:
    - the prepare succeeded;
    - the owning connection is alive;
    - the database is alive;
    - the argument count matches;
    - the handle has not been invalidated.

  The five test cases are restated as methods whose postconditions are the
  tests' expectations.

`results.dfy` holds the `Option`, `Result` and `Outcome` types shared by the
modules.

## Model

| member | source | states |
|---|---|---|
| AttachedDatabaseModel.ExtractDatabaseName | src/main/attached_database.cpp:36-41 | the name is `"memory"` exactly for the empty path and `:memory:`, and the file system's base name of the path otherwise |
| AttachedDatabaseModel.ShutdownCalls | src/main/attached_database.cpp:17-34 | teardown makes no call at all while an exception unwinds; otherwise it first asks whether the storage is in memory, makes no other kind of call than a forced checkpoint request, and makes exactly one such request iff no exception, file-backed storage and checkpoint-on-shutdown all hold |
| AttachedDatabaseModel.InitializeCalls | src/main/attached_database.cpp:43-46 | initialisation starts with `catalog.Initialize(false)` and makes no other calls than that and storage initialisation, which happens iff the catalog did not fail, and never first |
| AttachedDatabaseModel.AttachedDatabase.constructor | src/main/attached_database.cpp:8-15 | the name follows the name rule on the configured path, the storage gets that path and is read-only iff the access mode is read-only, and the three subsystems are fresh |
| AttachedDatabaseModel.AttachedDatabase.Initialize | src/main/attached_database.cpp:43-46 | the calls made are `InitializeCalls`, in that order, and initialisation succeeds iff neither subsystem fails |
| AttachedDatabaseModel.AttachedDatabase.Teardown | src/main/attached_database.cpp:17-34 | the calls made are `ShutdownCalls` for the options read at teardown time, the checkpoint count grows by one exactly in the checkpoint case, and teardown has no error outcome even when the checkpoint fails |
| AttachedDatabaseModel.AttachedDatabase.GetStorageManager | src/main/attached_database.cpp:48-50 | returns the storage manager created by the constructor |
| AttachedDatabaseModel.AttachedDatabase.GetCatalog | src/main/attached_database.cpp:52-54 | returns the catalog created by the constructor |
| AttachedDatabaseModel.AttachedDatabase.GetTransactionManager | src/main/attached_database.cpp:56-58 | returns the transaction manager created by the constructor |
| IcuCollate.HexString | extension/icu/icu-extension.cpp:73-80 | the text of a key has exactly two characters per key byte |
| IcuCollate.HexStringPositions | extension/icu/icu-extension.cpp:78-79 | key byte `i` is written as `HEX_TABLE[b / 16]` at place `2i` and `HEX_TABLE[b % 16]` at place `2i + 1` |
| IcuCollate.HexStringDigits | extension/icu/icu-extension.cpp:61-80 | every character of the text is one of `0-9A-F` |
| IcuCollate.HexRoundTrip | extension/icu/icu-extension.cpp:75-80 | decoding the digit pairs of the text recovers the key bytes |
| IcuCollate.EncodeSortKey | extension/icu/icu-extension.cpp:73-80 | for a key of `string_size` bytes whose encoded bytes are nonzero, the loop fills a fresh string of `2 * (string_size - 1)` characters that equals the text of the key without its terminator |
| IcuCollate.WriteSortKey | extension/icu/icu-extension.cpp:45-47 | the sort-key writer returns the key's full length and writes the key into the buffer when it fits, leaving the rest of the buffer alone |
| IcuCollate.SortKeyBuffer.GetSortKey | extension/icu/icu-extension.cpp:43-58 | returns the key's size and leaves the key at the front of the buffer; a key larger than the buffer replaces it by a fresh buffer of exactly the key's size, otherwise buffer and size are unchanged |
| IcuCollate.CollateRow | extension/icu/icu-extension.cpp:69-83 | one row becomes the hexadecimal text of its sort key without the terminator, and the scratch buffer is the old one or a fresh one |
| IcuCollate.CollateColumn | extension/icu/icu-extension.cpp:60-84 | the loop over a column with one scratch buffer computes `Collated` of the inputs |
| IcuCollate.CollatedRows | extension/icu/icu-extension.cpp:69-83 | the collated column has the input's length and each row is the collate function of the input row at the same place |
| IcuCollate.CollatedRowDecodes | extension/icu/icu-extension.cpp:73-80 | NULL rows stay NULL; any other row is `0-9A-F` text that decodes back to the key without its terminator |
| IcuCollate.NewBindData | extension/icu/icu-extension.cpp:29-36 | building the bound data succeeds iff a collator can be created for the locale, and then holds exactly that language and country |
| IcuCollate.CollateBind | extension/icu/icu-extension.cpp:86-96 | a name of one piece binds the locale (piece, empty country) and a name of two pieces the locale (first, second), each only when ICU can create that collator; a name with any other number of pieces is the internal error "Expected one or two splits"; a successful bind has a non-empty language and parts without `_` |
| IcuCollate.SortKeyBind | extension/icu/icu-extension.cpp:98-115 | a non-constant collation and a NULL collation are rejected as not implemented before any splitting; a non-NULL constant binds exactly as a collation name does |
| IcuCollate.CopyOfBound | extension/icu/icu-extension.cpp:38-40 | copying bound data builds a collator for the same locale and yields equal data |
| IcuCollate.CollationNameRoundTrip | extension/icu/icu-extension.cpp:228-236 | for a locale with a non-empty language and parts without `_`, splitting its lower-cased collation name gives the lower-cased language, or language and country, and binding the name asks for exactly that locale |
| IcuCollate.LoadCollationNames | extension/icu/icu-extension.cpp:227-237 | the load loop makes one collation name per available locale, in order, each the language alone or `language_country`, lower-cased |
| IcuCollate.LoadedCollationsBind | extension/icu/icu-extension.cpp:227-237 | every collation created on load binds back to its own lower-cased locale |
| StringUtil.Split | extension/icu/icu-extension.cpp:88 | the pieces of a split are non-empty and contain no delimiter |
| StringUtil.NonEmptyAppend | extension/icu/icu-extension.cpp:88 | dropping the empty pieces distributes over concatenation, so the pieces kept are the input's non-empty pieces in their order |
| StringUtil.NonEmptyKeepsAll | extension/icu/icu-extension.cpp:88 | a list without empty pieces is kept whole |
| StringUtil.SplitRoundTrip | extension/icu/icu-extension.cpp:88 | a string without empty pieces splits into exactly its pieces, and joining them with the delimiter gives the string back |
| StringUtil.SplitPair | extension/icu/icu-extension.cpp:88-92 | splitting `a_b` with non-empty, `_`-free parts gives exactly `[a, b]` |
| StringUtil.JoinPieces | extension/icu/icu-extension.cpp:88 | the pieces between delimiters, joined back with the delimiter, give the original string |
| StringUtil.Lower | extension/icu/icu-extension.cpp:236 | lower-casing keeps the length and maps each character by the ASCII rule |
| StringUtil.LowerKeepsUnderscore | extension/icu/icu-extension.cpp:236 | lower-casing neither adds nor removes the `_` delimiter |
| IcuTimeZone.ShortIdOfIsFirstWithoutSlash | extension/icu/icu-extension.cpp:189-197 | the abbreviation is the first equivalent id without `/`, every earlier one contains `/`, and it is the long id when every equivalent id contains `/` |
| IcuTimeZone.ShortIdOfShape | extension/icu/icu-extension.cpp:189-197 | the abbreviation is the long id or contains no `/` |
| IcuTimeZone.ShortId | extension/icu/icu-extension.cpp:189-197 | the search loop over the equivalent ids computes `ShortIdOf` |
| IcuTimeZone.FillRows | extension/icu/icu-extension.cpp:174-215 | a call emits at most the room's number of rows and consumes at least one step per row and no more steps than there are |
| IcuTimeZone.FillRowsShape | extension/icu/icu-extension.cpp:174-215 | a call emits exactly the leading zones that have offsets, up to the room; row `k` is named after step `k`, abbreviated by `ShortIdOf` its equivalent ids, and carries the zone's raw offset and a DST flag set iff the DST offset is nonzero; the call consumes one step per row, plus the failing step that ended it when neither the room nor the steps ran out |
| IcuTimeZone.RowAbbreviation | extension/icu/icu-extension.cpp:189-197 | every row's abbreviation is the zone's own name or free of `/` |
| IcuTimeZone.TimeZoneScan.Next | extension/icu/icu-extension.cpp:177-180 | the enumeration yields its next step and moves one on, or reports its end and stays |
| IcuTimeZone.TimeZoneChunk.SetNames | extension/icu/icu-extension.cpp:185-201 | writes the name and abbreviation of one row and no other row |
| IcuTimeZone.TimeZoneChunk.SetOffsets | extension/icu/icu-extension.cpp:211-212 | writes the offset and daylight-saving flag of one row and no other row |
| IcuTimeZone.EmitRow | extension/icu/icu-extension.cpp:176-213 | one loop turn either writes the next zone's row and moves one step on, or ends the call with the rows so far; when a zone's offset lookup fails, its name and abbreviation are left written at the next row but the row is not counted |
| IcuTimeZone.EmitRows | extension/icu/icu-extension.cpp:174-214 | the row loop writes exactly the rows of `FillRows` over the remaining steps, and leaves the enumeration after the consumed steps |
| IcuTimeZone.TimeZoneFunction | extension/icu/icu-extension.cpp:171-216 | one call sets the cardinality to the number of rows `FillRows` gives, at most `STANDARD_VECTOR_SIZE`; output row `k` holds row `k`, and the enumeration advances by the consumed steps |
| PreparedApi.ExecuteOutcome | test/api/test_prepared_api.cpp:55-161 | executing a handle passes iff it was prepared successfully, its connection and database are alive, the argument count matches and it has not been invalidated |
| PreparedApi.StatementEffect | test/api/test_prepared_api.cpp:145-157 | `BEGIN` fails iff a transaction is open and otherwise opens an empty one; `ROLLBACK` of an open transaction passes, ends it, keeps the committed tables and invalidates the connection's handles that use a table it created; a failing commit invalidates them too; `CREATE TABLE` passes iff the table is not visible, and adds it to the open transaction or else to the committed tables; a failing statement leaves the committed tables alone, no statement removes one, and no statement makes an invalidated handle valid again |
| PreparedApi.ScriptEffect | test/api/test_prepared_api.cpp:12-15 | the statements of one query never remove a committed table and never make an invalidated handle valid again |
| PreparedApi.RollbackInvalidates | test/api/test_prepared_api.cpp:156-160 | a rollback passes and ends the transaction, and every handle of its connection that uses a table the transaction created is invalidated and fails for any arguments, whatever else is alive |
| PreparedApi.StatementKeepsBinding | test/api/test_prepared_api.cpp:145-160 | after any statement, every successfully prepared handle of a live connection that is not invalidated still finds all its tables |
| PreparedApi.ConnectKeepsConsistent | test/api/test_prepared_api.cpp:10 | opening a connection keeps the client state consistent |
| PreparedApi.NextNameIsFree | test/api/test_prepared_api.cpp:46-52 | no registry holds the name of the next handle |
| PreparedApi.PrepareKeepsConsistent | test/api/test_prepared_api.cpp:39 | adding a handle, registered iff it succeeded and binding when it succeeded, keeps the client state consistent |
| PreparedApi.DestroyKeepsConsistent | test/api/test_prepared_api.cpp:50-52 | removing a handle and its registry entry keeps the client state consistent |
| PreparedApi.StatementKeepsConsistent | test/api/test_prepared_api.cpp:145-160 | running any statement keeps the client state consistent |
| PreparedApi.DecimalInjective | test/api/test_prepared_api.cpp:46-52 | different handle numbers have different decimal digits |
| PreparedApi.NameOfInjective | test/api/test_prepared_api.cpp:46-52 | different handles get different names, so a name finds exactly one handle |
| PreparedApi.Client.constructor | test/api/test_prepared_api.cpp:9 | a new database is alive, with no tables, connections or handles |
| PreparedApi.Client.Connect | test/api/test_prepared_api.cpp:10 | a new connection has no transaction and an empty registry, its number was never used before, and no handle's outcome changes |
| PreparedApi.Client.Prepare | test/api/test_prepared_api.cpp:39 | the new handle succeeds iff the database is alive, the text parses into exactly one statement and its tables are visible; only a successful handle is registered under its own name, and no other handle's outcome changes |
| PreparedApi.Client.Execute | test/api/test_prepared_api.cpp:41-44 | executing changes nothing, so a handle can be executed again; it succeeds only for a successful handle of a live connection of the live database with matching argument count that has not been invalidated, and then every table the handle uses is visible to its connection |
| PreparedApi.Client.DestroyStatement | test/api/test_prepared_api.cpp:50-52 | the handle is gone and its name leaves its live connection's registry; no other handle's outcome changes |
| PreparedApi.Client.DestroyConnection | test/api/test_prepared_api.cpp:69-74 | the connection is gone and every handle it owned fails to execute from then on |
| PreparedApi.Client.DestroyDatabase | test/api/test_prepared_api.cpp:83-91 | the database is dead and every handle fails to execute from then on |
| PreparedApi.Client.RunStatement | test/api/test_prepared_api.cpp:145-157 | one statement of a query changes the committed tables, the connection's transaction and the handles as `StatementEffect` says and nothing else; after a rollback every handle of the connection that uses a table the transaction created fails for any arguments |
| PreparedApi.Client.RunScript | test/api/test_prepared_api.cpp:12-15 | the statement loop of a query has the effect `ScriptEffect` gives |
| PreparedApi.Client.Query | test/api/test_prepared_api.cpp:12-15 | a query fails outright once the database is gone or when the text does not parse; otherwise it runs its statements in order up to the first failure |
| PreparedApi.Client.NamedExecuteFinds | test/api/test_prepared_api.cpp:46-48 | for every successfully prepared handle of a live connection, `EXECUTE` by its name on that connection returns what executing the handle returns |
| PreparedApi.Client.NamedExecuteAfterDestroy | test/api/test_prepared_api.cpp:50-52 | once a handle is gone, `EXECUTE` by its name fails with not-found on every connection |
| PreparedApi.Client.QueryWithArgs | test/api/test_prepared_api.cpp:19-36 | a query with arguments fails with the prepare's error when the prepare fails, otherwise returns the execution's outcome; it leaves tables, connections and handles as they were |
| PreparedApiScenarios.CreateAndInsert | test/api/test_prepared_api.cpp:12-15 | creating a new table and inserting into it outside a transaction both succeed and commit the table |
| PreparedApiScenarios.ArgumentQueries | test/api/test_prepared_api.cpp:19-36 | all seven queries with matching arguments succeed |
| PreparedApiScenarios.PreparedStatementsApi | test/api/test_prepared_api.cpp:7-53 | setup, queries with arguments, two executions and the named `EXECUTE` succeed; the named `EXECUTE` fails with not-found once the handle is destroyed |
| PreparedApiScenarios.ExecuteByName | test/api/test_prepared_api.cpp:46-52 | for any successful handle of a live connection, `EXECUTE name` returns what executing the handle returns, and fails with not-found after the handle is destroyed |
| PreparedApiScenarios.Destructors | test/api/test_prepared_api.cpp:55-92 | executing after the connection is destroyed fails; executing and querying after the database is destroyed fail; a prepare after that does not succeed |
| PreparedApiScenarios.IncorrectUsage | test/api/test_prepared_api.cpp:94-119 | too few and too many arguments fail with a count mismatch; a handle of unparsable or two-statement text fails to execute; the query form refuses two statements |
| PreparedApiScenarios.MultiplePrepared | test/api/test_prepared_api.cpp:121-137 | two handles on one connection both execute successfully |
| PreparedApiScenarios.PreparedInTransaction | test/api/test_prepared_api.cpp:139-161 | handles prepared in a transaction work until the rollback, and then fail as invalidated |
| PreparedApiScenarios.RollbackCreatedA | test/api/test_prepared_api.cpp:156-157 | the rollback passes, ends the transaction, leaves no committed table and invalidates the connection's handles that use `a` |
| PreparedApiScenarios.RecreatedTableKeepsHandleInvalid | test/api/test_prepared_api.cpp:156-160 | a handle a rollback invalidated still fails as invalidated after a table of the same name is created and filled again |
| PreparedApiScenarios.BeginCreateInsert | test/api/test_prepared_api.cpp:145-147 | `BEGIN`, `CREATE TABLE a` and an insert succeed, and the table exists only in the open transaction |

## Left out

- ICU itself is not modelled. This covers collator creation, `getSortKey`, the time-zone enumeration, equivalent-id lookup and `getOffset`. Each is an input to the model: a function, a predicate or a sequence.
- The UTC offset is kept in milliseconds. The conversion to an `Interval` and the floating-point `now` it is computed at are not modelled.
- `StringUtil::Split` and `StringUtil::Lower` are not part of this model's sources.
  - The model's `Split` drops empty pieces; this is assumed of the implementation, not shown by these sources.
  - The model's `Lower` lower-cases ASCII letters only.
- `IcuCollate.CollateBind`, `IcuCollate.SortKeyBind`: the inverse property is proved for locales whose language is non-empty and whose parts contain no `_`. Other locale names are not covered.
- `IcuCollate.EncodeSortKey` requires a key of at least one byte. The source converts `string_size - 1` to an unsigned index, which relies on ICU always returning a terminator.
- The catalog registration in `ICUExtension::Load` is not modelled: the collations, `icu_sort_key`, `pg_timezone_names`, the `TimeZone` option and the date-part and date-trunc functions. Only the names the loop builds are. `SetICUTimeZone`, `ICUTimeZoneBind`, `ICUTimeZoneInit` and `ICUTimeZoneCleanup` are also not modelled.
- `IcuTimeZone.EmitRow`: a failing `snext` is taken to consume one step of the enumeration. ICU's position after a failure is not known to the model.
- `IcuTimeZone.TimeZoneFunction`: ICU offsets are 32-bit integers; the model uses unbounded integers.
- The storage manager's in-memory flag, and whether its initialisation or checkpoint fails, are fixed inputs of the model.
  - `AttachedDatabaseModel.AttachedDatabase.Teardown`: the config lookup and `InMemory` are taken not to fail.
  - `FileSystem::ExtractBaseName` is a function parameter.
  - The internals of the storage manager, catalog and transaction manager are not part of this model.
- `src/include/planner/expression/common_subexpression.hpp` holds only declarations and two constant overrides. It is not part of this model.
- For prepared statements, only whether each call succeeds, and with which kind of error, is modelled.
  - SQL is abstract: a statement is its effect, and a query statement is the tables it uses plus its parameter count.
  - Query results, argument types and values are not modelled.
- `PreparedApi.Client.Prepare` only prepares query and DML statements. Preparing transaction control, DDL or `EXECUTE` is not modelled.
- Invalidation is tracked by table name: a rollback, or a commit that fails, invalidates the connection's handles that use a table the transaction created. Other catalog changes in the same transaction (altering or dropping tables) are not modelled, so they invalidate nothing.
- `PreparedApi.Client.DestroyConnection` does not set the invalidated flag on the connection's handles; they fail because their connection is gone.
- `PreparedApi.Client.Query`: a failing statement inside a transaction does not put that transaction into DuckDB's aborted state.
- Concurrency between connections is not modelled: the code and tests are single-threaded.
