/** An attached database: the owner of one storage manager, one catalog and one
    transaction manager under a single database name, with its attach-time
    name rule, its initialisation order and its shutdown-time checkpoint
    decision.

    The three subsystems are collaborators whose internals are not part of
    this model. Each of them records every call it receives in one shared
    call log, so that the order and the number of calls the attachment makes
    can be stated; what each call does beyond that (whether it fails,
    whether the storage is in memory) is fixed when the collaborator is
    created, by a `StorageBehaviour` or a flag. */
module AttachedDatabaseModel {
  import opened Results

  datatype AccessMode = Automatic | ReadOnly | ReadWrite

  /** The configuration options of the database instance that an attachment
      reads: at construction (`databasePath`, `accessMode`) and again at
      teardown (`checkpointOnShutdown`). */
  datatype DbOptions = DbOptions(databasePath: string, accessMode: AccessMode, checkpointOnShutdown: bool)

  /** A call made by the attachment into one of its subsystems. */
  datatype Call =
    | CatalogInitialize(loadBuiltin: bool)
    | StorageInitialize
    | StorageInMemory
    | StorageCreateCheckpoint(force: bool)

  datatype SubsystemError = StorageError | CatalogError

  /** How the (unmodelled) storage manager answers: whether it keeps the
      database in memory, and whether its initialisation or a checkpoint
      fails. */
  datatype StorageBehaviour = StorageBehaviour(inMemory: bool, initializeFails: bool, checkpointFails: bool)

  /** The name of an attachment: `"memory"` for the empty path and for
      `:memory:`, and the file system's base name of the path otherwise.
      The file system's base-name rule is a parameter. */
  function ExtractDatabaseName(path: string, baseName: string -> string): (name: string)
    ensures path == "" || path == ":memory:" ==> name == "memory"
    ensures path != "" && path != ":memory:" ==> name == baseName(path)
  {
    if path == "" || path == ":memory:" then "memory" else baseName(path)
  }

  /** The number of checkpoint requests in a sequence of calls. */
  function CheckpointCount(calls: seq<Call>): nat
  {
    if calls == [] then 0
    else (if calls[0].StorageCreateCheckpoint? then 1 else 0) + CheckpointCount(calls[1..])
  }

  lemma {:induction false} CheckpointCountAppend(a: seq<Call>, b: seq<Call>)
    ensures CheckpointCount(a + b) == CheckpointCount(a) + CheckpointCount(b)
  {
    if a == [] {
      assert a + b == b;
    } else {
      assert (a + b)[1..] == a[1..] + b;
      CheckpointCountAppend(a[1..], b);
    }
  }

  /** The calls teardown makes, given whether an exception is being unwound,
      whether the storage is in memory, and the checkpoint-on-shutdown
      option as configured at that moment. */
  function ShutdownCalls(uncaughtException: bool, inMemory: bool, checkpointOnShutdown: bool): (calls: seq<Call>)
    ensures uncaughtException ==> calls == []
    ensures !uncaughtException ==> |calls| >= 1 && calls[0] == StorageInMemory
    ensures CheckpointCount(calls) == if !uncaughtException && !inMemory && checkpointOnShutdown then 1 else 0
    ensures forall i :: 0 <= i < |calls| && calls[i].StorageCreateCheckpoint? ==> calls[i].force
    ensures forall c :: c in calls ==> c == StorageInMemory || c == StorageCreateCheckpoint(true)
    ensures !uncaughtException ==> |calls| == 1 + CheckpointCount(calls)
  {
    if uncaughtException then []
    else if inMemory || !checkpointOnShutdown then [StorageInMemory]
    else [StorageInMemory, StorageCreateCheckpoint(true)]
  }

  /** The calls initialisation makes: the catalog first, and the storage only
      once the catalog has been initialised without error. */
  function InitializeCalls(catalogFails: bool): (calls: seq<Call>)
    ensures |calls| >= 1 && calls[0] == CatalogInitialize(false)
    ensures StorageInitialize in calls <==> !catalogFails
    ensures forall i :: 0 <= i < |calls| && calls[i] == StorageInitialize ==> 0 < i
    ensures forall c :: c in calls ==> c == CatalogInitialize(false) || c == StorageInitialize
    ensures |calls| == if catalogFails then 1 else 2
  {
    if catalogFails then [CatalogInitialize(false)] else [CatalogInitialize(false), StorageInitialize]
  }

  /** The record of every call the subsystems of one attachment receive. */
  class CallLog {
    var calls: seq<Call>

    constructor ()
      ensures calls == []
    {
      calls := [];
    }
  }

  /** The database instance; its options may be changed while attachments
      exist, and teardown reads them afresh. */
  class DatabaseInstance {
    var options: DbOptions

    constructor (options: DbOptions)
      ensures this.options == options
    {
      this.options := options;
    }
  }

  class StorageManager {
    const path: string
    const readOnly: bool
    const behaviour: StorageBehaviour
    const log: CallLog

    constructor (path: string, readOnly: bool, behaviour: StorageBehaviour, log: CallLog)
      ensures this.path == path && this.readOnly == readOnly
      ensures this.behaviour == behaviour && this.log == log
    {
      this.path := path;
      this.readOnly := readOnly;
      this.behaviour := behaviour;
      this.log := log;
    }

    method Initialize() returns (r: Outcome<SubsystemError>)
      modifies log
      ensures log.calls == old(log.calls) + [StorageInitialize]
      ensures r.Pass? <==> !behaviour.initializeFails
    {
      log.calls := log.calls + [StorageInitialize];
      r := if behaviour.initializeFails then Fail(StorageError) else Pass;
    }

    method InMemory() returns (r: bool)
      modifies log
      ensures log.calls == old(log.calls) + [StorageInMemory]
      ensures r == behaviour.inMemory
    {
      log.calls := log.calls + [StorageInMemory];
      r := behaviour.inMemory;
    }

    method CreateCheckpoint(force: bool) returns (r: Outcome<SubsystemError>)
      modifies log
      ensures log.calls == old(log.calls) + [StorageCreateCheckpoint(force)]
      ensures r.Pass? <==> !behaviour.checkpointFails
    {
      log.calls := log.calls + [StorageCreateCheckpoint(force)];
      r := if behaviour.checkpointFails then Fail(StorageError) else Pass;
    }
  }

  class Catalog {
    const initializeFails: bool
    const log: CallLog

    constructor (initializeFails: bool, log: CallLog)
      ensures this.initializeFails == initializeFails && this.log == log
    {
      this.initializeFails := initializeFails;
      this.log := log;
    }

    method Initialize(loadBuiltin: bool) returns (r: Outcome<SubsystemError>)
      modifies log
      ensures log.calls == old(log.calls) + [CatalogInitialize(loadBuiltin)]
      ensures r.Pass? <==> !initializeFails
    {
      log.calls := log.calls + [CatalogInitialize(loadBuiltin)];
      r := if initializeFails then Fail(CatalogError) else Pass;
    }
  }

  class TransactionManager {
    constructor ()
    {
    }
  }

  class AttachedDatabase {
    const db: DatabaseInstance
    const name: string
    const storage: StorageManager
    const catalog: Catalog
    const transactionManager: TransactionManager
    const log: CallLog

    /** Both call-recording subsystems report to this attachment's log. */
    ghost predicate Valid()
    {
      storage.log == log && catalog.log == log
    }

    constructor (db: DatabaseInstance, baseName: string -> string, storageBehaviour: StorageBehaviour,
                 catalogInitializeFails: bool, log: CallLog)
      ensures Valid() && this.db == db && this.log == log
      ensures name == ExtractDatabaseName(db.options.databasePath, baseName)
      ensures storage.path == db.options.databasePath
      ensures storage.readOnly <==> db.options.accessMode == ReadOnly
      ensures storage.behaviour == storageBehaviour && catalog.initializeFails == catalogInitializeFails
      ensures fresh(storage) && fresh(catalog) && fresh(transactionManager)
      ensures unchanged(log)
    {
      this.db := db;
      this.log := log;
      name := ExtractDatabaseName(db.options.databasePath, baseName);
      storage := new StorageManager(db.options.databasePath, db.options.accessMode == ReadOnly, storageBehaviour, log);
      catalog := new Catalog(catalogInitializeFails, log);
      transactionManager := new TransactionManager();
    }

    /** Initialises the catalog (without built-in entries) and then the
        storage; a catalog error stops before the storage is touched. */
    method Initialize() returns (r: Outcome<SubsystemError>)
      requires Valid()
      modifies log
      ensures log.calls == old(log.calls) + InitializeCalls(catalog.initializeFails)
      ensures r.Pass? <==> !catalog.initializeFails && !storage.behaviour.initializeFails
    {
      r := catalog.Initialize(false);
      if r.Fail? {
        return;
      }
      r := storage.Initialize();
    }

    /** Teardown: skipped entirely while an exception is unwinding; otherwise
        asks the storage whether it is in memory and, for file-backed storage
        with checkpoint-on-shutdown enabled, requests one forced checkpoint.
        A failing checkpoint is swallowed: teardown has no error result. */
    method Teardown(uncaughtException: bool)
      requires Valid()
      modifies log
      ensures log.calls == old(log.calls) + ShutdownCalls(uncaughtException, storage.behaviour.inMemory, db.options.checkpointOnShutdown)
      ensures CheckpointCount(log.calls) == CheckpointCount(old(log.calls)) +
        (if !uncaughtException && !storage.behaviour.inMemory && db.options.checkpointOnShutdown then 1 else 0)
    {
      if uncaughtException {
        return;
      }
      var inMemory := storage.InMemory();
      if !inMemory {
        if !db.options.checkpointOnShutdown {
          CheckpointCountAppend(old(log.calls), ShutdownCalls(uncaughtException, storage.behaviour.inMemory, db.options.checkpointOnShutdown));
          return;
        }
        var ignored := storage.CreateCheckpoint(true);
      }
      CheckpointCountAppend(old(log.calls), ShutdownCalls(uncaughtException, storage.behaviour.inMemory, db.options.checkpointOnShutdown));
    }

    method GetStorageManager() returns (s: StorageManager)
      ensures s == storage
    {
      s := storage;
    }

    method GetCatalog() returns (c: Catalog)
      ensures c == catalog
    {
      c := catalog;
    }

    method GetTransactionManager() returns (t: TransactionManager)
      ensures t == transactionManager
    {
      t := transactionManager;
    }
  }
}
