/** The five usage scenarios of the prepared-statement interface, each run
    against a fresh `Client`; the postconditions state which calls succeed
    and which fail, and with which error. */
module PreparedApiScenarios {
  import opened Results
  import opened PreparedApi

  /** A single-table query or DML statement with `params` parameters. */
  function On(table: string, params: nat): Plan
  {
    Plan({table}, params)
  }

  /** `CREATE TABLE table` followed by an insert into it, outside any
      transaction, on a table that does not exist yet. */
  method CreateAndInsert(client: Client, con: ConnId, table: string)
    returns (create: Outcome<ExecError>, insert: Outcome<ExecError>)
    requires client.Valid() && client.dbAlive && con in client.conns
    requires client.conns[con].transaction == None && table !in client.tables
    modifies client
    ensures client.Valid() && client.dbAlive && create == Pass && insert == Pass
    ensures client.tables == old(client.tables) + {table}
    ensures client.conns == old(client.conns) && client.stmts == old(client.stmts)
  {
    ghost var registry := client.conns[con].registry;
    ScriptOfOne(CreateTable(table), con, client.tables, None, registry, client.stmts);
    create := client.Query(con, Statements([CreateTable(table)]));
    assert client.conns[con] == old(client.conns[con]);
    ScriptOfOne(Run(On(table, 0)), con, client.tables, None, registry, client.stmts);
    insert := client.Query(con, Statements([Run(On(table, 0))]));
  }

  /** The seven queries with arguments: one or two parameters, each matched
      by as many arguments, on committed tables. */
  method ArgumentQueries(client: Client, con: ConnId) returns (withArgs: seq<Outcome<ExecError>>)
    requires client.Valid() && client.dbAlive && con in client.conns
    requires "a" in client.tables && "strings" in client.tables
    modifies client
    ensures withArgs == [Pass, Pass, Pass, Pass, Pass, Pass, Pass]
    ensures client.Valid() && client.dbAlive && client.tables == old(client.tables)
    ensures client.conns == old(client.conns) && client.stmts == old(client.stmts)
  {
    var q1 := client.QueryWithArgs(con, Plans([On("a", 1)]), 1);
    var q2 := client.QueryWithArgs(con, Plans([On("strings", 1)]), 1);
    var q3 := client.QueryWithArgs(con, Plans([On("a", 2)]), 2);
    var q4 := client.QueryWithArgs(con, Plans([On("a", 1)]), 1);
    var q5 := client.QueryWithArgs(con, Plans([On("a", 1)]), 1);
    var q6 := client.QueryWithArgs(con, Plans([On("a", 1)]), 1);
    var q7 := client.QueryWithArgs(con, Plans([On("a", 1)]), 1);
    withArgs := [q1, q2, q3, q4, q5, q6, q7];
  }

  /** Preparing, executing, executing by name and destroying a statement. */
  method PreparedStatementsApi()
    returns (setup: seq<Outcome<ExecError>>, withArgs: seq<Outcome<ExecError>>,
             executions: seq<Outcome<ExecError>>, byName: Outcome<ExecError>,
             afterDestroy: Outcome<ExecError>, name: string)
    ensures setup == [Pass, Pass, Pass, Pass]
    ensures withArgs == [Pass, Pass, Pass, Pass, Pass, Pass, Pass]
    ensures executions == [Pass, Pass]
    ensures byName == Pass
    ensures afterDestroy == Fail(NotFound(name))
  {
    var client := new Client();
    var con := client.Connect();
    var r1, r2 := CreateAndInsert(client, con, "a");
    var r3, r4 := CreateAndInsert(client, con, "strings");
    setup := [r1, r2, r3, r4];
    withArgs := ArgumentQueries(client, con);
    assert client.stmts == map[] && client.conns == map[con := Connection(None, map[])];

    var prepared := client.Prepare(con, Plans([On("a", 1)]));
    name := NameOf(prepared);
    assert client.stmts == map[prepared := PreparedStatement(name, con, true, On("a", 1), false)];
    assert client.conns == map[con := Connection(None, map[name := prepared])];
    var e1 := client.Execute(prepared, 1);
    var e2 := client.Execute(prepared, 1);
    executions := [e1, e2];

    byName, afterDestroy := ExecuteByName(client, con, prepared);
  }

  /** `EXECUTE name(1)` on the handle's connection returns what executing
      the handle returns, and finds nothing once the handle has been
      destroyed. */
  method ExecuteByName(client: Client, con: ConnId, prepared: StmtId)
    returns (byName: Outcome<ExecError>, afterDestroy: Outcome<ExecError>)
    requires client.Valid() && client.dbAlive && prepared in client.stmts
    requires client.stmts[prepared].success && client.stmts[prepared].owner == con && con in client.conns
    modifies client
    ensures byName == old(client.StatementOutcome(prepared, 1))
    ensures afterDestroy == Fail(NotFound(NameOf(prepared)))
  {
    var name := NameOf(prepared);
    client.NamedExecuteFinds(prepared, 1);
    ScriptOfOne(ExecuteNamed(name, 1), con, client.tables, client.conns[con].transaction, client.conns[con].registry, client.stmts);
    byName := client.Query(con, Statements([ExecuteNamed(name, 1)]));
    client.DestroyStatement(prepared);
    client.NamedExecuteAfterDestroy(con, prepared, 1);
    afterDestroy := client.Query(con, Statements([ExecuteNamed(name, 1)]));
  }

  /** Handles outlive their connection and their database, but can no
      longer be executed; a connection outlives its database, but can no
      longer query or prepare. */
  method Destructors()
    returns (beforeConnectionDestroyed: Outcome<ExecError>, afterConnectionDestroyed: Outcome<ExecError>,
             beforeDatabaseDestroyed: Outcome<ExecError>, afterDatabaseDestroyed: Outcome<ExecError>,
             queryAfterDatabaseDestroyed: Outcome<ExecError>, prepareAfterDatabaseDestroyed: bool)
    ensures beforeConnectionDestroyed == Pass
    ensures afterConnectionDestroyed == Fail(ConnectionDestroyed)
    ensures beforeDatabaseDestroyed == Pass
    ensures afterDatabaseDestroyed == Fail(DatabaseDestroyed)
    ensures queryAfterDatabaseDestroyed == Fail(DatabaseDestroyed)
    ensures !prepareAfterDatabaseDestroyed
  {
    var client := new Client();
    var con := client.Connect();
    var prepared := client.Prepare(con, Plans([Plan({}, 2)]));
    beforeConnectionDestroyed := client.Execute(prepared, 2);
    client.DestroyConnection(con);
    afterConnectionDestroyed := client.Execute(prepared, 2);
    client.DestroyStatement(prepared);

    con := client.Connect();
    prepared := client.Prepare(con, Plans([Plan({}, 2)]));
    beforeDatabaseDestroyed := client.Execute(prepared, 2);
    client.DestroyDatabase();
    afterDatabaseDestroyed := client.Execute(prepared, 2);
    queryAfterDatabaseDestroyed := client.Query(con, Statements([Run(Plan({}, 0))]));
    prepared := client.Prepare(con, Plans([Plan({}, 2)]));
    prepareAfterDatabaseDestroyed := client.stmts[prepared].success;
  }

  /** Argument-count mismatches, a text that does not parse and a text with
      two statements are all refused. */
  method IncorrectUsage()
    returns (setup: seq<Outcome<ExecError>>, tooFew: Outcome<ExecError>, tooMany: Outcome<ExecError>,
             unparsed: Outcome<ExecError>, twoPrepared: Outcome<ExecError>, twoQueried: Outcome<ExecError>)
    ensures setup == [Pass, Pass]
    ensures tooFew == Fail(ParameterCount(2, 1))
    ensures tooMany == Fail(ParameterCount(2, 3))
    ensures unparsed == Fail(UnsuccessfulPrepare)
    ensures twoPrepared == Fail(UnsuccessfulPrepare)
    ensures twoQueried == Fail(MultipleStatements)
  {
    var client := new Client();
    var con := client.Connect();
    var r1, r2 := CreateAndInsert(client, con, "a");
    setup := [r1, r2];
    assert client.tables == {"a"} && client.conns == map[con := Connection(None, map[])];

    tooFew := client.QueryWithArgs(con, Plans([On("a", 2)]), 1);
    tooMany := client.QueryWithArgs(con, Plans([On("a", 2)]), 3);

    var prepared := client.Prepare(con, PrepareParseError);
    unparsed := client.Execute(prepared, 1);
    prepared := client.Prepare(con, Plans([On("a", 1), Plan({}, 1)]));
    twoPrepared := client.Execute(prepared, 1);
    twoQueried := client.QueryWithArgs(con, Plans([On("a", 1), Plan({}, 1)]), 1);
  }

  /** Two handles of one connection are usable side by side. */
  method MultiplePrepared()
    returns (setup: seq<Outcome<ExecError>>, first: Outcome<ExecError>, second: Outcome<ExecError>)
    ensures setup == [Pass, Pass]
    ensures first == Pass && second == Pass
  {
    var client := new Client();
    var con := client.Connect();
    var r1, r2 := CreateAndInsert(client, con, "a");
    setup := [r1, r2];
    assert client.tables == {"a"} && client.conns == map[con := Connection(None, map[])];

    var prepared := client.Prepare(con, Plans([On("a", 1)]));
    assert client.stmts[prepared].success;
    var prepared2 := client.Prepare(con, Plans([On("a", 1)]));
    assert client.stmts[prepared2].success && client.stmts[prepared].success;
    first := client.Execute(prepared, 1);
    second := client.Execute(prepared2, 1);
  }

  /** Handles prepared against a table created in a transaction stop working
      once that transaction rolls back. */
  method PreparedInTransaction()
    returns (setup: seq<Outcome<ExecError>>, before: seq<Outcome<ExecError>>,
             rollback: Outcome<ExecError>, after: seq<Outcome<ExecError>>)
    ensures setup == [Pass, Pass, Pass]
    ensures before == [Pass, Pass]
    ensures rollback == Pass
    ensures after == [Fail(Invalidated), Fail(Invalidated)]
  {
    var client := new Client();
    var con := client.Connect();
    setup := BeginCreateInsert(client, con);
    assert client.tables == {} && client.stmts == map[];
    assert client.conns == map[con := Connection(Some(Transaction({"a"})), map[])];

    var prepared := client.Prepare(con, Plans([On("a", 1)]));
    var prepared2 := client.Prepare(con, Plans([On("a", 1)]));
    assert client.conns[con].transaction == Some(Transaction({"a"})) && client.tables == {} && client.dbAlive;
    assert client.stmts[prepared] == PreparedStatement(NameOf(prepared), con, true, On("a", 1), false);
    assert client.stmts[prepared2] == PreparedStatement(NameOf(prepared2), con, true, On("a", 1), false);
    var e1 := client.Execute(prepared, 1);
    var e2 := client.Execute(prepared2, 1);
    before := [e1, e2];

    rollback := RollbackCreatedA(client, con);
    assert client.stmts[prepared].invalidated && client.stmts[prepared2].invalidated;
    var a1 := client.Execute(prepared, 1);
    var a2 := client.Execute(prepared2, 1);
    after := [a1, a2];
  }

  /** A handle that a rollback invalidated stays invalid: creating and
      filling a table of the same name afterwards does not bring it back. */
  method RecreatedTableKeepsHandleInvalid()
    returns (rollback: Outcome<ExecError>, recreate: Outcome<ExecError>, insert: Outcome<ExecError>,
             after: Outcome<ExecError>)
    ensures rollback == Pass && recreate == Pass && insert == Pass
    ensures after == Fail(Invalidated)
  {
    var client := new Client();
    var con := client.Connect();
    var setup := BeginCreateInsert(client, con);
    assert client.tables == {} && client.stmts == map[];
    assert client.conns == map[con := Connection(Some(Transaction({"a"})), map[])];

    var prepared := client.Prepare(con, Plans([On("a", 1)]));
    assert client.stmts[prepared] == PreparedStatement(NameOf(prepared), con, true, On("a", 1), false);
    rollback := RollbackCreatedA(client, con);
    assert client.stmts[prepared].invalidated;

    recreate, insert := CreateAndInsert(client, con, "a");
    after := client.Execute(prepared, 1);
  }

  /** `ROLLBACK` of the open transaction that created table `a`, with no
      committed tables: the transaction ends and every handle of the
      connection that uses `a` is invalidated. */
  method RollbackCreatedA(client: Client, con: ConnId) returns (rollback: Outcome<ExecError>)
    requires client.Valid() && client.dbAlive && con in client.conns && client.tables == {}
    requires client.conns[con].transaction == Some(Transaction({"a"}))
    modifies client
    ensures rollback == Pass
    ensures client.Valid() && client.dbAlive && client.tables == {}
    ensures client.conns == old(client.conns)[con := old(client.conns[con]).(transaction := None)]
    ensures client.stmts == Invalidate(old(client.stmts), con, {"a"})
  {
    ScriptOfOne(RollbackTransaction, con, {}, Some(Transaction({"a"})), client.conns[con].registry, client.stmts);
    rollback := client.Query(con, Statements([RollbackTransaction]));
  }

  /** `BEGIN TRANSACTION`, then `CREATE TABLE a` and an insert into it, each
      as a query of its own: the table exists only in the open
      transaction. */
  method BeginCreateInsert(client: Client, con: ConnId) returns (setup: seq<Outcome<ExecError>>)
    requires client.Valid() && client.dbAlive && con in client.conns
    requires client.conns[con].transaction == None && "a" !in client.tables
    modifies client
    ensures setup == [Pass, Pass, Pass]
    ensures client.Valid() && client.dbAlive && client.tables == old(client.tables) && client.stmts == old(client.stmts)
    ensures client.conns == old(client.conns)[con := old(client.conns[con]).(transaction := Some(Transaction({"a"})))]
  {
    ghost var tables := client.tables;
    ghost var registry := client.conns[con].registry;
    ScriptOfOne(BeginTransaction, con, tables, None, registry, client.stmts);
    var r1 := client.Query(con, Statements([BeginTransaction]));
    assert client.conns[con] == old(client.conns[con]).(transaction := Some(Transaction({})));

    ScriptOfOne(CreateTable("a"), con, tables, Some(Transaction({})), registry, client.stmts);
    assert !Visible(tables, Some(Transaction({})), "a");
    var r2 := client.Query(con, Statements([CreateTable("a")]));
    assert {} + {"a"} == {"a"};
    assert client.conns[con] == old(client.conns[con]).(transaction := Some(Transaction({"a"})));

    ScriptOfOne(Run(On("a", 0)), con, tables, Some(Transaction({"a"})), registry, client.stmts);
    assert Binds(On("a", 0), tables, Some(Transaction({"a"})));
    var r3 := client.Query(con, Statements([Run(On("a", 0))]));
    setup := [r1, r2, r3];
  }
}
