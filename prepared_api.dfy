/** The lifecycle of connections and prepared statements as a client of the
    embedded database sees it: a database that can be destroyed, connections
    with at most one open transaction and a registry of their named prepared
    statements, and prepared-statement handles that keep working only while
    their connection, their database and the tables they use are there.

    SQL text is abstract: a statement is described by what the lifecycle
    depends on (the tables it uses, its number of `$n` parameters, or its
    transaction or DDL effect). Only whether an operation succeeds, and with
    which kind of error, is modelled; query results are not. */
module PreparedApi {
  import opened Results

  type ConnId = nat
  type StmtId = nat

  /** A query or DML statement: the tables it reads or writes and its number
      of `$n` parameters. */
  datatype Plan = Plan(tables: set<string>, params: nat)

  datatype Statement =
    | BeginTransaction
    | CommitTransaction
    | RollbackTransaction
    | CreateTable(table: string)
    | Run(plan: Plan)
    | ExecuteNamed(name: string, args: nat)

  /** SQL text run by `Query`: it does not parse, or it is a list of
      statements. */
  datatype Sql = ParseError | Statements(list: seq<Statement>)

  /** SQL text given to `Prepare`: it does not parse, or it is a list of
      query or DML statements. */
  datatype PrepareSql = PrepareParseError | Plans(list: seq<Plan>)

  datatype ExecError =
    | ParseFailure
    | MultipleStatements
    | UnsuccessfulPrepare
    | ConnectionDestroyed
    | DatabaseDestroyed
    | ParameterCount(expected: nat, given: nat)
    | UnknownTable
    | Invalidated
    | TableExists
    | TransactionState
    | CommitConflict
    | NotFound(name: string)

  /** An open transaction: the tables created in it, visible only to its own
      connection until it commits. */
  datatype Transaction = Transaction(created: set<string>)

  datatype Connection = Connection(transaction: Option<Transaction>, registry: map<string, StmtId>)

  /** A prepared-statement handle. `plan.params` is its parameter count;
      `invalidated` is set once a table it was bound to is undone, and never
      cleared. */
  datatype PreparedStatement = PreparedStatement(name: string, owner: ConnId, success: bool, plan: Plan, invalidated: bool)

  /** A table is visible to a connection when it is committed or was created
      in the connection's own open transaction. */
  predicate Visible(tables: set<string>, transaction: Option<Transaction>, t: string)
  {
    t in tables || (transaction.Some? && t in transaction.value.created)
  }

  /** Every table the plan uses is visible. */
  predicate Binds(plan: Plan, tables: set<string>, transaction: Option<Transaction>)
  {
    forall t :: t in plan.tables ==> Visible(tables, transaction, t)
  }

  /** The checks of executing a prepared statement with `args` arguments, in
      this order: it was prepared successfully, its connection is alive, its
      database is alive, the argument count matches, and it has not been
      invalidated. */
  function ExecuteOutcome(st: PreparedStatement, args: nat, ownerAlive: bool, dbAlive: bool): (r: Outcome<ExecError>)
    ensures r.Pass? <==> st.success && ownerAlive && dbAlive && args == st.plan.params && !st.invalidated
  {
    if !st.success then Fail(UnsuccessfulPrepare)
    else if !ownerAlive then Fail(ConnectionDestroyed)
    else if !dbAlive then Fail(DatabaseDestroyed)
    else if args != st.plan.params then Fail(ParameterCount(st.plan.params, args))
    else if st.invalidated then Fail(Invalidated)
    else Pass
  }

  /** The handle belongs to connection `c` and uses one of the tables in
      `dropped`. */
  predicate DependsOn(st: PreparedStatement, c: ConnId, dropped: set<string>)
  {
    st.owner == c && st.plan.tables * dropped != {}
  }

  /** Undoing the tables `dropped` of connection `c`'s transaction
      invalidates every handle of `c` that uses one of them. */
  function Invalidate(stmts: map<StmtId, PreparedStatement>, c: ConnId, dropped: set<string>): map<StmtId, PreparedStatement>
  {
    map s | s in stmts :: stmts[s].(invalidated := stmts[s].invalidated || DependsOn(stmts[s], c, dropped))
  }

  /** `after` has the handles of `before`, unchanged except that some may
      have become invalidated; none has become valid again. */
  ghost predicate OnlyInvalidates(before: map<StmtId, PreparedStatement>, after: map<StmtId, PreparedStatement>)
  {
    after.Keys == before.Keys &&
    forall s :: s in before ==>
      after[s] == before[s].(invalidated := after[s].invalidated) && (before[s].invalidated ==> after[s].invalidated)
  }

  /** What one statement run by `Query` on live connection `c` of a live
      database does to the committed tables, to the connection's
      transaction and to the handles. */
  datatype Effect = Effect(outcome: Outcome<ExecError>, tables: set<string>, transaction: Option<Transaction>,
                           stmts: map<StmtId, PreparedStatement>)

  function StatementEffect(st: Statement, c: ConnId, tables: set<string>, transaction: Option<Transaction>,
                           registry: map<string, StmtId>, stmts: map<StmtId, PreparedStatement>): (e: Effect)
    ensures e.outcome.Fail? ==> e.tables == tables
    ensures tables <= e.tables
    ensures OnlyInvalidates(stmts, e.stmts)
    ensures st.BeginTransaction? ==> (
      e.tables == tables && e.stmts == stmts &&
      (transaction.Some? ==> e.outcome == Fail(TransactionState) && e.transaction == transaction) &&
      (transaction.None? ==> e.outcome == Pass && e.transaction == Some(Transaction({}))))
    ensures st.RollbackTransaction? && transaction.Some? ==>
      e == Effect(Pass, tables, None, Invalidate(stmts, c, transaction.value.created))
    ensures (st.RollbackTransaction? || st.CommitTransaction?) && transaction.None? ==>
      e == Effect(Fail(TransactionState), tables, None, stmts)
    ensures st.CommitTransaction? && transaction.Some? ==> (
      e.transaction == None &&
      (e.outcome.Pass? ==> e.tables == tables + transaction.value.created && e.stmts == stmts) &&
      (e.outcome.Fail? ==> e.stmts == Invalidate(stmts, c, transaction.value.created)))
    ensures st.CreateTable? ==> e.stmts == stmts && (e.outcome.Pass? <==> !Visible(tables, transaction, st.table))
    ensures st.CreateTable? && e.outcome.Pass? && transaction.Some? ==>
      e.tables == tables && e.transaction == Some(Transaction(transaction.value.created + {st.table}))
    ensures st.CreateTable? && e.outcome.Pass? && transaction.None? ==>
      e.tables == tables + {st.table} && e.transaction == None
    ensures st.Run? ==> (
      e.tables == tables && e.transaction == transaction && e.stmts == stmts &&
      (e.outcome.Pass? <==> st.plan.params == 0 && Binds(st.plan, tables, transaction)))
    ensures st.ExecuteNamed? ==> (
      e.tables == tables && e.transaction == transaction && e.stmts == stmts &&
      e.outcome == if st.name in registry && registry[st.name] in stmts
                   then ExecuteOutcome(stmts[registry[st.name]], st.args, true, true)
                   else Fail(NotFound(st.name)))
  {
    match st
    case BeginTransaction =>
      if transaction.Some? then Effect(Fail(TransactionState), tables, transaction, stmts)
      else Effect(Pass, tables, Some(Transaction({})), stmts)
    case CommitTransaction =>
      if transaction.None? then Effect(Fail(TransactionState), tables, transaction, stmts)
      else if transaction.value.created * tables != {} then
        Effect(Fail(CommitConflict), tables, None, Invalidate(stmts, c, transaction.value.created))
      else Effect(Pass, tables + transaction.value.created, None, stmts)
    case RollbackTransaction =>
      if transaction.None? then Effect(Fail(TransactionState), tables, transaction, stmts)
      else Effect(Pass, tables, None, Invalidate(stmts, c, transaction.value.created))
    case CreateTable(t) =>
      if Visible(tables, transaction, t) then Effect(Fail(TableExists), tables, transaction, stmts)
      else if transaction.Some? then Effect(Pass, tables, Some(Transaction(transaction.value.created + {t})), stmts)
      else Effect(Pass, tables + {t}, transaction, stmts)
    case Run(plan) =>
      if plan.params != 0 then Effect(Fail(ParameterCount(plan.params, 0)), tables, transaction, stmts)
      else if !Binds(plan, tables, transaction) then Effect(Fail(UnknownTable), tables, transaction, stmts)
      else Effect(Pass, tables, transaction, stmts)
    case ExecuteNamed(name, args) =>
      if name !in registry || registry[name] !in stmts then Effect(Fail(NotFound(name)), tables, transaction, stmts)
      else Effect(ExecuteOutcome(stmts[registry[name]], args, true, true), tables, transaction, stmts)
  }

  /** The statements of one `Query` run in order; the first failure stops
      the rest. Committed tables only grow, and a handle once invalidated
      stays invalidated. */
  function ScriptEffect(list: seq<Statement>, c: ConnId, tables: set<string>, transaction: Option<Transaction>,
                        registry: map<string, StmtId>, stmts: map<StmtId, PreparedStatement>): (e: Effect)
    ensures tables <= e.tables
    ensures OnlyInvalidates(stmts, e.stmts)
  {
    if list == [] then Effect(Pass, tables, transaction, stmts)
    else
      var first := StatementEffect(list[0], c, tables, transaction, registry, stmts);
      if first.outcome.Fail? then first
      else ScriptEffect(list[1..], c, first.tables, first.transaction, registry, first.stmts)
  }

  /** A script of one statement has that statement's effect. */
  lemma ScriptOfOne(st: Statement, c: ConnId, tables: set<string>, transaction: Option<Transaction>,
                    registry: map<string, StmtId>, stmts: map<StmtId, PreparedStatement>)
    ensures ScriptEffect([st], c, tables, transaction, registry, stmts) == StatementEffect(st, c, tables, transaction, registry, stmts)
  {
    var first := StatementEffect(st, c, tables, transaction, registry, stmts);
    assert [st][1..] == [];
    if first.outcome.Pass? {
      assert ScriptEffect([], c, first.tables, first.transaction, registry, first.stmts) == first;
    }
  }

  /** A rollback invalidates every handle of its connection that uses a
      table the transaction created, and each of them fails from then on,
      whatever the arguments and whatever else is alive. */
  lemma RollbackInvalidates(c: ConnId, tables: set<string>, transaction: Transaction,
                            registry: map<string, StmtId>, stmts: map<StmtId, PreparedStatement>)
    ensures var e := StatementEffect(RollbackTransaction, c, tables, Some(transaction), registry, stmts);
      e.outcome == Pass && e.transaction == None && e.tables == tables &&
      forall s, k, ownerAlive, dbAlive :: s in stmts && DependsOn(stmts[s], c, transaction.created) ==>
        e.stmts[s].invalidated && ExecuteOutcome(e.stmts[s], k, ownerAlive, dbAlive).Fail?
  {
  }

  /** Every successfully prepared handle of a live connection that is not
      invalidated still finds every table it uses. */
  ghost predicate HandlesBind(tables: set<string>, conns: map<ConnId, Connection>, stmts: map<StmtId, PreparedStatement>)
  {
    forall s :: s in stmts && stmts[s].success && !stmts[s].invalidated && stmts[s].owner in conns ==>
      Binds(stmts[s].plan, tables, conns[stmts[s].owner].transaction)
  }

  /** Running a statement keeps every handle that is not invalidated bound:
      the tables it loses sight of are exactly those whose handles the
      statement invalidates. */
  lemma StatementKeepsBinding(st: Statement, c: ConnId, tables: set<string>, conns: map<ConnId, Connection>,
                              stmts: map<StmtId, PreparedStatement>)
    requires c in conns && HandlesBind(tables, conns, stmts)
    ensures var e := StatementEffect(st, c, tables, conns[c].transaction, conns[c].registry, stmts);
      HandlesBind(e.tables, conns[c := conns[c].(transaction := e.transaction)], e.stmts)
  {
    var transaction := conns[c].transaction;
    var e := StatementEffect(st, c, tables, transaction, conns[c].registry, stmts);
    var conns' := conns[c := conns[c].(transaction := e.transaction)];
    forall s | s in e.stmts && e.stmts[s].success && !e.stmts[s].invalidated && e.stmts[s].owner in conns'
      ensures Binds(e.stmts[s].plan, e.tables, conns'[e.stmts[s].owner].transaction)
    {
      var h := stmts[s];
      assert e.stmts[s] == h && Binds(h.plan, tables, conns[h.owner].transaction);
      if h.owner == c && e.transaction != transaction {
        forall t | t in h.plan.tables
          ensures Visible(e.tables, e.transaction, t)
        {
          assert Visible(tables, transaction, t);
          if transaction.Some? && e.transaction.None? && t !in tables {
            assert t in h.plan.tables * transaction.value.created;
          }
        }
      }
    }
  }

  function Digit(d: nat): char
    requires d < 10
  {
    "0123456789"[d]
  }

  /** The decimal digits of `n`. */
  function Decimal(n: nat): (s: string)
    ensures |s| >= 1
  {
    if n < 10 then [Digit(n)] else Decimal(n / 10) + [Digit(n % 10)]
  }

  lemma {:induction false} DecimalInjective(a: nat, b: nat)
    requires Decimal(a) == Decimal(b)
    ensures a == b
  {
    var s := Decimal(a);
    if a >= 10 && b >= 10 {
      assert Decimal(a / 10) == s[..|s| - 1] == Decimal(b / 10);
      DecimalInjective(a / 10, b / 10);
      assert Digit(a % 10) == s[|s| - 1] == Digit(b % 10);
    }
  }

  /** The name a prepared statement is registered under. */
  function NameOf(id: StmtId): string
  {
    "p" + Decimal(id)
  }

  lemma NameOfInjective(a: StmtId, b: StmtId)
    ensures NameOf(a) == NameOf(b) ==> a == b
  {
    if NameOf(a) == NameOf(b) {
      assert Decimal(a) == NameOf(a)[1..] == NameOf(b)[1..] == Decimal(b);
      DecimalInjective(a, b);
    }
  }

  /** Identifiers are below `nextId`, and every handle is named after its
      number. */
  ghost predicate Numbered(conns: map<ConnId, Connection>, stmts: map<StmtId, PreparedStatement>, nextId: nat)
  {
    (forall c :: c in conns ==> c < nextId) &&
    (forall s :: s in stmts ==> s < nextId && stmts[s].owner < nextId && stmts[s].name == NameOf(s))
  }

  /** Every registry entry of a live connection names a successfully
      prepared handle of that connection under the handle's own name. */
  ghost predicate RegistryNamesHandles(conns: map<ConnId, Connection>, stmts: map<StmtId, PreparedStatement>)
  {
    forall c, n :: c in conns && n in conns[c].registry ==>
      conns[c].registry[n] in stmts && stmts[conns[c].registry[n]].owner == c &&
      stmts[conns[c].registry[n]].name == n && stmts[conns[c].registry[n]].success
  }

  /** Every successfully prepared handle of a live connection is in that
      connection's registry under its own name. */
  ghost predicate HandlesRegistered(conns: map<ConnId, Connection>, stmts: map<StmtId, PreparedStatement>)
  {
    forall s :: s in stmts && stmts[s].success && stmts[s].owner in conns ==>
      NameOf(s) in conns[stmts[s].owner].registry && conns[stmts[s].owner].registry[NameOf(s)] == s
  }

  /** The consistency of a client's state: numbering, a registry that holds
      exactly the successfully prepared handles of its connection, and
      every handle that is not invalidated still finding its tables. */
  ghost predicate Consistent(tables: set<string>, conns: map<ConnId, Connection>,
                             stmts: map<StmtId, PreparedStatement>, nextId: nat)
  {
    Numbered(conns, stmts, nextId) && RegistryNamesHandles(conns, stmts) &&
    HandlesRegistered(conns, stmts) && HandlesBind(tables, conns, stmts)
  }

  /** A new connection has no handles yet, so the state stays consistent. */
  lemma ConnectKeepsConsistent(tables: set<string>, conns: map<ConnId, Connection>,
                               stmts: map<StmtId, PreparedStatement>, nextId: nat)
    requires Consistent(tables, conns, stmts, nextId)
    ensures Consistent(tables, conns[nextId := Connection(None, map[])], stmts, nextId + 1)
  {
    var conns' := conns[nextId := Connection(None, map[])];
    forall s | s in stmts && stmts[s].success && stmts[s].owner in conns'
      ensures NameOf(s) in conns'[stmts[s].owner].registry && conns'[stmts[s].owner].registry[NameOf(s)] == s
    {
      assert stmts[s].owner != nextId;
    }
    forall s | s in stmts && stmts[s].success && !stmts[s].invalidated && stmts[s].owner in conns'
      ensures Binds(stmts[s].plan, tables, conns'[stmts[s].owner].transaction)
    {
      assert stmts[s].owner != nextId;
    }
  }

  /** No registered name is that of the next handle. */
  lemma NextNameIsFree(tables: set<string>, conns: map<ConnId, Connection>,
                       stmts: map<StmtId, PreparedStatement>, nextId: nat, c: ConnId)
    requires Consistent(tables, conns, stmts, nextId) && c in conns
    ensures NameOf(nextId) !in conns[c].registry
  {
    if NameOf(nextId) in conns[c].registry {
      var t := conns[c].registry[NameOf(nextId)];
      NameOfInjective(nextId, t);
      assert false;
    }
  }

  /** Adding the next handle, registered iff it succeeded, keeps the state
      consistent, provided a successful handle binds. */
  lemma PrepareKeepsConsistent(tables: set<string>, conns: map<ConnId, Connection>,
                               stmts: map<StmtId, PreparedStatement>, nextId: nat, c: ConnId, ok: bool, plan: Plan)
    requires Consistent(tables, conns, stmts, nextId) && c in conns
    requires ok ==> Binds(plan, tables, conns[c].transaction)
    ensures var stmts' := stmts[nextId := PreparedStatement(NameOf(nextId), c, ok, plan, false)];
      var conns' := if ok then conns[c := conns[c].(registry := conns[c].registry[NameOf(nextId) := nextId])] else conns;
      Consistent(tables, conns', stmts', nextId + 1)
  {
    var stmts' := stmts[nextId := PreparedStatement(NameOf(nextId), c, ok, plan, false)];
    var conns' := if ok then conns[c := conns[c].(registry := conns[c].registry[NameOf(nextId) := nextId])] else conns;
    assert Numbered(conns', stmts', nextId + 1);
    forall c', n | c' in conns' && n in conns'[c'].registry
      ensures conns'[c'].registry[n] in stmts' && stmts'[conns'[c'].registry[n]].owner == c' &&
        stmts'[conns'[c'].registry[n]].name == n && stmts'[conns'[c'].registry[n]].success
    {
      if !(ok && c' == c && n == NameOf(nextId)) {
        assert conns'[c'].registry[n] == conns[c'].registry[n] < nextId;
      }
    }
    forall s | s in stmts' && stmts'[s].success && stmts'[s].owner in conns'
      ensures NameOf(s) in conns'[stmts'[s].owner].registry && conns'[stmts'[s].owner].registry[NameOf(s)] == s
    {
      if s != nextId {
        NameOfInjective(s, nextId);
      }
    }
    forall s | s in stmts' && stmts'[s].success && !stmts'[s].invalidated && stmts'[s].owner in conns'
      ensures Binds(stmts'[s].plan, tables, conns'[stmts'[s].owner].transaction)
    {
    }
  }

  /** Removing a handle, and its name from its live connection's registry
      when it is registered, keeps the state consistent. */
  lemma DestroyKeepsConsistent(tables: set<string>, conns: map<ConnId, Connection>,
                               stmts: map<StmtId, PreparedStatement>, nextId: nat, s: StmtId)
    requires Consistent(tables, conns, stmts, nextId) && s in stmts
    ensures var st := stmts[s];
      var conns' := if st.success && st.owner in conns
                    then conns[st.owner := conns[st.owner].(registry := conns[st.owner].registry - {st.name})]
                    else conns;
      Consistent(tables, conns', stmts - {s}, nextId)
  {
    var st := stmts[s];
    var conns' := if st.success && st.owner in conns
                  then conns[st.owner := conns[st.owner].(registry := conns[st.owner].registry - {st.name})]
                  else conns;
    var stmts' := stmts - {s};
    forall c', n | c' in conns' && n in conns'[c'].registry
      ensures conns'[c'].registry[n] in stmts' && stmts'[conns'[c'].registry[n]].owner == c' &&
        stmts'[conns'[c'].registry[n]].name == n && stmts'[conns'[c'].registry[n]].success
    {
      assert n in conns[c'].registry && conns'[c'].registry[n] == conns[c'].registry[n];
    }
    forall s' | s' in stmts' && stmts'[s'].success && stmts'[s'].owner in conns'
      ensures NameOf(s') in conns'[stmts'[s'].owner].registry && conns'[stmts'[s'].owner].registry[NameOf(s')] == s'
    {
      NameOfInjective(s', s);
    }
    forall s' | s' in stmts' && stmts'[s'].success && !stmts'[s'].invalidated && stmts'[s'].owner in conns'
      ensures Binds(stmts'[s'].plan, tables, conns'[stmts'[s'].owner].transaction)
    {
      assert stmts'[s'] == stmts[s'] && conns'[stmts'[s'].owner].transaction == conns[stmts[s'].owner].transaction;
    }
  }

  /** Running a statement keeps the state consistent. */
  lemma StatementKeepsConsistent(st: Statement, c: ConnId, tables: set<string>, conns: map<ConnId, Connection>,
                                 stmts: map<StmtId, PreparedStatement>, nextId: nat)
    requires Consistent(tables, conns, stmts, nextId) && c in conns
    ensures var e := StatementEffect(st, c, tables, conns[c].transaction, conns[c].registry, stmts);
      Consistent(e.tables, conns[c := conns[c].(transaction := e.transaction)], e.stmts, nextId)
  {
    StatementKeepsBinding(st, c, tables, conns, stmts);
  }

  /** One database, its connections and the prepared-statement handles the
      client holds. Connections and handles are identified by numbers that
      are never reused. */
  class Client {
    var dbAlive: bool
    var tables: set<string>
    var conns: map<ConnId, Connection>
    var stmts: map<StmtId, PreparedStatement>
    var nextId: nat

    ghost predicate Valid()
      reads this
    {
      Consistent(tables, conns, stmts, nextId)
    }

    /** What executing handle `s` with `args` arguments would return now. */
    function StatementOutcome(s: StmtId, args: nat): Outcome<ExecError>
      reads this
      requires s in stmts
    {
      ExecuteOutcome(stmts[s], args, stmts[s].owner in conns, dbAlive)
    }

    /** A new in-memory database with no connections. */
    constructor ()
      ensures Valid() && dbAlive && tables == {} && conns == map[] && stmts == map[]
    {
      dbAlive := true;
      tables := {};
      conns := map[];
      stmts := map[];
      nextId := 0;
    }

    /** Opens a connection to the live database: no transaction, an empty
        registry. */
    method Connect() returns (c: ConnId)
      requires Valid() && dbAlive
      modifies this
      ensures Valid() && c == old(nextId) && nextId == c + 1 && c !in old(conns)
      ensures conns == old(conns)[c := Connection(None, map[])]
      ensures dbAlive == old(dbAlive) && tables == old(tables) && stmts == old(stmts)
      ensures forall s, k :: s in stmts ==> StatementOutcome(s, k) == old(StatementOutcome(s, k))
    {
      ConnectKeepsConsistent(tables, conns, stmts, nextId);
      c := nextId;
      conns := conns[c := Connection(None, map[])];
      nextId := nextId + 1;
    }

    /** Prepares `sql` on a live connection. The handle records whether the
        prepare succeeded: it fails when the database is gone, when the text
        does not parse, when it holds other than exactly one statement, or
        when a table it uses is not visible. A successful handle is
        registered under its name; no other handle is affected. */
    method Prepare(c: ConnId, sql: PrepareSql) returns (s: StmtId)
      requires Valid() && c in conns
      modifies this
      ensures Valid() && s == old(nextId) && nextId == s + 1 && s !in old(stmts)
      ensures stmts == old(stmts)[s := PreparedStatement(NameOf(s), c, old(PrepareSucceeds(sql, c)), PlanOf(sql), false)]
      ensures stmts[s].success ==> conns == old(conns)[c := old(conns)[c].(registry := old(conns)[c].registry[NameOf(s) := s])]
      ensures !stmts[s].success ==> conns == old(conns)
      ensures dbAlive == old(dbAlive) && tables == old(tables)
      ensures forall s', k :: s' in old(stmts) ==> StatementOutcome(s', k) == old(StatementOutcome(s', k))
    {
      s := nextId;
      var ok := PrepareSucceeds(sql, c);
      PrepareKeepsConsistent(tables, conns, stmts, nextId, c, ok, PlanOf(sql));
      stmts := stmts[s := PreparedStatement(NameOf(s), c, ok, PlanOf(sql), false)];
      if ok {
        conns := conns[c := conns[c].(registry := conns[c].registry[NameOf(s) := s])];
      }
      nextId := nextId + 1;
    }

    /** The plan a prepared handle keeps: that of the single statement. */
    static function PlanOf(sql: PrepareSql): Plan
    {
      if sql.Plans? && |sql.list| == 1 then sql.list[0] else Plan({}, 0)
    }

    predicate PrepareSucceeds(sql: PrepareSql, c: ConnId)
      reads this
      requires c in conns
    {
      dbAlive && sql.Plans? && |sql.list| == 1 && Binds(sql.list[0], tables, conns[c].transaction)
    }

    /** The error a failed prepare reports. */
    function PrepareError(sql: PrepareSql, c: ConnId): (e: ExecError)
      reads this
      requires c in conns
    {
      if !dbAlive then DatabaseDestroyed
      else if sql.PrepareParseError? then ParseFailure
      else if |sql.list| != 1 then MultipleStatements
      else UnknownTable
    }

    /** Executes handle `s`; changes nothing in the model. An execution that
        passes runs against tables its connection can see. */
    method Execute(s: StmtId, args: nat) returns (r: Outcome<ExecError>)
      requires Valid() && s in stmts
      ensures r == StatementOutcome(s, args)
      ensures r.Pass? ==> stmts[s].success && stmts[s].owner in conns && dbAlive && args == stmts[s].plan.params
      ensures r.Pass? ==> Binds(stmts[s].plan, tables, conns[stmts[s].owner].transaction)
    {
      var st := stmts[s];
      r := ExecuteOutcome(st, args, st.owner in conns, dbAlive);
    }

    /** Destroys handle `s`; a successfully prepared handle whose connection
        is alive is removed from that connection's registry. */
    method DestroyStatement(s: StmtId)
      requires Valid() && s in stmts
      modifies this
      ensures Valid()
      ensures stmts == old(stmts) - {s}
      ensures old(stmts[s].success) && old(stmts[s].owner) in old(conns) ==>
        conns == old(conns)[old(stmts[s].owner) := old(conns[stmts[s].owner]).(registry := old(conns[stmts[s].owner].registry) - {old(stmts[s].name)})]
      ensures !(old(stmts[s].success) && old(stmts[s].owner) in old(conns)) ==> conns == old(conns)
      ensures dbAlive == old(dbAlive) && tables == old(tables)
      ensures forall s', k :: s' in stmts ==> StatementOutcome(s', k) == old(StatementOutcome(s', k))
    {
      var st := stmts[s];
      DestroyKeepsConsistent(tables, conns, stmts, nextId, s);
      stmts := stmts - {s};
      if st.success && st.owner in conns {
        var conn := conns[st.owner];
        conns := conns[st.owner := conn.(registry := conn.registry - {st.name})];
      }
    }

    /** Destroys connection `c`; its open transaction is rolled back. Its
        handles survive, but executing any of them fails from now on. */
    method DestroyConnection(c: ConnId)
      requires Valid() && c in conns
      modifies this
      ensures Valid()
      ensures conns == old(conns) - {c}
      ensures dbAlive == old(dbAlive) && tables == old(tables) && stmts == old(stmts)
      ensures forall s, k :: s in stmts && stmts[s].owner == c ==> StatementOutcome(s, k).Fail?
    {
      conns := conns - {c};
    }

    /** Destroys the database. Connections survive, but every query and
        every execution fails from now on, and new prepares do not
        succeed. */
    method DestroyDatabase()
      requires Valid() && dbAlive
      modifies this
      ensures Valid() && !dbAlive
      ensures tables == old(tables) && conns == old(conns) && stmts == old(stmts)
      ensures forall s, k :: s in stmts ==> StatementOutcome(s, k).Fail?
    {
      dbAlive := false;
    }

    /** Runs one statement on live connection `c` of the live database. A
        rollback makes every handle of `c` that uses a table the transaction
        created fail from then on. */
    method RunStatement(c: ConnId, st: Statement) returns (r: Outcome<ExecError>)
      requires Valid() && c in conns && dbAlive
      modifies this
      ensures Valid()
      ensures var e := old(StatementEffect(st, c, tables, conns[c].transaction, conns[c].registry, stmts));
        r == e.outcome && tables == e.tables && stmts == e.stmts
      ensures var e := old(StatementEffect(st, c, tables, conns[c].transaction, conns[c].registry, stmts));
        conns == old(conns)[c := old(conns[c]).(transaction := e.transaction)]
      ensures dbAlive == old(dbAlive)
      ensures st == RollbackTransaction && old(conns[c].transaction).Some? ==>
        forall s, k :: s in stmts && DependsOn(stmts[s], c, old(conns[c].transaction.value.created)) ==>
          StatementOutcome(s, k).Fail?
    {
      StatementKeepsConsistent(st, c, tables, conns, stmts, nextId);
      var e := StatementEffect(st, c, tables, conns[c].transaction, conns[c].registry, stmts);
      tables := e.tables;
      conns := conns[c := conns[c].(transaction := e.transaction)];
      stmts := e.stmts;
      r := e.outcome;
    }

    /** Runs `sql` on live connection `c` without arguments: every statement
        in order, stopping at the first failure. Fails outright once the
        database is gone or when the text does not parse. */
    method Query(c: ConnId, sql: Sql) returns (r: Outcome<ExecError>)
      requires Valid() && c in conns
      modifies this
      ensures Valid()
      ensures !old(dbAlive) ==> r == Fail(DatabaseDestroyed) && tables == old(tables) && conns == old(conns) && stmts == old(stmts)
      ensures old(dbAlive) && sql.ParseError? ==>
        r == Fail(ParseFailure) && tables == old(tables) && conns == old(conns) && stmts == old(stmts)
      ensures old(dbAlive) && sql.Statements? ==>
        var e := old(ScriptEffect(sql.list, c, tables, conns[c].transaction, conns[c].registry, stmts));
        r == e.outcome && tables == e.tables && stmts == e.stmts &&
        conns == old(conns)[c := old(conns[c]).(transaction := e.transaction)]
      ensures dbAlive == old(dbAlive)
    {
      if !dbAlive {
        return Fail(DatabaseDestroyed);
      }
      if sql.ParseError? {
        return Fail(ParseFailure);
      }
      r := RunScript(c, sql.list);
    }

    /** The statement loop of `Query`: runs `list` on live connection `c` of
        the live database, in order, stopping at the first failure. */
    method RunScript(c: ConnId, list: seq<Statement>) returns (r: Outcome<ExecError>)
      requires Valid() && c in conns && dbAlive
      modifies this
      ensures Valid() && dbAlive
      ensures var e := old(ScriptEffect(list, c, tables, conns[c].transaction, conns[c].registry, stmts));
        r == e.outcome && tables == e.tables && stmts == e.stmts &&
        conns == old(conns)[c := old(conns[c]).(transaction := e.transaction)]
    {
      ghost var registry := conns[c].registry;
      r := Pass;
      var i := 0;
      while i < |list|
        invariant Valid() && c in conns && dbAlive && 0 <= i <= |list|
        invariant conns[c].registry == registry
        invariant conns == old(conns)[c := old(conns[c]).(transaction := conns[c].transaction)]
        invariant r == Pass
        invariant old(ScriptEffect(list, c, tables, conns[c].transaction, registry, stmts)) ==
          ScriptEffect(list[i..], c, tables, conns[c].transaction, registry, stmts)
      {
        assert list[i..][0] == list[i] && list[i..][1..] == list[i + 1..];
        r := RunStatement(c, list[i]);
        if r.Fail? {
          return;
        }
        i := i + 1;
      }
    }

    /** `Query` with arguments: prepares `sql` as a temporary handle, executes
        it when the prepare succeeded, and destroys it. Nothing but the
        identifier counter changes. */
    method QueryWithArgs(c: ConnId, sql: PrepareSql, args: nat) returns (r: Outcome<ExecError>)
      requires Valid() && c in conns
      modifies this
      ensures Valid()
      ensures dbAlive == old(dbAlive) && tables == old(tables) && conns == old(conns) && stmts == old(stmts)
      ensures !old(PrepareSucceeds(sql, c)) ==> r == Fail(old(PrepareError(sql, c)))
      ensures old(PrepareSucceeds(sql, c)) ==> r == ExecuteOutcome(PreparedStatement("", c, true, PlanOf(sql), false), args, true, true)
    {
      var ok := PrepareSucceeds(sql, c);
      var error := PrepareError(sql, c);
      ghost var registry := conns[c].registry;
      NextNameIsFree(tables, conns, stmts, nextId, c);
      var s := Prepare(c, sql);
      assert NameOf(s) !in registry;
      assert ok ==> conns[c].registry - {NameOf(s)} == registry;
      if !ok {
        r := Fail(error);
      } else {
        r := Execute(s, args);
      }
      DestroyStatement(s);
    }

    /** `EXECUTE` by name on a handle's own connection finds that handle:
        for every successfully prepared handle of a live connection, a query
        of one named `EXECUTE` returns what executing the handle returns. */
    lemma NamedExecuteFinds(h: StmtId, k: nat)
      requires Valid() && dbAlive && h in stmts && stmts[h].success && stmts[h].owner in conns
      ensures var c := stmts[h].owner;
        ScriptEffect([ExecuteNamed(NameOf(h), k)], c, tables, conns[c].transaction, conns[c].registry, stmts).outcome ==
        StatementOutcome(h, k)
    {
      var c := stmts[h].owner;
      ScriptOfOne(ExecuteNamed(NameOf(h), k), c, tables, conns[c].transaction, conns[c].registry, stmts);
    }

    /** Once a handle is gone, `EXECUTE` by its name finds nothing on any
        connection: names are never reused. */
    lemma NamedExecuteAfterDestroy(c: ConnId, h: StmtId, k: nat)
      requires Valid() && c in conns && h !in stmts
      ensures ScriptEffect([ExecuteNamed(NameOf(h), k)], c, tables, conns[c].transaction, conns[c].registry, stmts).outcome ==
        Fail(NotFound(NameOf(h)))
    {
      ScriptOfOne(ExecuteNamed(NameOf(h), k), c, tables, conns[c].transaction, conns[c].registry, stmts);
      assert Consistent(tables, conns, stmts, nextId);
      if NameOf(h) in conns[c].registry {
        var t := conns[c].registry[NameOf(h)];
        NameOfInjective(h, t);
        assert false;
      }
    }
  }
}
