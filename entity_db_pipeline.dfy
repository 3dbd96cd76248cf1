/** BaseEntityDbPipeline: the persistence side of the entity layer. It keeps a
    registry of entity adapters (generated SQL plus an insert/update mode flag),
    resolves and caches the connection settings, bootstraps databases and tables,
    and dispatches each batch of records to the adapter's insert or update SQL.

    The SQL dialect (the abstract Generate*Sql members and
    CreateConnectionStringSettings) is a value of type Dialect; the database is a
    Database object that records every call made on it; the connection-string
    refresher is a Refresher object whose n-th GetNew call has a given outcome. */
module EntityDbPipelines {
  import opened Wrappers
  import Text

  // ---------------------------------------------------------------- data model

  datatype TableInfo = TableInfo(name: string, updateColumns: Option<seq<string>>)

  datatype Column = Column(name: string, dataType: string)

  datatype EntityDefine = EntityDefine(name: string, tableInfo: Option<TableInfo>, columns: seq<Column>)

  /** EntityAdapter: table, columns, the generated SQL (null until generated)
      and the insert/update mode flag. */
  datatype EntityAdapter = EntityAdapter(
    table: TableInfo,
    columns: seq<Column>,
    insertSql: Option<string>,
    updateSql: Option<string>,
    selectSql: Option<string>,
    insertModel: bool)

  datatype ConnectionSettings = ConnectionSettings(providerName: Option<string>, connectionString: Option<string>)

  /** One record: column name and value pairs, in column order. */
  datatype DataObject = DataObject(fields: seq<(string, string)>)

  /** The members a concrete pipeline implements for its database. Each SQL
      generator receives the adapter as it stands when the source calls it. */
  datatype Dialect = Dialect(
    createSettings: Option<string> -> Option<ConnectionSettings>,
    insertSql: EntityAdapter -> string,
    updateSql: EntityAdapter -> string,
    selectSql: EntityAdapter -> string,
    createTableSql: EntityAdapter -> string,
    createDatabaseSql: (EntityAdapter, string) -> string,
    ifDatabaseExistsSql: (EntityAdapter, string) -> string)

  /** What the pipeline does on the database, in order. */
  datatype DbCall =
    | Opened(settings: ConnectionSettings)          // GetDbConnection
    | ScalarQueried(sql: string)                    // MyExecuteScalar
    | Executed(sql: string)                         // MyExecute without parameters
    | BatchExecuted(sql: string, batch: seq<DataObject>)  // MyExecute with the record list
    | Closed                                        // the end of a using block

  /** What the database answers: a connection's ServerVersion, a scalar
      query's value, and the affected-row count of a batched execution. */
  datatype DbBehaviour = DbBehaviour(
    serverVersion: ConnectionSettings -> string,
    scalar: string -> int,
    rowsAffected: (string, seq<DataObject>) -> int)

  /** The database calls an operation makes, and how it ends. */
  datatype Trace<R> = Trace(calls: seq<DbCall>, result: Result<R, SpiderError>)

  /** The outcome of one IUpdateConnectString.GetNew call. */
  datatype RefreshOutcome = Throws | Returns(settings: Option<ConnectionSettings>)

  /** A refresher as a value: its call outcomes and how many calls it has had. */
  datatype RefresherView = RefresherView(outcomes: nat -> RefreshOutcome, calls: nat)

  /** The inputs of the ConnectionStringSettings getter besides its cache. */
  datatype SettingsSource = SettingsSource(
    connectString: Option<string>,
    defaultSettings: Option<ConnectionSettings>,
    create: Option<string> -> Option<ConnectionSettings>)

  /** The pipelines GetPipelineFromAppConfig can return. */
  datatype PipelineKind =
    | PostgreSqlEntityPipeline
    | MySqlEntityPipeline
    | SqlServerEntityPipeline
    | MongoDbEntityPipeline(connectString: Option<string>)
    | NullPipeline

  // ------------------------------------------------------------ registration

  predicate HasUpdateColumns(t: TableInfo) {
    t.updateColumns.Some? && |t.updateColumns.value| > 0
  }

  /** The adapter invariant: insert SQL is always there; an adapter is in update
      mode exactly when its table has update columns, and then (and only then)
      it has select and update SQL. */
  predicate WellFormed(a: EntityAdapter) {
    && a.insertSql.Some?
    && (a.insertModel <==> !HasUpdateColumns(a.table))
    && (a.selectSql.Some? <==> !a.insertModel)
    && (a.updateSql.Some? <==> !a.insertModel)
  }

  predicate RegistryWellFormed(adapters: map<string, EntityAdapter>) {
    forall n :: n in adapters ==> WellFormed(adapters[n])
  }

  /** The adapter AddEntity builds for a table: select and update SQL and update
      mode when the table has update columns, insert SQL in every case. */
  function NewAdapter(d: Dialect, table: TableInfo, columns: seq<Column>): (a: EntityAdapter)
    ensures WellFormed(a)
    ensures a.table == table && a.columns == columns
  {
    var initial := EntityAdapter(table, columns, None, None, None, true);
    var a :=
      if HasUpdateColumns(table) then
        var withSelect := initial.(selectSql := Some(d.selectSql(initial)));
        var withUpdate := withSelect.(updateSql := Some(d.updateSql(withSelect)));
        withUpdate.(insertModel := false)
      else
        initial;
    a.(insertSql := Some(d.insertSql(a)))
  }

  /** The registry after AddEntity, or its exception. */
  function Register(d: Dialect, adapters: map<string, EntityAdapter>, def: Option<EntityDefine>)
    : (r: Result<map<string, EntityAdapter>, SpiderError>)
    ensures r.Failure? <==> def.None?
    ensures r.Failure? ==> r.error == NullEntityDefine
    // an entity without table info is skipped: the registry stays as it is
    ensures def.Some? && def.value.tableInfo.None? ==> r == Success(adapters)
    // TryAdd: every existing registration is kept as it is, so the first one wins
    ensures r.Success? ==> forall n :: n in adapters ==> n in r.value && r.value[n] == adapters[n]
    // the only name that can appear is the entity's own, and only when it has table info
    ensures r.Success? ==> forall n :: n in r.value && n !in adapters ==>
      n == def.value.name && def.value.tableInfo.Some? && r.value[n].table == def.value.tableInfo.value
    // an entity with table info is registered under its name afterwards
    ensures r.Success? && def.value.tableInfo.Some? ==> def.value.name in r.value
    ensures r.Success? && RegistryWellFormed(adapters) ==> RegistryWellFormed(r.value)
  {
    if def.None? then
      Failure(NullEntityDefine)
    else if def.value.tableInfo.None? then
      Success(adapters)
    else
      var a := NewAdapter(d, def.value.tableInfo.value, def.value.columns);
      if def.value.name in adapters then Success(adapters) else Success(adapters[def.value.name := a])
  }

  /** GetUpdateColumns: the update columns of a registered entity's table; null
      for a name that is not registered. */
  function UpdateColumnsOf(adapters: map<string, EntityAdapter>, entityName: string): (r: Option<seq<string>>)
    ensures entityName !in adapters ==> r.None?
    ensures entityName in adapters ==> r == adapters[entityName].table.updateColumns
  {
    if entityName in adapters then adapters[entityName].table.updateColumns else None
  }

  // ------------------------------------------------------ connection settings

  /** The ConnectionSettings getter's answer for a cache value. */
  function Resolve(cache: Option<ConnectionSettings>, src: SettingsSource)
    : (r: Result<Option<ConnectionSettings>, SpiderError>)
    // a stored value is returned as it is
    ensures cache.Some? ==> r == Success(cache)
    // it throws only when nothing is stored and neither source is there
    ensures r.Failure? <==> cache.None? && IsNullOrEmpty(src.connectString) && src.defaultSettings.None?
    ensures r.Failure? ==> r.error == DefaultDbConnectionUnfound
    // an explicit connect string is preferred to the default configuration
    ensures cache.None? && !IsNullOrEmpty(src.connectString) ==> r == Success(src.create(src.connectString))
    ensures cache.None? && IsNullOrEmpty(src.connectString) && src.defaultSettings.Some? ==>
      r == Success(src.create(src.defaultSettings.value.connectionString))
  {
    if cache.Some? then Success(cache)
    else if !IsNullOrEmpty(src.connectString) then Success(src.create(src.connectString))
    else if src.defaultSettings.None? then Failure(DefaultDbConnectionUnfound)
    else Success(src.create(src.defaultSettings.value.connectionString))
  }

  /** The cache after one read of the getter. */
  function CachedAfter(cache: Option<ConnectionSettings>, src: SettingsSource): (c: Option<ConnectionSettings>)
    ensures cache.Some? ==> c == cache
    ensures Resolve(cache, src).Success? ==> c == Resolve(cache, src).value
    ensures Resolve(cache, src).Failure? ==> c == cache
  {
    match Resolve(cache, src)
    case Success(v) => v
    case Failure(_) => cache
  }

  // ---------------------------------------------------------------- retrying

  /** How many GetNew calls the retry loop makes from its `i`-th attempt on. */
  function AttemptsFrom(outcomes: nat -> RefreshOutcome, start: nat, i: nat): (n: nat)
    requires i < 5
    ensures i < n <= 5
    ensures forall k :: start + i <= k < start + n - 1 ==> outcomes(k).Throws?
    ensures n < 5 ==> outcomes(start + n - 1).Returns?
    decreases 5 - i
  {
    if outcomes(start + i).Returns? || i == 4 then i + 1 else AttemptsFrom(outcomes, start, i + 1)
  }

  /** How many GetNew calls InitPipeline makes, the refresher having had `start`
      calls before: up to and including the first call that does not throw, and
      never more than five. */
  function RetryAttempts(outcomes: nat -> RefreshOutcome, start: nat): (n: nat)
    ensures 1 <= n <= 5
    ensures forall k :: start <= k < start + n - 1 ==> outcomes(k).Throws?
    ensures n < 5 ==> outcomes(start + n - 1).Returns?
  {
    AttemptsFrom(outcomes, start, 0)
  }

  /** The settings the retry loop stores: those of the first call that does
      not throw, or none when all five throw. */
  function RetryResult(outcomes: nat -> RefreshOutcome, start: nat): (r: Option<ConnectionSettings>)
    // non-null settings are those of the first call that did not throw
    ensures r.Some? ==> exists k :: start <= k < start + 5 && outcomes(k) == Returns(r)
                                    && (forall j :: start <= j < k ==> outcomes(j).Throws?)
  {
    var last := outcomes(start + RetryAttempts(outcomes, start) - 1);
    if last.Returns? then last.settings else None
  }

  /** The connection-settings phase of InitPipeline: the settings it goes on
      with (or its exception), the cache afterwards, and its GetNew calls. */
  datatype Resolution = Resolution(settings: Result<ConnectionSettings, SpiderError>, cache: Option<ConnectionSettings>, attempts: nat)

  function InitResolution(cache: Option<ConnectionSettings>, src: SettingsSource, refresher: Option<RefresherView>)
    : (res: Resolution)
    ensures res.attempts <= 5
    // the getter's exception ends initialisation, with the cache as it was
    ensures Resolve(cache, src).Failure? ==> res == Resolution(Failure(Resolve(cache, src).error), cache, 0)
    // a non-null answer is used as it is, and the refresher is not called
    ensures Resolve(cache, src).Success? && Resolve(cache, src).value.Some? ==>
      res == Resolution(Success(Resolve(cache, src).value.value), Resolve(cache, src).value, 0)
    ensures res.attempts > 0 ==> refresher.Some? && Resolve(cache, src) == Success(None)
    ensures res.settings.Success? ==> res.cache == Some(res.settings.value)
    // the refresher is used only when the getter answers null
    ensures Resolve(cache, src) != Success(None) ==> res.attempts == 0
    ensures Resolve(cache, src) == Success(None) && refresher.None? ==> res.settings == Failure(SettingsAndRefresherUnfound)
  {
    match Resolve(cache, src)
    case Failure(e) => Resolution(Failure(e), cache, 0)
    case Success(found) =>
      if found.Some? then
        Resolution(Success(found.value), found, 0)
      else if refresher.None? then
        Resolution(Failure(SettingsAndRefresherUnfound), None, 0)
      else
        var n := RetryAttempts(refresher.value.outcomes, refresher.value.calls);
        var refreshed := RetryResult(refresher.value.outcomes, refresher.value.calls);
        // the final null check reads the getter once more
        match Resolve(refreshed, src)
        case Failure(e) => Resolution(Failure(e), refreshed, n)
        case Success(again) =>
          if again.Some? then Resolution(Success(again.value), again, n)
          else Resolution(Failure(RefreshFailed), None, n)
  }

  // -------------------------------------------------------------- bootstrap

  predicate IsInt16(v: int) {
    -0x8000 <= v < 0x8000
  }

  /** The using block of InitDatabaseAndTable for one insert-mode adapter. */
  function BootstrapAdapter(d: Dialect, a: EntityAdapter, s: ConnectionSettings, b: DbBehaviour): (t: Trace<()>)
    // the connection is opened first and released last, on every path
    ensures 3 <= |t.calls| && t.calls[0] == Opened(s) && t.calls[|t.calls| - 1] == Closed
    ensures forall i :: 0 < i < |t.calls| - 1 ==> !t.calls[i].Opened? && !t.calls[i].Closed?
    // the existence probe comes first, with the connection's server version
    ensures t.calls[1] == ScalarQueried(d.ifDatabaseExistsSql(a, b.serverVersion(s)))
    ensures t.result.Success? <==> IsInt16(b.scalar(d.ifDatabaseExistsSql(a, b.serverVersion(s))))
    // an overflowing probe throws before any statement is executed
    ensures t.result.Failure? ==> |t.calls| == 3 && t.result.error == ProbeOverflow
    // on success the table is created, and the database only when the probe answers 0
    ensures t.result.Success? ==> t.calls[|t.calls| - 2] == Executed(d.createTableSql(a))
    ensures t.result.Success? ==> |t.calls| == (if b.scalar(d.ifDatabaseExistsSql(a, b.serverVersion(s))) == 0 then 5 else 4)
    ensures |t.calls| == 5 ==> t.calls[2] == Executed(d.createDatabaseSql(a, b.serverVersion(s)))
  {
    var version := b.serverVersion(s);
    var probe := d.ifDatabaseExistsSql(a, version);
    var found := b.scalar(probe);
    if !IsInt16(found) then
      Trace([Opened(s), ScalarQueried(probe), Closed], Failure(ProbeOverflow))
    else
      var createDatabase := if found == 0 then [Executed(d.createDatabaseSql(a, version))] else [];
      Trace([Opened(s), ScalarQueried(probe)] + createDatabase + [Executed(d.createTableSql(a)), Closed], Success(()))
  }

  predicate InRegistry(adapters: map<string, EntityAdapter>, order: seq<string>) {
    forall i :: 0 <= i < |order| ==> order[i] in adapters
  }

  /** `order` lists every registered name exactly once: the order in which the
      registry's values are enumerated. */
  predicate IsEnumeration(order: seq<string>, adapters: map<string, EntityAdapter>) {
    && (forall n :: n in order ==> n in adapters)
    && (forall n :: n in adapters ==> n in order)
    && Text.NoDuplicates(order)
  }

  /** InitDatabaseAndTable over the adapters in `order`, given what the settings
      getter answers: update-mode adapters are skipped, and the first exception
      ends the loop. */
  function Bootstrap(d: Dialect, adapters: map<string, EntityAdapter>, order: seq<string>,
                     settings: Result<Option<ConnectionSettings>, SpiderError>, b: DbBehaviour): (t: Trace<()>)
    requires InRegistry(adapters, order)
    // a getter that throws or answers null stops the loop before any connection is opened
    ensures settings.Failure? || settings == Success(None) ==> t.calls == []
    // the only exceptions are the getter's, GetDbConnection's on null settings and the probe overflow
    ensures t.result.Failure? ==>
      || (settings.Failure? && t.result.error == settings.error)
      || (settings == Success(None) && t.result.error == NullReference)
      || t.result.error == ProbeOverflow
    decreases |order|
  {
    if order == [] then
      Trace([], Success(()))
    else
      var init := order[..|order| - 1];
      assert InRegistry(adapters, init);
      var prev := Bootstrap(d, adapters, init, settings, b);
      var a := adapters[order[|order| - 1]];
      if prev.result.Failure? || !a.insertModel then
        prev
      else
        match settings
        case Failure(e) => Trace(prev.calls, Failure(e))
        case Success(found) =>
          if found.None? then Trace(prev.calls, Failure(NullReference))
          else
            var t := BootstrapAdapter(d, a, found.value, b);
            Trace(prev.calls + t.calls, t.result)
  }

  /** How many adapters of `order` are in insert mode. */
  function InsertModeCount(adapters: map<string, EntityAdapter>, order: seq<string>): nat
    requires InRegistry(adapters, order)
    decreases |order|
  {
    if order == [] then 0
    else
      var init := order[..|order| - 1];
      assert InRegistry(adapters, init);
      InsertModeCount(adapters, init) + (if adapters[order[|order| - 1]].insertModel then 1 else 0)
  }

  predicate AnyInsertMode(adapters: map<string, EntityAdapter>, order: seq<string>) {
    exists i :: 0 <= i < |order| && order[i] in adapters && adapters[order[i]].insertModel
  }

  /** How many connections a list of calls opens, and how many it releases. */
  function Opens(calls: seq<DbCall>): nat
    decreases |calls|
  {
    if calls == [] then 0 else Opens(calls[..|calls| - 1]) + (if calls[|calls| - 1].Opened? then 1 else 0)
  }

  function Closes(calls: seq<DbCall>): nat
    decreases |calls|
  {
    if calls == [] then 0 else Closes(calls[..|calls| - 1]) + (if calls[|calls| - 1].Closed? then 1 else 0)
  }

  // --------------------------------------------------------------- dispatch

  /** The SQL Process executes for an adapter: its insert SQL in insert mode,
      its update SQL in update mode. */
  function ExecutedSql(a: EntityAdapter): (sql: string)
    requires WellFormed(a)
    ensures a.insertModel ==> a.insertSql == Some(sql)
    ensures !a.insertModel ==> a.updateSql == Some(sql)
  {
    if a.insertModel then a.insertSql.value else a.updateSql.value
  }

  /** Process, given what the settings getter answers. */
  function Dispatch(adapters: map<string, EntityAdapter>, entityName: string, datas: Option<seq<DataObject>>,
                    settings: Result<Option<ConnectionSettings>, SpiderError>, b: DbBehaviour): (t: Trace<int>)
    requires RegistryWellFormed(adapters)
    // an empty batch or an unknown entity: 0, and no connection is opened
    ensures IsNullOrEmpty(datas) || entityName !in adapters ==> t == Trace([], Success(0))
    // otherwise at most one connection, released after one batched execution
    ensures t.calls == [] || (|t.calls| == 3 && t.calls[0].Opened? && t.calls[2] == Closed)
    ensures t.calls != [] ==>
      && t.calls[1] == BatchExecuted(ExecutedSql(adapters[entityName]), datas.value)
      && t.result == Success(b.rowsAffected(ExecutedSql(adapters[entityName]), datas.value))
    ensures t.result.Success? && !IsNullOrEmpty(datas) && entityName in adapters ==> t.calls != []
    // for a registered entity and a non-empty batch: the getter's exception reaches the caller,
    // GetDbConnection on a null answer throws, and resolved settings open the connection
    ensures !IsNullOrEmpty(datas) && entityName in adapters ==>
      && (settings.Failure? ==> t == Trace([], Failure(settings.error)))
      && (settings == Success(None) ==> t == Trace([], Failure(NullReference)))
      && (settings.Success? && settings.value.Some? ==> t.calls != [] && t.calls[0] == Opened(settings.value.value))
  {
    if IsNullOrEmpty(datas) || entityName !in adapters then
      Trace([], Success(0))
    else
      match settings
      case Failure(e) => Trace([], Failure(e))
      case Success(found) =>
        if found.None? then Trace([], Failure(NullReference))
        else
          var sql := ExecutedSql(adapters[entityName]);
          Trace([Opened(found.value), BatchExecuted(sql, datas.value), Closed], Success(0 + b.rowsAffected(sql, datas.value)))
  }

  // ------------------------------------------------------- backend selection

  /** The provider name that selects a pipeline (none for NullPipeline). */
  function ProviderName(k: PipelineKind): Option<string> {
    match k
    case PostgreSqlEntityPipeline => Some("Npgsql")
    case MySqlEntityPipeline => Some("MySql.Data.MySqlClient")
    case SqlServerEntityPipeline => Some("System.Data.SqlClient")
    case MongoDbEntityPipeline(_) => Some("MongoDB")
    case NullPipeline => None
  }

  predicate IsKnownProvider(p: Option<string>) {
    p.Some? && p.value in {"Npgsql", "MySql.Data.MySqlClient", "System.Data.SqlClient", "MongoDB"}
  }

  /** GetPipelineFromAppConfig, given the default configuration and the default
      connection string. */
  function GetPipelineFromAppConfig(defaultSettings: Option<ConnectionSettings>, defaultConnectString: Option<string>)
    : (r: Option<PipelineKind>)
    // null, not a NullPipeline, when there is no default configuration
    ensures r.None? <==> defaultSettings.None?
    // a known provider selects the pipeline it names
    ensures r.Some? && r.value != NullPipeline ==> ProviderName(r.value) == defaultSettings.value.providerName
    // any other provider, null included, selects the NullPipeline
    ensures r.Some? ==> (r.value == NullPipeline <==> !IsKnownProvider(defaultSettings.value.providerName))
    // the MongoDB pipeline is given the default connection string
    ensures r.Some? && r.value.MongoDbEntityPipeline? ==> r.value.connectString == defaultConnectString
  {
    if defaultSettings.None? then None
    else
      var provider := defaultSettings.value.providerName;
      if provider == Some("Npgsql") then Some(PostgreSqlEntityPipeline)
      else if provider == Some("MySql.Data.MySqlClient") then Some(MySqlEntityPipeline)
      else if provider == Some("System.Data.SqlClient") then Some(SqlServerEntityPipeline)
      else if provider == Some("MongoDB") then Some(MongoDbEntityPipeline(defaultConnectString))
      else Some(NullPipeline)
  }

  // ------------------------------------------------------------------ objects

  /** The database the pipeline talks to, with the log of every call made on it. */
  class Database {
    const behaviour: DbBehaviour
    var log: seq<DbCall>

    constructor (behaviour: DbBehaviour)
      ensures this.behaviour == behaviour && log == []
    {
      this.behaviour := behaviour;
      log := [];
    }

    /** GetDbConnection; answers the connection's ServerVersion. */
    method Open(s: ConnectionSettings) returns (serverVersion: string)
      modifies this`log
      ensures log == old(log) + [Opened(s)] && serverVersion == behaviour.serverVersion(s)
    {
      log := log + [Opened(s)];
      serverVersion := behaviour.serverVersion(s);
    }

    method ExecuteScalar(sql: string) returns (v: int)
      modifies this`log
      ensures log == old(log) + [ScalarQueried(sql)] && v == behaviour.scalar(sql)
    {
      log := log + [ScalarQueried(sql)];
      v := behaviour.scalar(sql);
    }

    method Execute(sql: string)
      modifies this`log
      ensures log == old(log) + [Executed(sql)]
    {
      log := log + [Executed(sql)];
    }

    method ExecuteBatch(sql: string, batch: seq<DataObject>) returns (rows: int)
      modifies this`log
      ensures log == old(log) + [BatchExecuted(sql, batch)] && rows == behaviour.rowsAffected(sql, batch)
    {
      log := log + [BatchExecuted(sql, batch)];
      rows := behaviour.rowsAffected(sql, batch);
    }

    method Close()
      modifies this`log
      ensures log == old(log) + [Closed]
    {
      log := log + [Closed];
    }
  }

  /** An IUpdateConnectString: its n-th GetNew call has outcome `outcomes(n)`. */
  class Refresher {
    const outcomes: nat -> RefreshOutcome
    var calls: nat

    constructor (outcomes: nat -> RefreshOutcome)
      ensures this.outcomes == outcomes && calls == 0
    {
      this.outcomes := outcomes;
      calls := 0;
    }

    function View(): RefresherView
      reads this
    {
      RefresherView(outcomes, calls)
    }

    method GetNew() returns (o: RefreshOutcome)
      modifies this`calls
      ensures calls == old(calls) + 1 && o == outcomes(old(calls))
    {
      o := outcomes(calls);
      calls := calls + 1;
    }
  }

  class BaseEntityDbPipeline {
    const dialect: Dialect
    const db: Database
    /** The connect string given to the constructor (possibly null). */
    const connectString: Option<string>
    /** The process-wide default configuration (Env.DataConnectionStringSettings). */
    const defaultSettings: Option<ConnectionSettings>
    var connectionStringSettings: Option<ConnectionSettings>
    var entityAdapters: map<string, EntityAdapter>
    var updateConnectString: Refresher?
    var checkIfSameBeforeUpdate: bool

    ghost predicate Valid()
      reads this
    {
      RegistryWellFormed(entityAdapters)
    }

    function Source(): SettingsSource {
      SettingsSource(connectString, defaultSettings, dialect.createSettings)
    }

    constructor (dialect: Dialect, db: Database, connectString: Option<string>,
                 defaultSettings: Option<ConnectionSettings>, checkIfSameBeforeUpdate: bool)
      ensures Valid()
      ensures this.dialect == dialect && this.db == db && this.connectString == connectString
      ensures this.defaultSettings == defaultSettings && this.checkIfSameBeforeUpdate == checkIfSameBeforeUpdate
      ensures connectionStringSettings == None && entityAdapters == map[] && updateConnectString == null
    {
      this.dialect := dialect;
      this.db := db;
      this.connectString := connectString;
      this.defaultSettings := defaultSettings;
      this.checkIfSameBeforeUpdate := checkIfSameBeforeUpdate;
      connectionStringSettings := None;
      entityAdapters := map[];
      updateConnectString := null;
    }

    /** The ConnectionStringSettings getter: resolve and store when nothing is stored. */
    method GetConnectionStringSettings() returns (r: Result<Option<ConnectionSettings>, SpiderError>)
      modifies this`connectionStringSettings
      ensures r == Resolve(old(connectionStringSettings), Source())
      ensures connectionStringSettings == CachedAfter(old(connectionStringSettings), Source())
    {
      if connectionStringSettings.None? {
        if IsNullOrEmpty(connectString) {
          if defaultSettings.None? {
            return Failure(DefaultDbConnectionUnfound);
          } else {
            connectionStringSettings := dialect.createSettings(defaultSettings.value.connectionString);
          }
        } else {
          connectionStringSettings := dialect.createSettings(connectString);
        }
      }
      return Success(connectionStringSettings);
    }

    /** The ConnectionStringSettings setter. */
    method SetConnectionStringSettings(value: Option<ConnectionSettings>)
      modifies this`connectionStringSettings
      ensures connectionStringSettings == value
    {
      connectionStringSettings := value;
    }

    method AddEntity(entityDefine: Option<EntityDefine>) returns (r: Result<(), SpiderError>)
      requires Valid()
      modifies this`entityAdapters
      ensures Valid()
      ensures r.Failure? <==> Register(dialect, old(entityAdapters), entityDefine).Failure?
      ensures r.Failure? ==> r.error == NullEntityDefine && entityAdapters == old(entityAdapters)
      ensures r.Success? ==> entityAdapters == Register(dialect, old(entityAdapters), entityDefine).value
    {
      if entityDefine.None? {
        return Failure(NullEntityDefine);
      }
      var def := entityDefine.value;
      if def.tableInfo.None? {
        return Success(());
      }
      var adapter := EntityAdapter(def.tableInfo.value, def.columns, None, None, None, true);
      if adapter.table.updateColumns.Some? && |adapter.table.updateColumns.value| > 0 {
        adapter := adapter.(selectSql := Some(dialect.selectSql(adapter)));
        adapter := adapter.(updateSql := Some(dialect.updateSql(adapter)));
        adapter := adapter.(insertModel := false);
      }
      adapter := adapter.(insertSql := Some(dialect.insertSql(adapter)));
      if def.name !in entityAdapters {
        entityAdapters := entityAdapters[def.name := adapter];
      }
      return Success(());
    }

    /** GetUpdateColumns. */
    function GetUpdateColumns(entityName: string): (r: Option<seq<string>>)
      reads this
      ensures r == UpdateColumnsOf(entityAdapters, entityName)
    {
      UpdateColumnsOf(entityAdapters, entityName)
    }

    /** The using block of InitDatabaseAndTable for one insert-mode adapter. */
    method BootstrapOne(adapter: EntityAdapter, settings: ConnectionSettings) returns (r: Result<(), SpiderError>)
      modifies db`log
      ensures var t := BootstrapAdapter(dialect, adapter, settings, db.behaviour);
        db.log == old(db.log) + t.calls && r == t.result
    {
      var version := db.Open(settings);
      var sql := dialect.ifDatabaseExistsSql(adapter, version);
      var found := db.ExecuteScalar(sql);
      if !IsInt16(found) {
        db.Close();
        return Failure(ProbeOverflow);
      }
      if found == 0 {
        sql := dialect.createDatabaseSql(adapter, version);
        db.Execute(sql);
      }
      sql := dialect.createTableSql(adapter);
      db.Execute(sql);
      db.Close();
      return Success(());
    }

    /** One pass of InitDatabaseAndTable's loop: the adapter `order[i]`. */
    method BootstrapEntry(order: seq<string>, i: nat, ghost cache0: Option<ConnectionSettings>, ghost logBefore: seq<DbCall>)
      returns (r: Result<(), SpiderError>)
      requires i < |order| && InRegistry(entityAdapters, order)
      requires Bootstrap(dialect, entityAdapters, order[..i], Resolve(cache0, Source()), db.behaviour).result.Success?
      requires db.log == logBefore + Bootstrap(dialect, entityAdapters, order[..i], Resolve(cache0, Source()), db.behaviour).calls
      requires connectionStringSettings == if AnyInsertMode(entityAdapters, order[..i]) then CachedAfter(cache0, Source()) else cache0
      modifies this`connectionStringSettings, db`log
      ensures InRegistry(entityAdapters, order[..i + 1])
      ensures var t := Bootstrap(dialect, entityAdapters, order[..i + 1], Resolve(cache0, Source()), db.behaviour);
        db.log == logBefore + t.calls && r == t.result
      ensures connectionStringSettings == if AnyInsertMode(entityAdapters, order[..i + 1]) then CachedAfter(cache0, Source()) else cache0
      ensures r.Failure? ==> entityAdapters[order[i]].insertModel
    {
      BootstrapStep(dialect, entityAdapters, order, Resolve(cache0, Source()), db.behaviour, i);
      ResolveCached(cache0, Source());
      AnyInsertModeStep(entityAdapters, order, i);
      var adapter := entityAdapters[order[i]];
      if !adapter.insertModel {
        ghost var prev := Bootstrap(dialect, entityAdapters, order[..i], Resolve(cache0, Source()), db.behaviour);
        assert prev.result.value == ();
        return Success(());
      }
      var s := GetConnectionStringSettings();
      if s.Failure? {
        return Failure(s.error);
      }
      if s.value.None? {
        return Failure(NullReference);
      }
      r := BootstrapOne(adapter, s.value.value);
    }

    /** InitDatabaseAndTable, enumerating the registry in `order`. */
    method InitDatabaseAndTable(order: seq<string>) returns (r: Result<(), SpiderError>)
      requires Valid() && IsEnumeration(order, entityAdapters)
      modifies this`connectionStringSettings, db`log
      ensures InRegistry(entityAdapters, order)
      ensures var t := Bootstrap(dialect, entityAdapters, order, Resolve(old(connectionStringSettings), Source()), db.behaviour);
        db.log == old(db.log) + t.calls && r == t.result
      ensures connectionStringSettings ==
        if AnyInsertMode(entityAdapters, order) then CachedAfter(old(connectionStringSettings), Source())
        else old(connectionStringSettings)
    {
      ghost var cache0 := connectionStringSettings;
      ghost var settings := Resolve(cache0, Source());
      assert InRegistry(entityAdapters, order);
      for i := 0 to |order|
        invariant InRegistry(entityAdapters, order[..i])
        invariant Bootstrap(dialect, entityAdapters, order[..i], settings, db.behaviour).result.Success?
        invariant db.log == old(db.log) + Bootstrap(dialect, entityAdapters, order[..i], settings, db.behaviour).calls
        invariant connectionStringSettings == if AnyInsertMode(entityAdapters, order[..i]) then CachedAfter(cache0, Source()) else cache0
      {
        r := BootstrapEntry(order, i, cache0, old(db.log));
        if r.Failure? {
          BootstrapStopsAtFailure(dialect, entityAdapters, order, settings, db.behaviour, i + 1);
          AnyInsertModeStep(entityAdapters, order, i);
          AnyInsertModePrefix(entityAdapters, order, i + 1);
          return r;
        }
      }
      assert order[..|order|] == order;
      assert Bootstrap(dialect, entityAdapters, order, settings, db.behaviour).result.value == ();
      r := Success(());
    }

    /** The retry loop of InitPipeline: GetNew until a call does not throw, at most
        five times, storing what that call returned. */
    method RetryRefresher()
      requires updateConnectString != null && connectionStringSettings == None
      modifies this`connectionStringSettings, updateConnectString`calls
      ensures var v := old(updateConnectString.View());
        && updateConnectString.calls == v.calls + RetryAttempts(v.outcomes, v.calls)
        && connectionStringSettings == RetryResult(v.outcomes, v.calls)
    {
      var refresher := updateConnectString;
      ghost var start := refresher.calls;
      var i := 0;
      while i < 5
        invariant 0 <= i <= 5
        invariant refresher.calls == start + i
        invariant forall k :: start <= k < start + i ==> refresher.outcomes(k).Throws?
        invariant connectionStringSettings == None
      {
        var outcome := refresher.GetNew();
        if outcome.Returns? {
          RetryStopsAt(refresher.outcomes, start, i);
          SetConnectionStringSettings(outcome.settings);
          return;
        }
        i := i + 1;
      }
      RetryStopsAt(refresher.outcomes, start, 4);
    }

    method InitPipeline(order: seq<string>) returns (r: Result<(), SpiderError>)
      requires Valid() && IsEnumeration(order, entityAdapters)
      modifies this`connectionStringSettings, db`log, updateConnectString
      ensures InRegistry(entityAdapters, order)
      ensures var res := InitResolution(old(connectionStringSettings), Source(),
                                        if updateConnectString == null then None else Some(old(updateConnectString.View())));
        && (updateConnectString != null ==> updateConnectString.calls == old(updateConnectString.calls) + res.attempts)
        && connectionStringSettings == res.cache
        && (res.settings.Failure? ==> r == Failure(res.settings.error) && db.log == old(db.log))
        && (res.settings.Success? ==>
              var t := Bootstrap(dialect, entityAdapters, order, Success(res.cache), db.behaviour);
              db.log == old(db.log) + t.calls && r == t.result)
    {
      var s := GetConnectionStringSettings();
      if s.Failure? {
        return Failure(s.error);
      }
      if s.value.None? {
        if updateConnectString == null {
          return Failure(SettingsAndRefresherUnfound);
        }
        RetryRefresher();
        var again := GetConnectionStringSettings();
        if again.Failure? {
          // the first read did not throw, and nothing it depends on has changed
          assert false;
        } else if again.value.None? {
          return Failure(RefreshFailed);
        }
      }
      r := InitDatabaseAndTable(order);
    }

    method Process(entityName: string, datas: Option<seq<DataObject>>) returns (r: Result<int, SpiderError>)
      requires Valid()
      modifies this`connectionStringSettings, db`log
      ensures var t := Dispatch(entityAdapters, entityName, datas, Resolve(old(connectionStringSettings), Source()), db.behaviour);
        db.log == old(db.log) + t.calls && r == t.result
      ensures connectionStringSettings ==
        if IsNullOrEmpty(datas) || entityName !in entityAdapters then old(connectionStringSettings)
        else CachedAfter(old(connectionStringSettings), Source())
    {
      if datas.None? || |datas.value| == 0 {
        return Success(0);
      }
      var count := 0;
      if entityName in entityAdapters {
        var metadata := entityAdapters[entityName];
        var s := GetConnectionStringSettings();
        if s.Failure? {
          return Failure(s.error);
        }
        if s.value.None? {
          return Failure(NullReference);
        }
        var version := db.Open(s.value.value);
        var rows;
        if metadata.insertModel {
          rows := db.ExecuteBatch(metadata.insertSql.value, datas.value);
        } else {
          rows := db.ExecuteBatch(metadata.updateSql.value, datas.value);
        }
        count := count + rows;
        db.Close();
      }
      return Success(count);
    }
  }

  // ------------------------------------------------------------------ lemmas

  /** The retry loop stops at attempt `m` (counting from 0) when every earlier
      attempt threw and attempt `m` returned, or when `m` is the fifth. */
  lemma {:induction false} RetryStopsAt(outcomes: nat -> RefreshOutcome, start: nat, m: nat)
    requires m < 5
    requires forall k :: start <= k < start + m ==> outcomes(k).Throws?
    requires outcomes(start + m).Returns? || m == 4
    ensures RetryAttempts(outcomes, start) == m + 1
    ensures RetryResult(outcomes, start) == if outcomes(start + m).Returns? then outcomes(start + m).settings else None
  {
    AttemptsFromStopsAt(outcomes, start, 0, m);
  }

  lemma {:induction false} AttemptsFromStopsAt(outcomes: nat -> RefreshOutcome, start: nat, i: nat, m: nat)
    requires i <= m < 5
    requires forall k :: start + i <= k < start + m ==> outcomes(k).Throws?
    requires outcomes(start + m).Returns? || m == 4
    ensures AttemptsFrom(outcomes, start, i) == m + 1
    decreases m - i
  {
    if i < m {
      assert outcomes(start + i).Throws?;
      AttemptsFromStopsAt(outcomes, start, i + 1, m);
    }
  }

  /** One more adapter of `order` in Bootstrap. */
  lemma BootstrapStep(d: Dialect, adapters: map<string, EntityAdapter>, order: seq<string>,
                      settings: Result<Option<ConnectionSettings>, SpiderError>, b: DbBehaviour, i: nat)
    requires i < |order| && InRegistry(adapters, order)
    ensures InRegistry(adapters, order[..i]) && InRegistry(adapters, order[..i + 1])
    ensures
      var prev := Bootstrap(d, adapters, order[..i], settings, b);
      var a := adapters[order[i]];
      Bootstrap(d, adapters, order[..i + 1], settings, b) ==
        if prev.result.Failure? || !a.insertModel then prev
        else if settings.Failure? then Trace(prev.calls, Failure(settings.error))
        else if settings.value.None? then Trace(prev.calls, Failure(NullReference))
        else
          var t := BootstrapAdapter(d, a, settings.value.value, b);
          Trace(prev.calls + t.calls, t.result)
  {
    assert order[..i + 1][..i] == order[..i] && order[..i + 1][i] == order[i];
  }

  /** Reading the getter again after it stored its value gives the same answer. */
  lemma ResolveCached(cache: Option<ConnectionSettings>, src: SettingsSource)
    ensures Resolve(CachedAfter(cache, src), src) == Resolve(cache, src)
    ensures CachedAfter(CachedAfter(cache, src), src) == CachedAfter(cache, src)
  {
  }

  lemma AnyInsertModeStep(adapters: map<string, EntityAdapter>, order: seq<string>, i: nat)
    requires i < |order| && order[i] in adapters
    ensures AnyInsertMode(adapters, order[..i + 1]) <==> AnyInsertMode(adapters, order[..i]) || adapters[order[i]].insertModel
  {
    assert forall j :: 0 <= j < i ==> order[..i + 1][j] == order[..i][j];
    assert order[..i + 1][i] == order[i];
  }

  lemma AnyInsertModePrefix(adapters: map<string, EntityAdapter>, order: seq<string>, n: nat)
    requires n <= |order| && AnyInsertMode(adapters, order[..n])
    ensures AnyInsertMode(adapters, order)
  {
    var j :| 0 <= j < n && order[..n][j] in adapters && adapters[order[..n][j]].insertModel;
    assert order[j] == order[..n][j];
  }

  /** Once Bootstrap over a prefix of `order` has failed, the rest of `order`
      adds no call and keeps the failure. */
  lemma {:induction false} BootstrapStopsAtFailure(d: Dialect, adapters: map<string, EntityAdapter>, order: seq<string>,
                                                   settings: Result<Option<ConnectionSettings>, SpiderError>, b: DbBehaviour, n: nat)
    requires n <= |order| && InRegistry(adapters, order)
    requires Bootstrap(d, adapters, order[..n], settings, b).result.Failure?
    ensures Bootstrap(d, adapters, order, settings, b) == Bootstrap(d, adapters, order[..n], settings, b)
    decreases |order| - n
  {
    if n < |order| {
      var init := order[..|order| - 1];
      assert init[..n] == order[..n];
      BootstrapStopsAtFailure(d, adapters, init, settings, b, n);
    } else {
      assert order[..n] == order;
    }
  }

  // ------------------------------------------------------ refresher outcomes

  /** When the getter answers null and a refresher is set, InitPipeline goes on
      with the settings of the refresher's first call that does not throw, if
      that call comes within five and returns non-null settings; it raises
      RefreshFailed when that call returns null. */
  lemma RefreshStopsAtFirstReturn(cache: Option<ConnectionSettings>, src: SettingsSource, v: RefresherView, m: nat)
    requires Resolve(cache, src) == Success(None)
    requires m < 5 && v.outcomes(v.calls + m).Returns?
    requires forall k :: v.calls <= k < v.calls + m ==> v.outcomes(k).Throws?
    ensures var res := InitResolution(cache, src, Some(v));
      var got := v.outcomes(v.calls + m).settings;
      && res.attempts == m + 1
      && res.cache == got
      && res.settings == if got.Some? then Success(got.value) else Failure(RefreshFailed)
  {
    RetryStopsAt(v.outcomes, v.calls, m);
  }

  /** Five throwing calls in a row: the refresher is called five times and
      InitPipeline raises RefreshFailed. */
  lemma RefreshAllThrow(cache: Option<ConnectionSettings>, src: SettingsSource, v: RefresherView)
    requires Resolve(cache, src) == Success(None)
    requires forall k :: v.calls <= k < v.calls + 5 ==> v.outcomes(k).Throws?
    ensures InitResolution(cache, src, Some(v)) == Resolution(Failure(RefreshFailed), None, 5)
  {
    RetryStopsAt(v.outcomes, v.calls, 4);
  }

  // ---------------------------------------------------- connection discipline

  lemma {:induction false} OpensClosesAppend(a: seq<DbCall>, b: seq<DbCall>)
    ensures Opens(a + b) == Opens(a) + Opens(b)
    ensures Closes(a + b) == Closes(a) + Closes(b)
    decreases |b|
  {
    if b == [] {
      assert a + b == a;
    } else {
      var b' := b[..|b| - 1];
      OpensClosesAppend(a, b');
      assert (a + b)[..|a + b| - 1] == a + b';
      assert (a + b)[|a + b| - 1] == b[|b| - 1];
    }
  }

  /** One adapter's using block opens one connection and releases it. */
  lemma BootstrapAdapterConnections(d: Dialect, a: EntityAdapter, s: ConnectionSettings, b: DbBehaviour)
    ensures Opens(BootstrapAdapter(d, a, s, b).calls) == 1
    ensures Closes(BootstrapAdapter(d, a, s, b).calls) == 1
  {
    var calls := BootstrapAdapter(d, a, s, b).calls;
    var n := |calls|;
    var middle := calls[1..n - 1];
    assert calls == [calls[0]] + middle + [calls[n - 1]];
    assert Opens(middle) == 0 && Closes(middle) == 0 by {
      NoOpenNoClose(middle);
    }
    OpensClosesAppend([calls[0]], middle);
    OpensClosesAppend([calls[0]] + middle, [calls[n - 1]]);
    assert Opens([calls[0]]) == 1 && Closes([calls[0]]) == 0 by {
      assert [calls[0]][..0] == [];
    }
    assert Opens([calls[n - 1]]) == 0 && Closes([calls[n - 1]]) == 1 by {
      assert [calls[n - 1]][..0] == [];
    }
  }

  lemma {:induction false} NoOpenNoClose(calls: seq<DbCall>)
    requires forall i :: 0 <= i < |calls| ==> !calls[i].Opened? && !calls[i].Closed?
    ensures Opens(calls) == 0 && Closes(calls) == 0
    decreases |calls|
  {
    if calls != [] {
      NoOpenNoClose(calls[..|calls| - 1]);
    }
  }

  /** InitDatabaseAndTable releases every connection it opens; when it succeeds it
      has opened exactly one per insert-mode adapter, and with no insert-mode
      adapter it touches the database not at all. */
  lemma {:induction false} BootstrapConnections(d: Dialect, adapters: map<string, EntityAdapter>, order: seq<string>,
                                                settings: Result<Option<ConnectionSettings>, SpiderError>, b: DbBehaviour)
    requires InRegistry(adapters, order)
    ensures var t := Bootstrap(d, adapters, order, settings, b);
      && Opens(t.calls) == Closes(t.calls) <= InsertModeCount(adapters, order)
      && (t.result.Success? ==> Opens(t.calls) == InsertModeCount(adapters, order))
      && (InsertModeCount(adapters, order) == 0 ==> t == Trace([], Success(())))
    decreases |order|
  {
    if order != [] {
      var init := order[..|order| - 1];
      assert InRegistry(adapters, init);
      BootstrapConnections(d, adapters, init, settings, b);
      var prev := Bootstrap(d, adapters, init, settings, b);
      var a := adapters[order[|order| - 1]];
      if prev.result.Success? && a.insertModel && settings.Success? && settings.value.Some? {
        var t := BootstrapAdapter(d, a, settings.value.value, b);
        OpensClosesAppend(prev.calls, t.calls);
        BootstrapAdapterConnections(d, a, settings.value.value, b);
      }
    }
  }

  // ------------------------------------------------- registration to dispatch

  /** A newly registered entity's batches go to its update SQL when its table has
      update columns and to its insert SQL otherwise, each generated by the dialect. */
  lemma ProcessAfterAddEntity(d: Dialect, adapters: map<string, EntityAdapter>, def: EntityDefine,
                              batch: seq<DataObject>, s: ConnectionSettings, b: DbBehaviour)
    requires RegistryWellFormed(adapters) && def.name !in adapters && def.tableInfo.Some? && |batch| > 0
    ensures var reg := Register(d, adapters, Some(def)).value;
      var a := NewAdapter(d, def.tableInfo.value, def.columns);
      var t := Dispatch(reg, def.name, Some(batch), Success(Some(s)), b);
      && t.calls == [Opened(s), BatchExecuted(ExecutedSql(a), batch), Closed]
      && (HasUpdateColumns(def.tableInfo.value) ==> ExecutedSql(a) == d.updateSql(EntityAdapter(def.tableInfo.value, def.columns, None, None, a.selectSql, true)))
      && (!HasUpdateColumns(def.tableInfo.value) ==>
            ExecutedSql(a) == d.insertSql(EntityAdapter(def.tableInfo.value, def.columns, None, None, None, true)))
  {
  }

  /** Every registered entity keeps the update columns it was registered with. */
  lemma UpdateColumnsAfterAddEntity(d: Dialect, adapters: map<string, EntityAdapter>, def: EntityDefine)
    requires def.name !in adapters && def.tableInfo.Some?
    ensures UpdateColumnsOf(Register(d, adapters, Some(def)).value, def.name) == def.tableInfo.value.updateColumns
  {
  }

  // -------------------------------------------------------- provider selection

  /** Each pipeline kind is selected by its own provider name. */
  lemma SelectsNamedPipeline(k: PipelineKind, connectionString: Option<string>, defaultConnectString: Option<string>)
    requires k != NullPipeline && (k.MongoDbEntityPipeline? ==> k.connectString == defaultConnectString)
    ensures GetPipelineFromAppConfig(Some(ConnectionSettings(ProviderName(k), connectionString)), defaultConnectString) == Some(k)
  {
  }
}
