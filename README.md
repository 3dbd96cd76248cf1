# DotnetSpider entity persistence and target-URL rules, in Dafny

This project models two parts of DotnetSpider's entity layer and proves
properties of them.

- **BaseEntityDbPipeline** (`entity_db_pipeline.dfy`): the database side of the
  entity pipeline.
  - `AddEntity` registers an entity adapter. An entity whose table has update
    columns gets select and update SQL and goes into update mode. Every adapter
    gets insert SQL.
  - The `ConnectionStringSettings` getter resolves the connection settings
    lazily and caches them. An explicit connect string is preferred to the
    process default, and the getter throws when neither exists.
  - `InitPipeline` falls back on an `IUpdateConnectString` refresher, trying it
    at most five times.
  - `InitDatabaseAndTable` creates the database (when the existence probe
    answers 0) and the table for every insert-mode adapter.
  - `Process` sends a batch to the adapter's insert or update SQL.
  - `GetPipelineFromAppConfig` picks a backend from the provider name.
  - `GetUpdateColumns` answers a table's update columns.
- **EntityProcessor** (`entity_processor.dfy`, with `text.dfy`):
  - The constructor compiles the entity's target-URL rules. Each rule's XPaths
    and patterns are trimmed and de-duplicated. One extractor is registered per
    XPath, or a single pattern-only extractor when there are no XPaths.
  - `Handle` hands a non-empty record list to the page's result items.

How the source is modelled:

- **Null**: a C# `null` is `None` of an `Option`.
- **Exceptions**: a member that can throw returns a `Result`. Each kind of
  exception has its own `SpiderError` (`wrappers.dfy`). `NullReference` stands
  for the `GetDbConnection` call on null settings, in InitDatabaseAndTable
  (`BaseEntityDbPipeline.cs:145`) and in Process (`:170`).
- **State**: the fields the source updates in place are fields of classes.
  - `BaseEntityDbPipeline` holds the adapter registry (a `map`) and the cached
    settings.
  - `EntityProcessor` holds its list of target-URL registrations.
  - `Page` holds its result items.
  - `Database` holds the log of calls made on it.
  - `Refresher` holds its call count.
- **Specification functions**: each method is proved against a pure function
  (`Register`, `Resolve`, `InitResolution`, `Bootstrap`, `Dispatch`,
  `CompileRules`, `Attachment`), and the lemmas state the source's promises
  about those functions.
- **Abstract SQL dialect**: the abstract SQL generators and
  `CreateConnectionStringSettings` are the function fields of a `Dialect`. Each
  generator receives the adapter as it stands at the call. Update SQL, for
  example, sees the select SQL but not yet the insert SQL.
- **Database**: opening a connection, scalar queries, executions and disposal
  are entries in a call log. The server version, scalar answers and row counts
  come from a `DbBehaviour`.
- **Ambient settings**: `Env.DataConnectionStringSettings` and
  `Env.DataConnectionString` are passed in as parameters.
- **Enumeration order**: the order in which the concurrent dictionary
  enumerates its adapters is a parameter `order`, constrained to list every
  registered name exactly once.

Details of the code that the model keeps:

- A target-URL rule is rejected only when both its lists are null
  (`EntityProcessor.cs:30-33`). A rule with two empty lists registers nothing
  and raises nothing (`EmptyRulesRegisterNothing`).
- `GetPipelineFromAppConfig` returns null, not a `NullPipeline`, when there is
  no default configuration (`BaseEntityDbPipeline.cs:187-190`). A null provider
  name falls to the `default` branch and gives a `NullPipeline`.
- After the retry loop, the final null check reads the getter again
  (`BaseEntityDbPipeline.cs:125`). With nothing stored, that read re-runs the
  resolution. `InitResolution` models this second read.

## Model

| member | source | states |
|---|---|---|
| Text.Trim | src/DotnetSpider.Extension/Processor/EntityProcessor.cs:28-29 | the result has no white space at either end and is no longer than the input |
| Text.TrimSpec | src/DotnetSpider.Extension/Processor/EntityProcessor.cs:28-29 | the trimmed string is what is left of the input after cutting off a white-space prefix and a white-space suffix |
| Text.TrimAll | src/DotnetSpider.Extension/Processor/EntityProcessor.cs:28-29 | `Select(x => x?.Trim())`: the same length, null elements stay null in place, every other element is trimmed |
| Text.Distinct | src/DotnetSpider.Extension/Processor/EntityProcessor.cs:28-29 | the result has no repeated value and has exactly the input's values |
| Text.Normalise | src/DotnetSpider.Extension/Processor/EntityProcessor.cs:28-29 | trim then de-duplicate: no repeated value, exactly the trimmed values, every non-null element trimmed, empty exactly when the input is empty |
| Text.TrimIdempotent | src/DotnetSpider.Extension/Processor/EntityProcessor.cs:28-29 | trimming twice is trimming once |
| Text.DistinctOfDistinct | src/DotnetSpider.Extension/Processor/EntityProcessor.cs:28-29 | a list without repeated values is its own Distinct |
| Text.DistinctExtends | src/DotnetSpider.Extension/Processor/EntityProcessor.cs:28-29 | Distinct keeps first occurrences: the Distinct of a prefix is a prefix of the Distinct of the whole |
| Text.NormaliseIdempotent | src/DotnetSpider.Extension/Processor/EntityProcessor.cs:28-29 | normalising a normalised list changes nothing |
| EntityProcessors.NormaliseList | src/DotnetSpider.Extension/Processor/EntityProcessor.cs:28-29 | a null list stays null; a list becomes one without repeated values, empty exactly when it was empty |
| EntityProcessors.PerRegion | src/DotnetSpider.Extension/Processor/EntityProcessor.cs:36-39 | one extractor per region, with the regions in order, each carrying the same patterns |
| EntityProcessors.CompileSelector | src/DotnetSpider.Extension/Processor/EntityProcessor.cs:28-47 | a rule fails exactly when both lists are null, and then with the null-region-and-patterns error |
| EntityProcessors.CompileSelectorRegistrations | src/DotnetSpider.Extension/Processor/EntityProcessor.cs:34-47 | every registration of a rule carries its normalised patterns; nothing is registered exactly when both lists are null or empty; with XPaths, the regions are the normalised XPaths in first-occurrence order; without them, at most one registration, for the whole page |
| EntityProcessors.CompileAll | src/DotnetSpider.Extension/Processor/EntityProcessor.cs:26-48 | a list of rules fails exactly when one of its rules has both lists null |
| EntityProcessors.CompileAllStep | src/DotnetSpider.Extension/Processor/EntityProcessor.cs:26-48 | one more rule appends its registrations to those of the rules before it, or makes the list fail when both its lists are null |
| EntityProcessors.CompileRules | src/DotnetSpider.Extension/Processor/EntityProcessor.cs:24-49 | a null or empty rule list registers nothing; otherwise it fails exactly when some rule has both lists null |
| EntityProcessors.CompileAllSnoc | src/DotnetSpider.Extension/Processor/EntityProcessor.cs:26-48 | a rule added at the end of a list without null rules appends its own registrations |
| EntityProcessors.CompileAllAppend | src/DotnetSpider.Extension/Processor/EntityProcessor.cs:26-48 | rules compile independently and in order: the registrations of two lists one after the other are the first list's followed by the second's |
| EntityProcessors.EmptyRulesRegisterNothing | src/DotnetSpider.Extension/Processor/EntityProcessor.cs:30-47 | any number of rules whose two lists are present but empty neither throw nor register anything |
| EntityProcessors.NormaliseSingle | src/DotnetSpider.Extension/Processor/EntityProcessor.cs:28-29 | a one-element list whose element is already trimmed normalises to itself |
| EntityProcessors.SingleXPathSelector | src/DotnetSpider.Extension/Processor/EntityProcessor.cs:34-40 | a rule with one trimmed XPath and null patterns registers exactly one extractor, for that XPath, with null patterns |
| EntityProcessors.SingleXPathRule | src/DotnetSpider.Extension/Processor/EntityProcessor.cs:24-40 | one rule with one trimmed XPath and null patterns registers exactly one extractor, for that XPath, with null patterns |
| EntityProcessors.Attachment | src/DotnetSpider.Extension/Processor/EntityProcessor.cs:61-66 | a list is handed on exactly when it is non-null and non-empty, and then unchanged |
| EntityProcessors.Page.AddResultItem | src/DotnetSpider.Extension/Processor/EntityProcessor.cs:66 | the list is stored under the key; all other result items stay as they were |
| EntityProcessors.EntityProcessor.AddTargetUrlExtractor | src/DotnetSpider.Extension/Processor/EntityProcessor.cs:38 | one registration is appended to the processor's list |
| EntityProcessors.EntityProcessor.AddPerRegion | src/DotnetSpider.Extension/Processor/EntityProcessor.cs:36-39 | the inner loop appends one registration per region, in order, each with the same patterns |
| EntityProcessors.EntityProcessor.AddTargetUrlRule | src/DotnetSpider.Extension/Processor/EntityProcessor.cs:28-47 | one rule appends exactly what CompileSelector says, or raises its exception and appends nothing |
| EntityProcessors.EntityProcessor.AddTargetUrlRuleAt | src/DotnetSpider.Extension/Processor/EntityProcessor.cs:26-48 | one pass of the constructor's loop extends the registrations to those of one more rule, or fails only when the rule list has a rule with both lists null |
| EntityProcessors.EntityProcessor.AddTargetUrlRules | src/DotnetSpider.Extension/Processor/EntityProcessor.cs:24-49 | the constructor's loop appends exactly CompileRules's registrations, or fails exactly when CompileRules does |
| EntityProcessors.EntityProcessor.FinalList | src/DotnetSpider.Extension/Processor/EntityProcessor.cs:54-59 | the extracted list as it is when no data handler is set, and the handler's answer for the extracted list and the page when one is |
| EntityProcessors.EntityProcessor.Handle | src/DotnetSpider.Extension/Processor/EntityProcessor.cs:52-67 | the data handler is applied only when set; the page gains the list under the extractor's name exactly when the final list is non-null and non-empty, and is untouched otherwise |
| EntityProcessors.NewEntityProcessor | src/DotnetSpider.Extension/Processor/EntityProcessor.cs:20-50 | construction fails exactly when some rule has both lists null; otherwise the new processor's registrations are exactly CompileRules's |
| EntityDbPipelines.NewAdapter | src/DotnetSpider.Extension/Pipeline/BaseEntityDbPipeline.cs:88-97 | the adapter keeps the table and columns, always has insert SQL, is in update mode exactly when the table has update columns, and has select and update SQL exactly in update mode |
| EntityDbPipelines.Register | src/DotnetSpider.Extension/Pipeline/BaseEntityDbPipeline.cs:75-99 | a null entity throws; an entity without table info leaves the registry as it is; existing registrations are kept (first registration wins); only the entity's own name can be added, and it is added when the entity has table info; well-formed adapters stay well-formed |
| EntityDbPipelines.UpdateColumnsOf | src/DotnetSpider.Extension/Pipeline/BaseEntityDbPipeline.cs:227-234 | a registered entity's update columns, and null for an unknown name |
| EntityDbPipelines.UpdateColumnsAfterAddEntity | src/DotnetSpider.Extension/Pipeline/BaseEntityDbPipeline.cs:227-234 | after a new entity is registered, GetUpdateColumns answers the update columns of its table |
| EntityDbPipelines.Resolve | src/DotnetSpider.Extension/Pipeline/BaseEntityDbPipeline.cs:41-63 | a stored value is returned as it is; the getter throws exactly when nothing is stored and neither an explicit connect string nor a default exists; an explicit connect string is preferred to the default |
| EntityDbPipelines.CachedAfter | src/DotnetSpider.Extension/Pipeline/BaseEntityDbPipeline.cs:43-62 | after a read, the field holds what the read answered, or is unchanged when the read threw |
| EntityDbPipelines.ResolveCached | src/DotnetSpider.Extension/Pipeline/BaseEntityDbPipeline.cs:43-62 | reading the getter again after it stored its value gives the same answer and stores nothing new |
| EntityDbPipelines.AttemptsFrom | src/DotnetSpider.Extension/Pipeline/BaseEntityDbPipeline.cs:111-123 | from attempt i, the loop makes more than i and at most five calls in all, the calls before its last one threw, and it stops early only on a call that returned |
| EntityDbPipelines.RetryAttempts | src/DotnetSpider.Extension/Pipeline/BaseEntityDbPipeline.cs:111-123 | the retry loop makes between one and five GetNew calls, every one but the last threw, and it stops before the fifth only at a call that returned |
| EntityDbPipelines.RetryStopsAt | src/DotnetSpider.Extension/Pipeline/BaseEntityDbPipeline.cs:111-123 | when attempts before m threw and attempt m returned (or m is the fifth), the loop makes m + 1 calls and keeps attempt m's settings (none when it threw) |
| EntityDbPipelines.AttemptsFromStopsAt | src/DotnetSpider.Extension/Pipeline/BaseEntityDbPipeline.cs:111-123 | the same, counted from any attempt up to m |
| EntityDbPipelines.RetryResult | src/DotnetSpider.Extension/Pipeline/BaseEntityDbPipeline.cs:111-123 | settings kept by the retry loop, when non-null, are those of the first call that did not throw, within five calls |
| EntityDbPipelines.InitResolution | src/DotnetSpider.Extension/Pipeline/BaseEntityDbPipeline.cs:103-130 | the getter's exception ends initialisation with the cache as it was; a non-null answer is used as it is with no refresher call; the refresher is consulted only when the getter answers null, at most five times; with no refresher that case throws; on success the cache holds the settings used |
| EntityDbPipelines.RefreshStopsAtFirstReturn | src/DotnetSpider.Extension/Pipeline/BaseEntityDbPipeline.cs:103-128 | when the first m calls throw and call m + 1 returns (m < 5), the refresher is called m + 1 times and initialisation goes on with what it returned, or throws when that is null |
| EntityDbPipelines.RefreshAllThrow | src/DotnetSpider.Extension/Pipeline/BaseEntityDbPipeline.cs:111-128 | when five calls in a row throw, the refresher is called five times and initialisation throws |
| EntityDbPipelines.BootstrapAdapter | src/DotnetSpider.Extension/Pipeline/BaseEntityDbPipeline.cs:145-157 | a connection is opened first and disposed last on every path; the existence probe comes first; it fails exactly when the probe's answer is outside Int16, and then nothing is executed between the probe and the disposal; on success the table is created, preceded by the create-database statement exactly when the probe answers 0 and by nothing else otherwise |
| EntityDbPipelines.BootstrapAdapterConnections | src/DotnetSpider.Extension/Pipeline/BaseEntityDbPipeline.cs:145-157 | one adapter's block opens exactly one connection and disposes exactly one |
| EntityDbPipelines.Bootstrap | src/DotnetSpider.Extension/Pipeline/BaseEntityDbPipeline.cs:139-158 | InitDatabaseAndTable given the getter's answer: a getter that throws or answers null stops it before any connection is opened; its only exceptions are the getter's, GetDbConnection's on null settings (NullReference) and the probe overflow |
| EntityDbPipelines.BootstrapStep | src/DotnetSpider.Extension/Pipeline/BaseEntityDbPipeline.cs:139-158 | one more adapter: update-mode adapters and any adapter after a failure add nothing; an insert-mode one adds its block, or the getter's exception |
| EntityDbPipelines.BootstrapStopsAtFailure | src/DotnetSpider.Extension/Pipeline/BaseEntityDbPipeline.cs:139-158 | after the first failure, the remaining adapters add no call and the failure stands |
| EntityDbPipelines.BootstrapConnections | src/DotnetSpider.Extension/Pipeline/BaseEntityDbPipeline.cs:139-158 | every connection opened is disposed; no more connections are opened than there are insert-mode adapters, exactly that many on success; with no insert-mode adapter nothing is done at all |
| EntityDbPipelines.AnyInsertModeStep | src/DotnetSpider.Extension/Pipeline/BaseEntityDbPipeline.cs:141-145 | a prefix one longer has an insert-mode adapter exactly when the shorter prefix or the new adapter has one |
| EntityDbPipelines.AnyInsertModePrefix | src/DotnetSpider.Extension/Pipeline/BaseEntityDbPipeline.cs:141-145 | an insert-mode adapter in a prefix of the order is one of the whole order |
| EntityDbPipelines.ExecutedSql | src/DotnetSpider.Extension/Pipeline/BaseEntityDbPipeline.cs:172-179 | the insert SQL in insert mode and the update SQL in update mode |
| EntityDbPipelines.Dispatch | src/DotnetSpider.Extension/Pipeline/BaseEntityDbPipeline.cs:161-183 | a null or empty batch or an unknown entity gives 0 and opens no connection; otherwise the getter's exception reaches the caller, GetDbConnection on a null answer throws NullReference with no connection, and resolved settings open one connection with those settings, execute the adapter's SQL once with the whole batch and dispose of it, and the result is that execution's row count |
| EntityDbPipelines.ProcessAfterAddEntity | src/DotnetSpider.Extension/Pipeline/BaseEntityDbPipeline.cs:88-98 | a newly registered entity's batch is executed with its generated update SQL when its table has update columns and with its generated insert SQL otherwise |
| EntityDbPipelines.GetPipelineFromAppConfig | src/DotnetSpider.Extension/Pipeline/BaseEntityDbPipeline.cs:185-221 | null exactly when there is no default configuration; a known provider selects the pipeline it names; any other provider, null included, selects the NullPipeline; MongoDB is given the default connection string |
| EntityDbPipelines.SelectsNamedPipeline | src/DotnetSpider.Extension/Pipeline/BaseEntityDbPipeline.cs:192-213 | each pipeline kind is what its own provider name selects |
| EntityDbPipelines.BaseEntityDbPipeline.constructor | src/DotnetSpider.Extension/Pipeline/BaseEntityDbPipeline.cs:69-73 | the connect string and the flag are stored; no settings are cached, no adapter is registered and no refresher is set |
| EntityDbPipelines.BaseEntityDbPipeline.GetConnectionStringSettings | src/DotnetSpider.Extension/Pipeline/BaseEntityDbPipeline.cs:41-63 | answers Resolve of the stored value and leaves the field as CachedAfter says |
| EntityDbPipelines.BaseEntityDbPipeline.SetConnectionStringSettings | src/DotnetSpider.Extension/Pipeline/BaseEntityDbPipeline.cs:64 | the field holds the given value |
| EntityDbPipelines.BaseEntityDbPipeline.AddEntity | src/DotnetSpider.Extension/Pipeline/BaseEntityDbPipeline.cs:75-99 | the registry becomes what Register says, or stays the same when AddEntity throws; the registry stays well-formed |
| EntityDbPipelines.BaseEntityDbPipeline.GetUpdateColumns | src/DotnetSpider.Extension/Pipeline/BaseEntityDbPipeline.cs:227-234 | agrees with UpdateColumnsOf on the registry |
| EntityDbPipelines.BaseEntityDbPipeline.BootstrapOne | src/DotnetSpider.Extension/Pipeline/BaseEntityDbPipeline.cs:145-157 | the calls made on the database and the outcome are those of BootstrapAdapter |
| EntityDbPipelines.BaseEntityDbPipeline.BootstrapEntry | src/DotnetSpider.Extension/Pipeline/BaseEntityDbPipeline.cs:139-158 | one pass of the loop extends the log and the outcome as Bootstrap over one more adapter does, and reads the getter only for an insert-mode adapter |
| EntityDbPipelines.BaseEntityDbPipeline.InitDatabaseAndTable | src/DotnetSpider.Extension/Pipeline/BaseEntityDbPipeline.cs:137-159 | the calls made and the outcome are Bootstrap's over the registry in enumeration order; the getter's cache is filled exactly when some adapter is in insert mode |
| EntityDbPipelines.BaseEntityDbPipeline.RetryRefresher | src/DotnetSpider.Extension/Pipeline/BaseEntityDbPipeline.cs:111-123 | the retry loop calls GetNew as many times as RetryAttempts says and stores RetryResult |
| EntityDbPipelines.BaseEntityDbPipeline.InitPipeline | src/DotnetSpider.Extension/Pipeline/BaseEntityDbPipeline.cs:101-135 | the refresher is called as many times as InitResolution says; the cache ends as InitResolution says; a failed resolution touches no database; otherwise the bootstrap runs with the resolved settings |
| EntityDbPipelines.BaseEntityDbPipeline.Process | src/DotnetSpider.Extension/Pipeline/BaseEntityDbPipeline.cs:161-183 | the calls made and the result are Dispatch's; the getter is read only for a non-empty batch of a registered entity |

## Left out

- The SQL text of each database backend. The `Generate*Sql` members and
  `CreateConnectionStringSettings` are abstract and are uninterpreted functions
  here. `CreateDbParameter` is not used by the modelled members.
- Real database work. Opening a connection, `MyExecuteScalar` and `MyExecute`
  are entries in a call log. Their answers (the connection's `ServerVersion`,
  the scalar, the affected-row count) are fixed functions of their inputs. A failing
  connection or statement (an exception thrown by the database) is not
  modelled; the one connection failure that is modelled is GetDbConnection on
  null settings, below.
- EntityDbPipelines.Bootstrap and EntityDbPipelines.Dispatch: `GetDbConnection`
  (`BaseEntityDbPipeline.cs:145`, `:170`) is an extension method that is not
  part of this model. On null settings it is assumed to throw before opening
  anything. `NullReference` stands for that exception, whatever its type in the
  source.
- `Convert.ToInt16` of a scalar that is not an integer (`DBNull`, a string, a
  fractional value) is not modelled. The probe's answer is an `int`, and only
  its overflow outside Int16 throws.
- `Thread.Sleep(1000)` between attempts and the text of every `Logger.MyLog`
  call. Neither changes the modelled state.
- EntityDbPipelines.BaseEntityDbPipeline.RetryRefresher: assumes the pipeline's
  `Spider` is already set when a `GetNew` call throws. The `catch` at
  `BaseEntityDbPipeline.cs:120` reads `Spider.Identity` without a null check,
  before `base.InitPipeline(spider)` runs. If `Spider` were still null there,
  the first throwing call would end `InitPipeline` with a null dereference
  instead of retrying. Where `Spider` is set belongs to the base class, which
  is not part of this model.
- The thread-safety of the `ConcurrentDictionary` registry. It is a plain
  `map`, and its enumeration order in `InitDatabaseAndTable` is a parameter.
- `base.InitPipeline(spider)`: the base pipeline class is not part of this
  model, so its effects are not included.
- `CheckIfSameBeforeUpdate`: it is stored by the constructor and never read by
  the modelled members.
- The MongoDB, PostgreSQL, MySQL and SQL Server pipelines beyond which one is
  selected.
- `EntityExtractor<T>` is not part of this model. Its `Extract`, its
  `DataHandler.Handle`, its `Name` and the target-URL rules read from the
  entity type's attributes are parameters of the processor.
- EntityProcessors.EntityProcessor.Handle: the extractor and the data handler
  are modelled as functions of the page's content. In the source,
  `DataHandler.Handle(list, page)` (`EntityProcessor.cs:58`) receives the page
  object itself and may change it, for example by adding result items. The
  model does not capture those effects. "Untouched" in Handle's contract means
  that Handle's own code adds nothing to the page.
- The inherited `AddTargetUrlExtractor` is modelled as appending the call's
  arguments to the processor's list of registrations.
- The `EntityAdapter` constructor is not part of this model. It is assumed to
  start in insert mode with no SQL.
- EntityDbPipelines.Register, EntityDbPipelines.Dispatch and
  EntityDbPipelines.UpdateColumnsOf: entity names are never null (`string`, not
  `Option<string>`). The dictionary behind the registry throws on a null key,
  so `AddEntity` for a null-named entity with table info (`:98`), `Process` of
  a non-empty batch for a null name (`:168`) and `GetUpdateColumns(null)`
  (`:229`) throw in the source. The model does not cover them.
- `IEntityProcessor.EntityDefine`, a null-propagating property read, is not
  modelled.
- EntityProcessors.NewEntityProcessor: does not state what happens to the
  registrations made before a rule throws, because the half-built object is
  never returned to a caller.
- EntityProcessors.CompileAll: its own contract states only when it fails.
  Which extractors it registers is stated by CompileAllStep, CompileAllAppend
  and AddTargetUrlRules.
