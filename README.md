# textql-mcp core, modelled in Dafny

textql-mcp is an MCP server. It runs GraphQL/GQL queries against a graph database and serves
schema information to clients that write their own queries. Most of the repository is glue
around FastMCP, Google Spanner, BigQuery and LangChain. This project models the
self-contained logic inside that glue and proves properties about it.

- **Feature flags** (`feature_flags.dfy`, modules `FeatureFlags` and `FlagCounts`). There is a
  closed set of eight boolean flags. The table is built in three layers:
  - hard-coded defaults;
  - the `feature_flags` section of the configuration;
  - `TEXTQL_FF_*` environment variables.

  `FeatureFlagManager` is a class that holds a `map<Flag, bool>`. Its loaders change that
  table in place. `set_flag` is honoured only while `enable_flag_runtime_updates` is on. The
  `feature_flag_required` gate either refuses with a fixed record or runs the wrapped
  operation unchanged. `check_feature_flag` is the same check, returned as a boolean.
- **Server helpers** (`server.dfy`, module `Server`):
  - the line-scan and last-resort stages of `extract_gql_query`;
  - `result_needs_refinement`;
  - the context-selection rule `get_app_context_or_fallback`;
  - the two gated tools `query_graph` and `get_schema_for_query`: their record shapes and
    the removal of triple backticks.
- **Ambiguity detectors** (`ambiguity.dfy`, module `Ambiguity`). The keyword detector uses a
  substring rule and a word-count rule. The callback detector is cautious when its callback
  fails.
- **Schema providers** (`schema_provider.dfy`, module `SchemaProviders`). The string provider
  and the multi-agent provider: lookup by agent type, and the default-schema rule.
- **Query executors** (`query_executor.dfy`, module `QueryExecutors`):
  - the dummy executor and the callback executor;
  - the Spanner executor, a class with a per-agent database cache;
  - the `LIMIT 100` safety rewrite;
  - the shapes of success and error records.
- **Configuration validator** (`config_check.dfy`, module `ConfigCheck`). `validate_config`
  builds an ordered error list of missing sections and keys.
- **Wikidata loader** (`wikidata.dfy`, module `Wikidata`):
  - the entity-type map;
  - the column layout of entity rows and edge rows;
  - the batched load loop that counts committed rows.

Support modules:
- `Wrappers`: `Option` and `Result`.
- `Values`: JSON/YAML values and Python truthiness.
- `Text`: ASCII `lower`/`upper`, `strip`, `split`/`join`, whitespace words, substring search
  and `replace(p, "")`.
- `Sequences`: distinctness.

Things the source takes from the outside world are parameters of the model:
- the environment, as a `map<string, string>`;
- the parsed configuration;
- the regex matches;
- the Spanner client and its query run;
- `json.dumps`;
- the rows the BigQuery job yields;
- whether a database batch commits.

## Model

| member | source | states |
|---|---|---|
| FeatureFlags.AllFlagsComplete | textql_mcp/core/feature_flags.py:17-34 | `AllFlags` lists every member of the closed set of eight flags |
| FeatureFlags.FlagOf | textql_mcp/core/feature_flags.py:85-91 | turning a string into a flag finds the flag with that name, or reports that no flag has it |
| FeatureFlags.FlagOfName | textql_mcp/core/feature_flags.py:17-34 | every flag's name turns back into that same flag, so names are a lossless key |
| FeatureFlags.NameInjective | textql_mcp/core/feature_flags.py:17-34 | two different flags never share a name |
| FeatureFlags.Defaults | textql_mcp/core/feature_flags.py:65-77 | the default table assigns a value to every flag |
| FeatureFlags.DefaultsAt | textql_mcp/core/feature_flags.py:65-77 | by default exactly `enable_query_graph` and `enable_schema_fetch` are on; the admin, security and experimental flags are off |
| FeatureFlags.ConfigLayer | textql_mcp/core/feature_flags.py:79-91 | applying a config section never removes a flag from the table |
| FeatureFlags.ConfigLayerAt | textql_mcp/core/feature_flags.py:85-91 | after the config layer, a flag named in the section holds `bool(value)` and every other flag keeps its value; unknown keys add nothing |
| FeatureFlags.ConfigLayerEmpty | textql_mcp/core/feature_flags.py:79-91 | an empty section leaves the table as it was |
| FeatureFlags.ConfigLayerUpdate | textql_mcp/core/feature_flags.py:85-91 | adding one more entry to a section has the same effect as applying that entry after the rest, which is one step of the source's loop |
| FeatureFlags.EnvSettingsAt | textql_mcp/core/feature_flags.py:93-106 | the environment sets a flag exactly when `TEXTQL_FF_<UPPER(name)>` is present; the value is true iff the lower-cased variable is "true", "1", "yes" or "on" |
| FeatureFlags.OverlayAt | textql_mcp/core/feature_flags.py:93-106 | after the environment pass, a flag whose variable is set holds the parsed value and every other flag keeps its value |
| FeatureFlags.Resolve | textql_mcp/core/feature_flags.py:50-63 | the table the constructor builds has a value for every flag |
| FeatureFlags.ResolveAt | textql_mcp/core/feature_flags.py:50-106 | each flag resolves to its environment variable when set, else to the config entry when the config is present and non-empty, else to its default |
| FeatureFlags.ResolveDefaults | textql_mcp/core/feature_flags.py:50-77 | with no config and no variables, the table is exactly the defaults (tests/test_feature_flags.py:17-27) |
| FeatureFlags.EnvVarNameQueryGraph | textql_mcp/core/feature_flags.py:48-106 | the variable for `enable_query_graph` is `TEXTQL_FF_ENABLE_QUERY_GRAPH` |
| FeatureFlags.EnvOverridesConfigScenario | tests/test_feature_flags.py:62-79 | config `enable_query_graph: true` with variable `TEXTQL_FF_ENABLE_QUERY_GRAPH=false` resolves to off |
| FeatureFlags.SetFlagChangesOne | textql_mcp/core/feature_flags.py:130-154 | `set_flag` succeeds iff runtime updates are on and the name is a flag. On success only that flag changes, to the given value. On failure nothing changes |
| FeatureFlags.SetFlagIdempotent | textql_mcp/core/feature_flags.py:130-154 | repeating the same `set_flag` call changes nothing more |
| FeatureFlags.SetFlags | textql_mcp/core/feature_flags.py:130-154 | a sequence of `set_flag` calls yields one verdict per call |
| FeatureFlags.LockedTableStaysLocked | textql_mcp/core/feature_flags.py:140-149 | while runtime updates are off, every call of any sequence fails and the table never changes (tests/test_feature_flags.py:81-89) |
| FeatureFlags.LockingIsFinal | textql_mcp/core/feature_flags.py:140-154 | switching `enable_flag_runtime_updates` off succeeds, and every later `set_flag` fails without changing the table |
| FeatureFlags.EnabledInOrder | textql_mcp/core/feature_flags.py:164-170 | two flags of the list that are on are listed in the list's order |
| FeatureFlags.EnabledIn | textql_mcp/core/feature_flags.py:164-170 | the names listed are exactly those of the flags in the list that are on; each is a flag name; no name repeats when the flags are distinct |
| FeatureFlags.FeatureFlagManager.constructor | textql_mcp/core/feature_flags.py:50-63 | the new manager's table is the layered resolution of its config and environment |
| FeatureFlags.FeatureFlagManager.LoadDefaults | textql_mcp/core/feature_flags.py:65-77 | the table is replaced by the defaults |
| FeatureFlags.FeatureFlagManager.LoadFromConfig | textql_mcp/core/feature_flags.py:79-91 | the loop over the section leaves the table as the config layer applied to the old table |
| FeatureFlags.FeatureFlagManager.ApplyConfigEntry | textql_mcp/core/feature_flags.py:85-91 | one entry: a known key sets its flag to `bool(value)`; an unknown key is skipped |
| FeatureFlags.FeatureFlagManager.LoadFromEnv | textql_mcp/core/feature_flags.py:93-106 | the loop over the flags leaves the table as the environment layer applied to the old table |
| FeatureFlags.FeatureFlagManager.IsEnabled | textql_mcp/core/feature_flags.py:115-128 | true iff some flag with that name is in the table and on; false for any name that is not a flag, without failing |
| FeatureFlags.FeatureFlagManager.SetFlag | textql_mcp/core/feature_flags.py:130-154 | returns true iff runtime updates were on and the name is a flag; the new table is the old one with that flag set, or unchanged; agrees with `SetFlagOutcome` |
| FeatureFlags.FeatureFlagManager.GetAllFlags | textql_mcp/core/feature_flags.py:156-162 | the copy maps each flag's name to its value and holds nothing else |
| FeatureFlags.FeatureFlagManager.GetEnabledFeatures | textql_mcp/core/feature_flags.py:164-170 | a name is listed iff its flag is on; every entry is a flag name; no entry repeats; two flags that are on are listed in declaration order |
| FlagCounts.FlagNamesDistinct | textql_mcp/core/feature_flags.py:17-34 | the eight flag names are pairwise different |
| FlagCounts.GetAllFlagsSize | textql_mcp/core/feature_flags.py:156-162 | the copy from `get_all_flags` has exactly as many entries as there are flags (tests/test_feature_flags.py:110-117) |
| FeatureFlags.RefusalFor | textql_mcp/core/feature_flags.py:224-230 | a refusal has `enabled` false and names the flag. Its error is the custom message if one is given and non-empty, else "Feature '<name>' is not enabled" |
| FeatureFlags.Gate | textql_mcp/core/feature_flags.py:215-234 | the gate refuses iff the context carries a manager whose flag is off. The refusal is the fixed record. Otherwise, including when there is no context or no manager, the result is the wrapped operation's result |
| FeatureFlags.CheckFeatureFlag | textql_mcp/core/feature_flags.py:247-261 | false without a context or a manager; otherwise true iff the flag is on (tests/test_feature_flags.py:234-259) |
| FeatureFlags.GateAgreesWithCheck | textql_mcp/core/feature_flags.py:215-261 | with a manager, the gate runs the operation iff `check_feature_flag` is true; without one it always runs |
| FeatureFlags.GateRefusesDisabledScenario | tests/test_feature_flags.py:154-168 | config `enable_query_graph: false` makes the gate return `{"Feature 'enable_query_graph' is not enabled", "enable_query_graph", false}` |
| FeatureFlags.DefaultRefusalMessageQueryGraph | textql_mcp/core/feature_flags.py:224-225 | the default refusal text for `enable_query_graph` spelled out |
| Server.StripAllAt | textql_mcp/core/server.py:192-205 | line i of the stripped lines is line i stripped |
| Server.FirstOpen | textql_mcp/core/server.py:192-199 | finds the first line from a position whose stripped form starts with "{" (or the end); no earlier line opens |
| Server.FirstClose | textql_mcp/core/server.py:200-205 | finds the first line from a position whose stripped form ends with "}" (or the end); no earlier line closes |
| Server.QueryBlock | textql_mcp/core/server.py:192-208 | the collected block is empty iff no stripped line starts with "{" |
| Server.QueryBlockShape | textql_mcp/core/server.py:192-208 | a non-empty block is a contiguous run of original lines. It starts at the first line that opens. It ends at the first closing line from there, or at the end of the text |
| Server.BraceTests | textql_mcp/core/server.py:198-204 | `startswith("{")` on a stripped line is `Opens` and `endswith("}")` is `Closes` |
| Server.ScanLines | textql_mcp/core/server.py:190-205 | the `in_query` loop collects exactly the block described by `QueryBlock` |
| Server.ExtractGqlQuery | textql_mcp/core/server.py:168-211 | the stages in order: the stripped code-block match, the stripped brace match, the joined block of the line scan, then the stripped text |
| Server.NoOpenerGivesStrip | textql_mcp/core/server.py:207-211 | with no match and no opening line, the result is `text.strip()` |
| Server.ExtractedIsInText | textql_mcp/core/server.py:168-211 | whatever stage answers, the extracted query is a substring of the input (given that matches are substrings) |
| Server.BlockIsInText | textql_mcp/core/server.py:207-208 | the joined block of the line scan is a substring of the text |
| Server.ResultNeedsRefinement | textql_mcp/core/server.py:508-535 | the early-exit search returns the verdict `RefinementVerdict`. That verdict is true iff the lower-cased `result` contains one of the six indicators. A missing `result` reads as "". A non-string `result` is an error |
| Server.MissingResultNeedsNoRefinement | textql_mcp/core/server.py:529 | a record without `result` never needs refinement |
| Server.RefinementIgnoresCase | textql_mcp/core/server.py:529-535 | upper- or lower-casing the result text does not change the verdict |
| Server.RefinementSurvivesContext | textql_mcp/core/server.py:530-535 | text that needs refinement still does with anything around it |
| Server.FieldsOf | textql_mcp/core/server.py:233-238 | the four context entries are the application context's fields |
| Server.AppContextOrFallback | textql_mcp/core/server.py:214-274 | fails with "No context available" iff there is no usable lifespan context and no fallback. A lifespan context yields its own fields. Otherwise the fallback's fields are used |
| Server.LifespanWins | textql_mcp/core/server.py:241-248 | with a lifespan context the fallback is irrelevant |
| Server.FallbackCasesAgree | textql_mcp/core/server.py:227-274 | no context, one without `lifespan_ctx`, and one whose attributes raise all behave alike |
| Server.GateContextOf | textql_mcp/core/feature_flags.py:218-223 | the gate sees a manager exactly for a lifespan context, and it is that context's flag table |
| Server.QueryGraph | textql_mcp/core/server.py:355-407 | with the lifespan context's `enable_query_graph` off the tool returns the default refusal. Otherwise it fails with the no-context message exactly when no context is found, and else returns the record of the chosen context's executor output |
| Server.GetSchemaForQuery | textql_mcp/core/server.py:416-447 | with `enable_schema_fetch` off the tool returns the default refusal. Otherwise it fails with the no-context message exactly when no context is found, and else returns the schema record for the query with every triple backtick removed |
| Server.QueryGraphRecord | textql_mcp/core/server.py:401-407 | the record echoes `gql_query` and `agent_type` and takes `result`, `intermediate_steps` and `error` from the executor output, defaulting to "", [] and "" |
| Server.QueryGraphRefusedWhenOff | textql_mcp/core/server.py:355-407 | with `enable_query_graph` off in the lifespan context, `query_graph` returns the default refusal and never consults the executor |
| Server.QueryGraphRunsLifespanExecutor | textql_mcp/core/server.py:379-407 | with the flag on, the record is built from the lifespan context's executor output |
| Server.QueryGraphWithoutContext | textql_mcp/core/server.py:214-232 | with no context and no fallback the gate lets the call through and context selection fails |
| Server.SchemaRecord | textql_mcp/core/server.py:447 | the record holds exactly `query`, `agent_type` and `schema_info` |
| Server.SchemaQueryHasNoFence | textql_mcp/core/server.py:436-447 | the query echoed by `get_schema_for_query` is the input with every "```" removed, and contains none |
| Server.SchemaQueryWithoutFenceUnchanged | textql_mcp/core/server.py:416-447 | a query without "```" is passed to the provider and echoed unchanged |
| Ambiguity.NewSimple | textql_mcp/utils/ambiguity_detector.py:18-36 | no keyword list, or an empty one, gives the default keywords. A non-empty list gives exactly its elements as a set |
| Ambiguity.DefaultKeywordCount | textql_mcp/utils/ambiguity_detector.py:25-36 | there are ten default keywords |
| Ambiguity.IsAmbiguous | textql_mcp/utils/ambiguity_detector.py:39-64 | for the keyword detector: true iff some keyword is in the lower-cased query or the query has fewer than three words. For the callback detector: its answer, or true when it fails |
| Ambiguity.UpperCaseKeywordNeverMatches | textql_mcp/utils/ambiguity_detector.py:50-56 | a keyword containing an upper-case letter can never match, since the query is lower-cased and the keyword is not |
| Ambiguity.CaseInsensitive | textql_mcp/utils/ambiguity_detector.py:50-62 | lower-casing the query does not change the verdict |
| Ambiguity.WordCountIgnoresCase | textql_mcp/utils/ambiguity_detector.py:59-62 | lower-casing does not change the number of whitespace-separated words |
| Ambiguity.DefaultKeywordScenario | textql_mcp/utils/ambiguity_detector.py:25-56 | any query containing "What" is ambiguous to the default detector |
| Ambiguity.FailingCallbackIsCautious | textql_mcp/utils/ambiguity_detector.py:117-132 | a callback that raises makes the query ambiguous |
| SchemaProviders.Lookup | textql_mcp/utils/schema_provider.py:131-132 | a found schema is stored under that agent type; not found means no entry has that key |
| SchemaProviders.LookupExact | textql_mcp/utils/schema_provider.py:131-132 | with unique keys, lookup returns a schema iff that pair is stored |
| SchemaProviders.NewMultiAgent | textql_mcp/utils/schema_provider.py:106-118 | the default is the given one when non-empty. Otherwise it is the first stored schema in insertion order, or "" when there are none |
| SchemaProviders.DefaultDrawnFromInputs | textql_mcp/utils/schema_provider.py:115 | the default schema is the given one, one of the stored schemas, or "" |
| SchemaProviders.GetSchema | textql_mcp/utils/schema_provider.py:89-135 | the string provider returns its stored string. The multi-agent provider returns the stored schema for a known agent type and the default otherwise |
| SchemaProviders.GetSchemaIgnoresQuery | textql_mcp/utils/schema_provider.py:89-135 | the query text never affects the schema returned |
| SchemaProviders.KnownAgentGetsItsSchema | textql_mcp/utils/schema_provider.py:131-132 | a stored agent type gets its own schema |
| SchemaProviders.UnknownAgentGetsDefault | textql_mcp/utils/schema_provider.py:133-135 | an agent type that is not stored gets the default schema |
| SchemaProviders.TwoAgentScenario | tests/test_schema_provider.py:47-87 | with CNE and RNC stored and CNE as default: CNE and RNC get their own schemas, UNKNOWN gets CNE's |
| QueryExecutors.ErrorRecord | textql_mcp/utils/query_executor.py:253-262 | an error record has exactly `result` "", `intermediate_steps` [] and `error` the message |
| QueryExecutors.SuccessRecord | textql_mcp/utils/query_executor.py:244-251 | a success record has exactly `result` (the dumped rows) and `intermediate_steps` [], and no `error` |
| QueryExecutors.Take | textql_mcp/utils/query_executor.py:41-44 | `query[:100]` is the prefix of length min(len, 100) |
| QueryExecutors.DummyExecute | textql_mcp/utils/query_executor.py:29-44 | the dummy result embeds the first 100 characters of the query, is bounded in length, and has empty steps |
| QueryExecutors.DummyIgnoresTail | textql_mcp/utils/query_executor.py:41-44 | queries that agree on their first 100 characters get the same dummy result, whatever the agent type |
| QueryExecutors.CallbackExecute | textql_mcp/utils/query_executor.py:60-81 | the callback's result is returned as is. If the callback raises, the record has `result` "Error executing query: <e>", empty steps and `error` <e> |
| QueryExecutors.DropSemicolon | textql_mcp/utils/query_executor.py:223-224 | one trailing ";" is removed, and nothing else changes |
| QueryExecutors.GuardQuery | textql_mcp/utils/query_executor.py:219-225 | the step-by-step rewrite computes the guarded query |
| QueryExecutors.GuardedQueryCases | textql_mcp/utils/query_executor.py:220-225 | a query mentioning "limit" or "count" (any case) is unchanged. Any other is a substring of itself (stripped, one ";" dropped) followed by " LIMIT 100" |
| QueryExecutors.GuardedQueryIsGuarded | textql_mcp/utils/query_executor.py:220-225 | the executed query always mentions "limit" or "count" |
| QueryExecutors.GuardedQueryIdempotent | textql_mcp/utils/query_executor.py:220-225 | rewriting an already rewritten query changes nothing |
| QueryExecutors.Assign | textql_mcp/utils/query_executor.py:236-237 | `row_dict[k] = v` on an insertion-ordered dictionary grows it by at most one entry |
| QueryExecutors.AssignNames | textql_mcp/utils/query_executor.py:236-237 | an existing key keeps its position; a new key goes last |
| QueryExecutors.AssignValue | textql_mcp/utils/query_executor.py:236-237 | after the assignment the key holds the new value and every other key keeps its old one |
| QueryExecutors.FirstOccurrencesElements | textql_mcp/utils/query_executor.py:233-238 | the first-occurrence order of a list has the list's elements, each once |
| QueryExecutors.FirstOccurrencesOfDistinct | textql_mcp/utils/query_executor.py:233-238 | a list without repeats is its own first-occurrence order |
| QueryExecutors.RowMap | textql_mcp/utils/query_executor.py:233-238 | a row dictionary has at most one entry per field |
| QueryExecutors.RowMapNames | textql_mcp/utils/query_executor.py:233-238 | the row dictionary's keys are the field names in field order, a repeated name keeping the position of its first occurrence |
| QueryExecutors.RowMapAt | textql_mcp/utils/query_executor.py:233-238 | a field name maps to the value at its last position in the field list |
| QueryExecutors.FieldOrderKept | textql_mcp/utils/query_executor.py:233-244 | the dictionaries for fields `b, a` and for `a, b` hold their entries in those two different orders, so the dumped text follows the field order |
| QueryExecutors.RowMaps | textql_mcp/utils/query_executor.py:230-239 | one dictionary per row, in row order |
| QueryExecutors.RowsToDicts | textql_mcp/utils/query_executor.py:230-239 | the conversion loop yields the row dictionaries when every row has a value for every field, and fails (IndexError) otherwise |
| QueryExecutors.RowToDict | textql_mcp/utils/query_executor.py:234-238 | the inner loop builds the row's dictionary, or fails when the row is shorter than the field list |
| QueryExecutors.ExecuteOutcomeShape | textql_mcp/utils/query_executor.py:201-262 | every record of `execute_query` is an error record (with `error`) or a success record (without), and its steps are empty |
| QueryExecutors.ExecuteOutcomeErrors | textql_mcp/utils/query_executor.py:215-262 | a database that cannot be opened, or a query the database rejects, gives the error record with that message |
| QueryExecutors.DatabaseOutcome | textql_mcp/utils/query_executor.py:177-199 | a cached agent type gets its cached handle. Otherwise the client's handle, or "Spanner database initialization failed: <e>" |
| QueryExecutors.SpannerQueryExecutor.constructor | textql_mcp/utils/query_executor.py:153-175 | the identifiers, project, graph name and client are stored, and the cache starts empty |
| QueryExecutors.SpannerQueryExecutor.GetDatabase | textql_mcp/utils/query_executor.py:177-199 | the handle is the `DatabaseOutcome`. A hit leaves the cache unchanged. A miss that opens adds only that agent type. A failed open adds nothing. Each agent type is opened at most once |
| QueryExecutors.SpannerQueryExecutor.ExecuteQuery | textql_mcp/utils/query_executor.py:201-262 | the record is `ExecuteOutcome` of the database lookup. A cached agent type leaves the cache unchanged. On a miss, a handle from the client is cached under the agent type and recorded as loaded; a failing client leaves the cache unchanged |
| QueryExecutors.NewSpannerQueryExecutor | textql_mcp/utils/query_executor.py:129-175 | an empty instance or database id fails with "instance_id and database_id are required.". A failing client fails with "Spanner client initialization failed: <e>". Otherwise the result is a fresh executor with an empty cache |
| QueryExecutors.RepeatedLookupsShareDatabase | textql_mcp/utils/query_executor.py:179-199 | after a successful lookup, a second lookup for the same agent type returns the same handle and opens nothing new |
| ConfigCheck.Require | tests/test_config.py:45-107 | a key check reports nothing iff the key is present, else exactly its one message |
| ConfigCheck.MissingOf | tests/test_config.py:30-40 | at most one message per section, and none iff every listed section is present |
| ConfigCheck.MissingOfMessages | tests/test_config.py:38-40 | each message is "Missing required section: <s>" for a listed section that is absent, and every absent section gets its message |
| ConfigCheck.CheckSections | tests/test_config.py:38-40 | the loop over the required sections builds the messages for the absent ones, in list order |
| ConfigCheck.ValidateConfig | tests/test_config.py:22-109 | the successive appends build the error list: the top-level sections, then gcp, auth, pipeline and server, each checked only when present |
| ConfigCheck.AppendGcp | tests/test_config.py:43-81 | the gcp block appends its project, spanner, bigquery and vertex_ai messages |
| ConfigCheck.AppendSpanner | tests/test_config.py:49-56 | a missing spanner subsection gives its one message; otherwise the instance and database checks |
| ConfigCheck.AppendBigQuery | tests/test_config.py:59-71 | a missing bigquery subsection gives its one message; otherwise the dataset and views checks |
| ConfigCheck.AppendViews | tests/test_config.py:65-71 | missing views gives its one message; otherwise the entities and edges checks |
| ConfigCheck.AppendVertex | tests/test_config.py:74-81 | a missing vertex_ai subsection gives its one message; otherwise the location and model checks |
| ConfigCheck.AppendPipeline | tests/test_config.py:90-97 | a missing ingestion subsection gives its one message; otherwise the batch_size check |
| ConfigCheck.AppendServer | tests/test_config.py:100-107 | a missing mcp subsection gives its one message; otherwise the port check |
| ConfigCheck.GcpClean | tests/test_config.py:43-81 | the gcp checks report nothing iff every gcp key is present |
| ConfigCheck.ValidIffComplete | tests/test_config.py:22-109 | the error list is empty iff every required section and nested key is present |
| ConfigCheck.AbsentSectionAlone | tests/test_config.py:38-107 | dropping one required section from a complete config yields exactly that section's message, with no nested errors |
| ConfigCheck.Without | tests/test_config.py:49-81 | removing a key from a section leaves every other key as it was |
| ConfigCheck.ReplaceGcp | tests/test_config.py:43-81 | in an otherwise complete config, the errors are exactly the gcp block's |
| ConfigCheck.AbsentSpannerAlone | tests/test_config.py:49-50 | a missing `gcp.spanner` yields only "Missing gcp.spanner section" |
| ConfigCheck.AbsentBigQueryAlone | tests/test_config.py:59-60 | a missing `gcp.bigquery` yields only "Missing gcp.bigquery section" |
| ConfigCheck.AbsentViewsAlone | tests/test_config.py:65-66 | a missing `gcp.bigquery.views` yields only "Missing gcp.bigquery.views" |
| ConfigCheck.AbsentVertexAlone | tests/test_config.py:74-75 | a missing `gcp.vertex_ai` yields only "Missing gcp.vertex_ai section" |
| ConfigCheck.ErrorsInBlockOrder | tests/test_config.py:29-109 | the list splits into top-level section messages, then gcp, auth, pipeline and server messages, in that order |
| Wikidata.EntityType | textql_mcp/wikidata/unified_loader.py:31-39 | a mapped class id gets its type name, and "Unknown" is returned iff the id is not mapped |
| Wikidata.EntityTypesOfTheMap | textql_mcp/wikidata/unified_loader.py:31-39 | Q5 is Human, Q43229 is Organization, Q515 is City, and anything else is Unknown |
| Wikidata.EntityTypeOf | textql_mcp/wikidata/unified_loader.py:38-43 | a missing id is "Unknown". An unhashable id raises. Any other result comes from the map |
| Wikidata.TypeSpecific | textql_mcp/wikidata/unified_loader.py:49-53 | the type-specific attributes are all row fields except id, primary_instance_of_id, label and description, with their values |
| Wikidata.TransformEntity | textql_mcp/wikidata/unified_loader.py:41-67 | over JSON-serialisable row values: fails iff `id` is absent (KeyError) or the class id is unhashable; otherwise gives eight values |
| Wikidata.EntityColumnsHold | textql_mcp/wikidata/unified_loader.py:58-67 | the columns in order: id, entity type, label, description, confidence 1.0, ..., commit timestamp |
| Wikidata.TypeSpecificColumn | textql_mcp/wikidata/unified_loader.py:49-54 | the type-specific column is None iff no other field is present; otherwise it is their JSON |
| Wikidata.RawClaimsColumn | textql_mcp/wikidata/unified_loader.py:56 | the raw-claims column is None iff `claims` is absent; otherwise it is the claims' JSON |
| Wikidata.EdgeType | textql_mcp/wikidata/unified_loader.py:72 | a missing label is RELATED_TO. A non-string label raises. The result has no lower-case letter |
| Wikidata.EdgeTypeOfLabel | textql_mcp/wikidata/unified_loader.py:72 | a string label is upper-cased, with its length kept |
| Wikidata.TransformEdge | textql_mcp/wikidata/unified_loader.py:69-91 | over JSON-serialisable row values: a missing `from_id` or `to_id` raises KeyError. Otherwise, given a valid label, the result is nine values |
| Wikidata.EdgeColumnsHold | textql_mcp/wikidata/unified_loader.py:73-91 | the columns in order: from, to, edge type, start, end, role, rank, properties (None iff absent), commit timestamp |
| Wikidata.Batches | textql_mcp/wikidata/unified_loader.py:103-104 | there are no batches exactly when there are no rows |
| Wikidata.BatchSizes | textql_mcp/wikidata/unified_loader.py:103-104 | every batch is non-empty and has at most `batch_size` rows |
| Wikidata.BatchesPartition | textql_mcp/wikidata/unified_loader.py:103-104 | the batches put back together are the rows, in order |
| Wikidata.BatchesFull | textql_mcp/wikidata/unified_loader.py:103-104 | every batch but the last is full |
| Wikidata.BatchIsSlice | textql_mcp/wikidata/unified_loader.py:103-104 | batch j is `rows[j*size : j*size + size]` |
| Wikidata.TransformAllRows | textql_mcp/wikidata/unified_loader.py:111-113 | transforming a batch succeeds iff every row does, and then gives each row's values in order |
| Wikidata.FirstFailure | textql_mcp/wikidata/unified_loader.py:111-129 | the first row that fails decides the batch's error |
| Wikidata.TransformBatch | textql_mcp/wikidata/unified_loader.py:111-113 | the loop over a batch transforms every row in order, stopping at the first failure |
| Wikidata.InsertBatch | textql_mcp/wikidata/unified_loader.py:109-129 | a batch commits iff all its rows transform and the commit succeeds |
| Wikidata.LoadOutcome | textql_mcp/wikidata/unified_loader.py:93-131 | a zero batch size fails (ValueError of `range`). A negative size or a dry run loads 0 |
| Wikidata.LoadBatches | textql_mcp/wikidata/unified_loader.py:103-129 | the loop's count is the total size of the batches that committed |
| Wikidata.LoadRows | textql_mcp/wikidata/unified_loader.py:93-131 | the loader returns `LoadOutcome` |
| Wikidata.LoadEntities | textql_mcp/wikidata/unified_loader.py:93-131 | `load_entities` is the batched load with the entity transform |
| Wikidata.LoadEdges | textql_mcp/wikidata/unified_loader.py:133-174 | `load_edges` is the batched load with the edge transform |
| Wikidata.CommittedAtMostRows | textql_mcp/wikidata/unified_loader.py:103-131 | the count never exceeds the number of rows |
| Wikidata.CommittedAllIff | textql_mcp/wikidata/unified_loader.py:103-131 | the count equals the number of rows iff every batch committed |
| Wikidata.LoadCountBounds | textql_mcp/wikidata/unified_loader.py:93-131 | the loaded count is at most the number of rows. Outside a dry run it equals that number iff every batch loads |

## Left out

- The regex stages of `extract_gql_query` (the fenced code block and the brace pattern) are
  not reproduced. Python regex semantics are not modelled, so each stage is an optional match
  passed in.
- `RegexAmbiguityDetector` is left out for the same reason.
- `LLMQueryExecutor` is left out. It hands the query to a LangChain chain, whose behaviour is
  outside the model.
- The `SPANNER_AVAILABLE` import check (`ImportError`) in the Spanner executor's constructor
  is a property of the installation, not of the logic.
- Constructing the Spanner client, `instance(...).database(...)`, the snapshot's
  `execute_sql` and `json.dumps` are parameters. They are possibly failing functions supplied
  by the caller.
- The Spanner executor's `project_id` and `graph_name` are stored but not used, as in the
  source.
- `load_entities` / `load_edges` build a BigQuery SQL text (with an optional `LIMIT`) and run
  it. That query is left out: the rows it yields are a parameter.
- The database state is not modelled. Whether a batch transaction commits is a parameter;
  a transform error inside the batch aborts it.
- A dry run only logs one message per batch, so the model does not iterate over its batches;
  it returns 0 directly.
- No async wrappers. The `asyncio.iscoroutinefunction` dispatch and the async wrapper of the
  gate are left out, because their check is the same as the sync wrapper's.
- Logging is left out everywhere. So are `tqdm` progress bars and the progress reporting
  inside `query_graph`.
- Out of scope as I/O or framework glue:
  - `load_config`;
  - the FastMCP server construction, registration of the tools and resources, the lifespan
    manager and `run_server`;
  - `print_config_summary` and `main` of the configuration test script.
- `lower()` and `upper()` are ASCII-only. Full Unicode case mapping is out of scope.
- FeatureFlags.FeatureFlagSection: a `feature_flags` section that is not a dictionary is read
  as empty. In Python `.items()` raises `AttributeError` on it, so the manager's constructor
  fails.
- A non-dict configuration value in `validate_config` is read as having no keys. In Python
  some of these raise `TypeError` and others search a string or list.
- Wikidata.TransformEntity: row values are limited to JSON-serialisable ones, so `json.dumps`
  of the type-specific fields or of `claims` never raises here. In the source, a DATE,
  TIMESTAMP, NUMERIC or BYTES value there raises `TypeError`, which aborts the batch. The key
  order of the dumped documents is not modelled either.
- Wikidata.TransformEdge: the same holds for `json.dumps` of `properties`. It never raises
  here, and its key order is not modelled.
- Floating-point values are not modelled. So `bool(0.0)` for a flag in the `feature_flags`
  section, and FLOAT columns in query rows, have no counterpart in the value type.
- Server.QueryGraph: the executor is a total function here. In the source `query_graph`
  calls `execute_query` without a `try`, so an exception inside it would propagate out of
  the tool.
- QueryExecutors.SpannerQueryExecutor.ExecuteQuery: the client is a fixed function of the
  instance and database ids. So a failed open fails again on every retry, and every agent
  type that misses gets the same handle. In the source each miss asks the client again and
  gets a new `Database` object.
- `validate_config` does not modify its input. Dafny values are immutable, so this holds
  by construction rather than as a stated property.
- `is_enabled` and `set_flag` accept either a `FeatureFlag` member or its string value
  (`hasattr(flag, "value")`). Both are modelled by the flag's name, because the enum is a
  `str` enum whose value is that name.
- The environment is a `map<string, string>`. The configuration is the parsed, optional
  dictionary of values. Reading real environment variables and files is left out.
- FeatureFlags.EnabledIn: distinctness of the result is stated only for a list of distinct
  flags. The source only ever passes the table's own keys, which are distinct.
- QueryExecutors.RepeatedLookupsShareDatabase: "at most once per agent type" is stated for
  two lookups in a row, not for arbitrary interleavings of calls.
