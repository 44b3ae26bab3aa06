/** The logic of the MCP server that is not framework glue: pulling a GraphQL
    query out of free text, deciding whether a result calls for a refined
    query, choosing the application context a tool works with, and the records
    the `query_graph` and `get_schema_for_query` tools return. */
module Server {
  import opened Wrappers
  import opened Text
  import opened Values
  import opened Sequences
  import SchemaProviders
  import Ambiguity
  import FeatureFlags

  // ----- extract_gql_query -----

  /** A stripped line that starts with "{" opens the query. */
  predicate Opens(stripped: string) {
    stripped != [] && stripped[0] == '{'
  }

  /** A stripped line that ends with "}" closes the query. */
  predicate Closes(stripped: string) {
    stripped != [] && stripped[|stripped| - 1] == '}'
  }

  /** Every line stripped. */
  function StripAll(lines: seq<string>): (st: seq<string>)
    ensures |st| == |lines|
  {
    if lines == [] then [] else [Strip(lines[0])] + StripAll(lines[1..])
  }

  lemma {:induction false} StripAllAt(lines: seq<string>, i: nat)
    requires i < |lines|
    ensures StripAll(lines)[i] == Strip(lines[i])
  {
    if i > 0 {
      StripAllAt(lines[1..], i - 1);
    }
  }

  /** The first stripped line from `from` on that opens the query, or `|st|`. */
  function FirstOpen(st: seq<string>, from: nat): (k: nat)
    requires from <= |st|
    ensures from <= k <= |st|
    ensures k < |st| ==> Opens(st[k])
    ensures forall j :: from <= j < k ==> !Opens(st[j])
    decreases |st| - from
  {
    if from == |st| || Opens(st[from]) then from else FirstOpen(st, from + 1)
  }

  /** The first stripped line from `from` on that closes the query, or `|st|`. */
  function FirstClose(st: seq<string>, from: nat): (k: nat)
    requires from <= |st|
    ensures from <= k <= |st|
    ensures k < |st| ==> Closes(st[k])
    ensures forall j :: from <= j < k ==> !Closes(st[j])
    decreases |st| - from
  {
    if from == |st| || Closes(st[from]) then from else FirstClose(st, from + 1)
  }

  /** Where the collected block ends: after the first closing line from `s`
      on, or at the end. */
  function BlockEnd(st: seq<string>, s: nat): (e: nat)
    requires s <= |st|
    ensures s <= e <= |st|
  {
    var c := FirstClose(st, s);
    if c < |st| then c + 1 else |st|
  }

  /** The lines the scan collects: from the first opening line up to and
      including the first closing line from there on (or to the end);
      `st` holds the same lines stripped. */
  function QueryBlock(lines: seq<string>, st: seq<string>): (block: seq<string>)
    requires |st| == |lines|
    ensures block == [] <==> forall j :: 0 <= j < |st| ==> !Opens(st[j])
  {
    var s := FirstOpen(st, 0);
    if s == |st| then [] else lines[s..BlockEnd(st, s)]
  }

  /** What `extract_gql_query(text)` returns. `codeBlock` and `braceQuery` are
      the group captured by the code-fence pattern and by the brace pattern,
      when the pattern matches. */
  function ExtractGql(text: string, codeBlock: Option<string>, braceQuery: Option<string>): string {
    if codeBlock.Some? then Strip(codeBlock.value)
    else if braceQuery.Some? then Strip(braceQuery.value)
    else
      var lines := Split(text, '\n');
      var block := QueryBlock(lines, StripAll(lines));
      if block != [] then Join(block, "\n") else Strip(text)
  }

  /** `extract_gql_query`: the two patterns, then the line scan, then the
      stripped text. */
  method ExtractGqlQuery(text: string, codeBlock: Option<string>, braceQuery: Option<string>)
    returns (q: string)
    ensures q == ExtractGql(text, codeBlock, braceQuery)
  {
    if codeBlock.Some? {
      return Strip(codeBlock.value);
    }
    if braceQuery.Some? {
      return Strip(braceQuery.value);
    }
    var lines := Split(text, '\n');
    var queryLines := ScanLines(lines);
    if queryLines != [] {
      return Join(queryLines, "\n");
    }
    return Strip(text);
  }

  /** The source's `startswith("{")` and `endswith("}")` tests are `Opens`
      and `Closes`. */
  lemma BraceTests(stripped: string)
    ensures StartsWith(stripped, "{") == Opens(stripped)
    ensures EndsWith(stripped, "}") == Closes(stripped)
  {
    StartsWithChar(stripped, '{');
    EndsWithChar(stripped, '}');
  }

  /** A line before the first opening line does not open; the first opening
      line does. */
  lemma FirstOpenAt(st: seq<string>, i: nat)
    requires i < |st|
    ensures i < FirstOpen(st, 0) ==> !Opens(st[i])
    ensures i == FirstOpen(st, 0) ==> Opens(st[i])
  {
  }

  /** The block ends just after a closing line with no closing line before
      it, or at the end when no line closes. */
  lemma BlockEndAt(st: seq<string>, s: nat, i: nat)
    requires s <= i <= |st|
    requires i < |st| ==> Closes(st[i])
    requires forall j :: s <= j < i ==> !Closes(st[j])
    ensures BlockEnd(st, s) == if i < |st| then i + 1 else |st|
  {
  }

  /** The line scan of `extract_gql_query`: `in_query` turns on at the first
      opening line, every line from there on is kept, and the scan stops after
      the first closing line it kept. */
  method ScanLines(lines: seq<string>) returns (queryLines: seq<string>)
    ensures queryLines == QueryBlock(lines, StripAll(lines))
  {
    ghost var st := StripAll(lines);
    queryLines := [];
    var inQuery := false;
    ghost var s := FirstOpen(st, 0);
    var i := 0;
    while i < |lines|
      invariant 0 <= i <= |lines|
      invariant inQuery <==> s < i
      invariant queryLines == if s < i then lines[s..i] else []
      invariant s < i ==> forall j :: s <= j < i ==> !Closes(st[j])
    {
      var line := lines[i];
      var stripped := Strip(line);
      StripAllAt(lines, i);
      BraceTests(stripped);
      FirstOpenAt(st, i);
      if StartsWith(stripped, "{") {
        inQuery := true;
      }
      if inQuery {
        SliceSnoc(lines, s, i);
        queryLines := queryLines + [line];
        assert queryLines == lines[s..i + 1];
      }
      if inQuery && EndsWith(stripped, "}") {
        BlockEndAt(st, s, i);
        break;
      }
      i := i + 1;
    }
    if i == |lines| && s < |lines| {
      BlockEndAt(st, s, |lines|);
    }
  }

  /** When no pattern matches and no line opens a query, the stripped text
      comes back. */
  lemma NoOpenerGivesStrip(text: string)
    requires forall j :: 0 <= j < |Split(text, '\n')| ==> !Opens(Strip(Split(text, '\n')[j]))
    ensures ExtractGql(text, None, None) == Strip(text)
  {
    var lines := Split(text, '\n');
    var st := StripAll(lines);
    forall j | 0 <= j < |st| ensures !Opens(st[j]) {
      StripAllAt(lines, j);
    }
  }

  /** The collected block is one run of consecutive lines: it starts at the first
      opening line, and it ends at the first closing line from there on or at
      the last line. */
  lemma QueryBlockShape(lines: seq<string>, st: seq<string>)
    requires |st| == |lines| && QueryBlock(lines, st) != []
    ensures exists s: nat, e: nat ::
      s < e <= |lines| && QueryBlock(lines, st) == lines[s..e]
      && Opens(st[s]) && (forall j :: 0 <= j < s ==> !Opens(st[j]))
      && (forall j :: s <= j < e - 1 ==> !Closes(st[j]))
      && (e == |lines| || Closes(st[e - 1]))
  {
    var s := FirstOpen(st, 0);
    var e := BlockEnd(st, s);
    assert QueryBlock(lines, st) == lines[s..e];
  }

  /** The extracted query never holds text that is not in the input: the
      fallback is a run of whole input lines or the stripped input, and a
      matched group (a piece of the input) is only stripped. */
  lemma ExtractedIsInText(text: string, codeBlock: Option<string>, braceQuery: Option<string>)
    requires codeBlock.Some? ==> Contains(text, codeBlock.value)
    requires braceQuery.Some? ==> Contains(text, braceQuery.value)
    ensures Contains(text, ExtractGql(text, codeBlock, braceQuery))
  {
    if codeBlock.Some? {
      StripIsInfix(codeBlock.value);
      ContainsTrans(text, codeBlock.value, Strip(codeBlock.value));
    } else if braceQuery.Some? {
      StripIsInfix(braceQuery.value);
      ContainsTrans(text, braceQuery.value, Strip(braceQuery.value));
    } else {
      var lines := Split(text, '\n');
      var block := QueryBlock(lines, StripAll(lines));
      if block != [] {
        BlockIsInText(text, lines, StripAll(lines));
      } else {
        StripIsInfix(text);
      }
    }
  }

  /** A non-empty collected block, joined again, is a piece of the text. */
  lemma BlockIsInText(text: string, lines: seq<string>, st: seq<string>)
    requires lines == Split(text, '\n') && |st| == |lines|
    requires QueryBlock(lines, st) != []
    ensures Contains(text, Join(QueryBlock(lines, st), "\n"))
  {
    var s := FirstOpen(st, 0);
    JoinSliceInJoin(lines, s, BlockEnd(st, s), "\n");
    JoinSplit(text, '\n');
  }

  // ----- result_needs_refinement -----

  /** Phrases that mark a result as failed or insufficient. */
  const RefinementIndicators: seq<string> := [
    "no results found", "couldn't find", "no data available",
    "no information", "unable to find", "not in our database"
  ]

  /** The lower-cased text holds one of the indicator phrases. */
  predicate NeedsRefinement(text: string) {
    exists k :: 0 <= k < |RefinementIndicators| && Contains(Lower(text), RefinementIndicators[k])
  }

  /** The verdict on a result record: a missing `result` reads as "", and a
      `result` that is not a string has no `.lower()`, so the call raises (None). */
  function RefinementVerdict(resultData: map<string, Value>): Option<bool> {
    if "result" !in resultData then Some(NeedsRefinement(""))
    else if resultData["result"].Str? then Some(NeedsRefinement(resultData["result"].s))
    else None
  }

  /** `result_needs_refinement`: an early-exit search over the indicators. */
  method ResultNeedsRefinement(resultData: map<string, Value>) returns (r: Option<bool>)
    ensures r == RefinementVerdict(resultData)
  {
    var text: string;
    if "result" !in resultData {
      text := "";
    } else if resultData["result"].Str? {
      text := resultData["result"].s;
    } else {
      return None;
    }
    var resultText := Lower(text);
    var i := 0;
    while i < |RefinementIndicators|
      invariant 0 <= i <= |RefinementIndicators|
      invariant forall j :: 0 <= j < i ==> !Contains(resultText, RefinementIndicators[j])
    {
      if Contains(resultText, RefinementIndicators[i]) {
        return Some(true);
      }
      i := i + 1;
    }
    return Some(false);
  }

  /** A record without a `result` never needs refinement. */
  lemma MissingResultNeedsNoRefinement(resultData: map<string, Value>)
    requires "result" !in resultData
    ensures RefinementVerdict(resultData) == Some(false)
  {
    forall k | 0 <= k < |RefinementIndicators|
      ensures !Contains(Lower(""), RefinementIndicators[k])
    {
      assert RefinementIndicators[k] != [];
    }
  }

  /** The verdict does not depend on letter case. */
  lemma RefinementIgnoresCase(text: string)
    ensures NeedsRefinement(Upper(text)) == NeedsRefinement(text)
    ensures NeedsRefinement(Lower(text)) == NeedsRefinement(text)
  {
    assert Lower(Upper(text)) == Lower(text);
    LowerIdempotent(text);
  }

  /** Text around a result that needs refinement does not take that away. */
  lemma RefinementSurvivesContext(prefix: string, text: string, suffix: string)
    requires NeedsRefinement(text)
    ensures NeedsRefinement(prefix + text + suffix)
  {
    var k :| 0 <= k < |RefinementIndicators| && Contains(Lower(text), RefinementIndicators[k]);
    LowerConcat(prefix + text, suffix);
    LowerConcat(prefix, text);
    ContainsInRight(Lower(prefix), Lower(text), RefinementIndicators[k]);
    ContainsInLeft(Lower(prefix) + Lower(text), Lower(suffix), RefinementIndicators[k]);
  }

  // ----- get_app_context_or_fallback -----

  /** The application context of the lifespan manager; the query executor is
      left abstract. */
  datatype AppContext<E> = AppContext(
    config: map<string, Value>,
    schemaProvider: SchemaProviders.Provider,
    queryExecutor: E,
    ambiguityDetector: Ambiguity.Detector,
    featureFlags: FeatureFlags.FlagTable)

  /** The four-entry dictionary a tool works with. */
  datatype ContextFields<E> = ContextFields(
    config: map<string, Value>,
    schemaProvider: SchemaProviders.Provider,
    queryExecutor: E,
    ambiguityDetector: Ambiguity.Detector)

  /** The `ctx` a tool receives: none, one whose `lifespan_ctx` is an
      application context, one without `lifespan_ctx`, or one whose
      `lifespan_ctx` lacks the application-context attributes (reading them
      raises), `feature_flags` among them. A `lifespan_ctx` that has
      `feature_flags` but lacks another of the five attributes is not
      represented. */
  datatype ToolContext<E> =
    | Absent
    | WithLifespan(app: AppContext<E>)
    | WithoutLifespan
    | IncompleteLifespan

  function FieldsOf<E>(app: AppContext<E>): (f: ContextFields<E>)
    ensures f.config == app.config && f.schemaProvider == app.schemaProvider
    ensures f.queryExecutor == app.queryExecutor && f.ambiguityDetector == app.ambiguityDetector
  {
    ContextFields(app.config, app.schemaProvider, app.queryExecutor, app.ambiguityDetector)
  }

  const NoContextMessage: string := "No context available"

  /** `get_app_context_or_fallback(ctx, app_context)`: the lifespan context
      when the tool's context carries one, else the fallback, else a
      `ValueError`. */
  function AppContextOrFallback<E>(ctx: ToolContext<E>, fallback: Option<AppContext<E>>)
    : (r: Result<ContextFields<E>, string>)
    ensures r.Failure? <==> !ctx.WithLifespan? && fallback.None?
    ensures r.Failure? ==> r.error == NoContextMessage
    ensures ctx.WithLifespan? ==> r == Success(FieldsOf(ctx.app))
    ensures !ctx.WithLifespan? && fallback.Some? ==> r == Success(FieldsOf(fallback.value))
  {
    match ctx
    case WithLifespan(app) => Success(FieldsOf(app))
    case _ =>
      if fallback.Some? then Success(FieldsOf(fallback.value)) else Failure(NoContextMessage)
  }

  /** A lifespan context makes the fallback irrelevant. */
  lemma LifespanWins<E>(app: AppContext<E>, f1: Option<AppContext<E>>, f2: Option<AppContext<E>>)
    ensures AppContextOrFallback(WithLifespan(app), f1) == AppContextOrFallback(WithLifespan(app), f2)
  {
  }

  /** Every context without a usable lifespan context is treated alike. */
  lemma FallbackCasesAgree<E>(c1: ToolContext<E>, c2: ToolContext<E>, fallback: Option<AppContext<E>>)
    requires !c1.WithLifespan? && !c2.WithLifespan?
    ensures AppContextOrFallback(c1, fallback) == AppContextOrFallback(c2, fallback)
  {
  }

  // ----- the gated tools -----

  /** The context the feature-flag gate sees: a lifespan context supplies its
      flag manager; one without the attributes has none; no context, or one
      without `lifespan_ctx`, gives the gate nothing to check. */
  function GateContextOf<E>(ctx: ToolContext<E>): (g: FeatureFlags.GateContext)
    ensures g.Manager? <==> ctx.WithLifespan?
    ensures ctx.WithLifespan? ==> g.table == ctx.app.featureFlags
  {
    match ctx
    case WithLifespan(app) => FeatureFlags.Manager(app.featureFlags)
    case IncompleteLifespan => FeatureFlags.NoManager
    case _ => FeatureFlags.NoContext
  }

  /** The record `query_graph` returns: the query and agent type echoed, the
      rest taken from what the executor returned, with "", [] and "" for
      missing entries. */
  function QueryGraphRecord(gqlQuery: string, agentType: string, executorOut: map<string, Value>)
    : (rec: map<string, Value>)
    ensures rec.Keys == {"gql_query", "result", "intermediate_steps", "error", "agent_type"}
    ensures rec["gql_query"] == Str(gqlQuery) && rec["agent_type"] == Str(agentType)
    ensures rec["result"] == (if "result" in executorOut then executorOut["result"] else Str(""))
    ensures rec["intermediate_steps"] ==
      (if "intermediate_steps" in executorOut then executorOut["intermediate_steps"] else List([]))
    ensures rec["error"] == (if "error" in executorOut then executorOut["error"] else Str(""))
  {
    map[
      "gql_query" := Str(gqlQuery),
      "result" := if "result" in executorOut then executorOut["result"] else Str(""),
      "intermediate_steps" :=
        if "intermediate_steps" in executorOut then executorOut["intermediate_steps"] else List([]),
      "error" := if "error" in executorOut then executorOut["error"] else Str(""),
      "agent_type" := Str(agentType)]
  }

  /** The `query_graph` tool behind its `enable_query_graph` gate. `execute`
      stands for the executor's `execute_query`; a failure is the
      `ValueError` of the context selection. */
  function QueryGraph<E>(ctx: ToolContext<E>, fallback: Option<AppContext<E>>,
                         execute: (E, string, string) -> map<string, Value>,
                         gqlQuery: string, agentType: string)
    : (r: FeatureFlags.Gated<Result<map<string, Value>, string>>)
    ensures r.Refused? <==> ctx.WithLifespan? && !FeatureFlags.Lookup(ctx.app.featureFlags, FeatureFlags.QueryGraph)
    ensures r.Refused? ==> r.refusal == FeatureFlags.RefusalFor(FeatureFlags.QueryGraph, None)
    ensures r.Ran? ==> (r.result.Failure? <==> AppContextOrFallback(ctx, fallback).Failure?)
    ensures r.Ran? && r.result.Failure? ==> r.result.error == NoContextMessage
    ensures r.Ran? && r.result.Success? ==>
      r.result.value == QueryGraphRecord(gqlQuery, agentType,
        execute(AppContextOrFallback(ctx, fallback).value.queryExecutor, gqlQuery, agentType))
  {
    var run := (u: ()) =>
      match AppContextOrFallback(ctx, fallback)
      case Failure(e) => Failure(e)
      case Success(fields) =>
        Success(QueryGraphRecord(gqlQuery, agentType, execute(fields.queryExecutor, gqlQuery, agentType)));
    FeatureFlags.Gate(FeatureFlags.QueryGraph, None, run, GateContextOf(ctx), ())
  }

  /** A lifespan context with `enable_query_graph` off refuses, and the
      executor is never consulted. */
  lemma QueryGraphRefusedWhenOff<E>(app: AppContext<E>, fallback: Option<AppContext<E>>,
                                    execute: (E, string, string) -> map<string, Value>,
                                    gqlQuery: string, agentType: string)
    requires !FeatureFlags.Lookup(app.featureFlags, FeatureFlags.QueryGraph)
    ensures QueryGraph(WithLifespan(app), fallback, execute, gqlQuery, agentType)
         == FeatureFlags.Refused(FeatureFlags.RefusalFor(FeatureFlags.QueryGraph, None))
  {
  }

  /** With the flag on, the tool runs the lifespan context's executor on the
      query exactly as given. */
  lemma QueryGraphRunsLifespanExecutor<E>(app: AppContext<E>, fallback: Option<AppContext<E>>,
                                          execute: (E, string, string) -> map<string, Value>,
                                          gqlQuery: string, agentType: string)
    requires FeatureFlags.Lookup(app.featureFlags, FeatureFlags.QueryGraph)
    ensures QueryGraph(WithLifespan(app), fallback, execute, gqlQuery, agentType)
         == FeatureFlags.Ran(Success(QueryGraphRecord(gqlQuery, agentType,
                                                      execute(app.queryExecutor, gqlQuery, agentType))))
  {
  }

  /** Without any context and without a fallback there is no gate, and the
      context selection raises. */
  lemma QueryGraphWithoutContext<E>(execute: (E, string, string) -> map<string, Value>,
                                    gqlQuery: string, agentType: string)
    ensures QueryGraph(Absent, None, execute, gqlQuery, agentType)
         == FeatureFlags.Ran(Failure(NoContextMessage))
  {
  }

  /** The record of `get_schema_for_query` for an already cleaned query. */
  function SchemaRecord(query: string, agentType: string, schemaInfo: string): (rec: map<string, Value>)
    ensures rec.Keys == {"query", "agent_type", "schema_info"}
    ensures rec["query"] == Str(query) && rec["agent_type"] == Str(agentType)
    ensures rec["schema_info"] == Str(schemaInfo)
  {
    map["query" := Str(query), "agent_type" := Str(agentType), "schema_info" := Str(schemaInfo)]
  }

  /** The `get_schema_for_query` tool behind its `enable_schema_fetch` gate:
      the triple backticks are removed before anything else sees the query. */
  function GetSchemaForQuery<E>(ctx: ToolContext<E>, fallback: Option<AppContext<E>>,
                                query: string, agentType: string)
    : (r: FeatureFlags.Gated<Result<map<string, Value>, string>>)
    ensures r.Refused? <==> ctx.WithLifespan? && !FeatureFlags.Lookup(ctx.app.featureFlags, FeatureFlags.SchemaFetch)
    ensures r.Refused? ==> r.refusal == FeatureFlags.RefusalFor(FeatureFlags.SchemaFetch, None)
    ensures r.Ran? ==> (r.result.Failure? <==> AppContextOrFallback(ctx, fallback).Failure?)
    ensures r.Ran? && r.result.Failure? ==> r.result.error == NoContextMessage
    ensures r.Ran? && r.result.Success? ==>
      var cleaned := RemoveAll(query, Fence);
      r.result.value == SchemaRecord(cleaned, agentType,
        SchemaProviders.GetSchema(AppContextOrFallback(ctx, fallback).value.schemaProvider, cleaned, agentType))
  {
    var run := (u: ()) =>
      var cleaned := RemoveAll(query, Fence);
      match AppContextOrFallback(ctx, fallback)
      case Failure(e) => Failure(e)
      case Success(fields) =>
        Success(SchemaRecord(cleaned, agentType,
                             SchemaProviders.GetSchema(fields.schemaProvider, cleaned, agentType)));
    FeatureFlags.Gate(FeatureFlags.SchemaFetch, None, run, GateContextOf(ctx), ())
  }

  /** Neither the schema provider nor the caller ever sees a triple backtick:
      the echoed query is the cleaned one, and the schema is the one for the
      cleaned query. */
  lemma SchemaQueryHasNoFence<E>(ctx: ToolContext<E>, fallback: Option<AppContext<E>>,
                                 query: string, agentType: string)
    requires GetSchemaForQuery(ctx, fallback, query, agentType).Ran?
    requires GetSchemaForQuery(ctx, fallback, query, agentType).result.Success?
    ensures
      var rec := GetSchemaForQuery(ctx, fallback, query, agentType).result.value;
      rec["query"].Str? && !Contains(rec["query"].s, Fence)
      && rec["query"].s == RemoveAll(query, Fence)
  {
    RemoveFencesLeavesNone(query);
  }

  /** A query without backticks reaches the provider unchanged. */
  lemma SchemaQueryWithoutFenceUnchanged<E>(app: AppContext<E>, query: string, agentType: string)
    requires !Contains(query, Fence)
    requires FeatureFlags.Lookup(app.featureFlags, FeatureFlags.SchemaFetch)
    ensures GetSchemaForQuery(WithLifespan(app), None, query, agentType)
         == FeatureFlags.Ran(Success(SchemaRecord(query, agentType,
              SchemaProviders.GetSchema(app.schemaProvider, query, agentType))))
  {
    RemoveAllAbsent(query, Fence);
  }
}
