/** Query executors: the dummy executor, the one that delegates to a callback,
    and the Spanner executor with its per-agent database cache, its `LIMIT 100`
    safety rewrite and the shapes of its result and error records. The Spanner
    client, its snapshot and `json.dumps` are parameters. */
module QueryExecutors {
  import opened Wrappers
  import opened Text
  import opened Values
  import opened Sequences

  // ----- result records -----

  /** `{"result": "", "intermediate_steps": [], "error": str(e)}` */
  function ErrorRecord(message: string): (r: map<string, Value>)
    ensures r.Keys == {"result", "intermediate_steps", "error"}
    ensures r["result"] == Str("") && r["intermediate_steps"] == List([]) && r["error"] == Str(message)
  {
    map["result" := Str(""), "intermediate_steps" := List([]), "error" := Str(message)]
  }

  /** `{"result": json.dumps(raw_results), "intermediate_steps": []}`: no
      `error` entry. */
  function SuccessRecord(json: string): (r: map<string, Value>)
    ensures r.Keys == {"result", "intermediate_steps"}
    ensures r["result"] == Str(json) && r["intermediate_steps"] == List([])
  {
    map["result" := Str(json), "intermediate_steps" := List([])]
  }

  // ----- DummyQueryExecutor -----

  const DummyPrefix: string := "This is a dummy result for query: "

  /** `query[:n]` */
  function Take(s: string, n: nat): (r: string)
    ensures |r| == if |s| <= n then |s| else n
    ensures r == s[..|r|]
  {
    if |s| <= n then s else s[..n]
  }

  /** `DummyQueryExecutor.execute_query`: a fixed text around the first 100
      characters of the query, and no steps. */
  function DummyExecute(query: string, agentType: string): (r: map<string, Value>)
    ensures r.Keys == {"result", "intermediate_steps"} && r["intermediate_steps"] == List([])
    ensures r["result"].Str? && |r["result"].s| <= |DummyPrefix| + 100 + 3
    ensures r["result"].s == DummyPrefix + Take(query, 100) + "..."
  {
    map["result" := Str(DummyPrefix + Take(query, 100) + "..."), "intermediate_steps" := List([])]
  }

  /** Only the first 100 characters of the query reach the dummy result, and
      the agent type does not matter. */
  lemma DummyIgnoresTail(q1: string, q2: string, a1: string, a2: string)
    requires |q1| >= 100 && |q2| >= 100 && q1[..100] == q2[..100]
    ensures DummyExecute(q1, a1) == DummyExecute(q2, a2)
  {
  }

  // ----- CallbackQueryExecutor -----

  /** `CallbackQueryExecutor.execute_query`: the callback's record, or when it
      raises, an error record whose `result` names the error. `callback`
      returns the record or the message of what it raised. */
  function CallbackExecute(callback: (string, string) -> Result<map<string, Value>, string>,
                           query: string, agentType: string): (r: map<string, Value>)
    ensures callback(query, agentType).Success? ==> r == callback(query, agentType).value
    ensures callback(query, agentType).Failure? ==>
      var e := callback(query, agentType).error;
      r.Keys == {"result", "intermediate_steps", "error"}
      && r["result"] == Str("Error executing query: " + e)
      && r["intermediate_steps"] == List([]) && r["error"] == Str(e)
  {
    match callback(query, agentType)
    case Success(record) => record
    case Failure(e) =>
      map["result" := Str("Error executing query: " + e), "intermediate_steps" := List([]),
          "error" := Str(e)]
  }

  // ----- the LIMIT rule -----

  const AutoLimit: string := " LIMIT 100"

  /** The lower-cased query mentions "limit" or "count". */
  predicate HasLimitOrCount(query: string) {
    Contains(Lower(query), "limit") || Contains(Lower(query), "count")
  }

  /** `query[:-1]` when the query ends with ";". */
  function DropSemicolon(t: string): (r: string)
    ensures EndsWith(t, ";") ==> r + ";" == t
    ensures !EndsWith(t, ";") ==> r == t
  {
    if EndsWith(t, ";") then t[..|t| - 1] else t
  }

  /** The query the Spanner executor sends. */
  function GuardedQuery(query: string): string {
    if HasLimitOrCount(query) then query else DropSemicolon(Strip(query)) + AutoLimit
  }

  /** The rewrite at the start of `execute_query`, step by step. */
  method GuardQuery(query: string) returns (q: string)
    ensures q == GuardedQuery(query)
  {
    q := query;
    var queryLower := Lower(q);
    if !Contains(queryLower, "limit") && !Contains(queryLower, "count") {
      q := Strip(q);
      if EndsWith(q, ";") {
        q := q[..|q| - 1];
      }
      q := q + AutoLimit;
    }
  }

  /** A query that already limits or counts is sent unchanged; any other is
      stripped, loses one trailing ";", and gets " LIMIT 100"; what precedes
      the limit is a piece of the original query. */
  lemma GuardedQueryCases(query: string)
    ensures HasLimitOrCount(query) ==> GuardedQuery(query) == query
    ensures !HasLimitOrCount(query) ==>
      exists body :: GuardedQuery(query) == body + AutoLimit && Contains(query, body)
  {
    if !HasLimitOrCount(query) {
      var t := Strip(query);
      var body := DropSemicolon(t);
      StripIsInfix(query);
      assert SubstringAt(t, body, 0);
      ContainsTrans(query, t, body);
    }
  }

  /** Every query the executor sends is limited or counts. */
  lemma GuardedQueryIsGuarded(query: string)
    ensures HasLimitOrCount(GuardedQuery(query))
  {
    if !HasLimitOrCount(query) {
      var body := DropSemicolon(Strip(query));
      LowerConcat(body, AutoLimit);
      assert Lower(AutoLimit) == " limit 100";
      assert SubstringAt(Lower(AutoLimit), "limit", 1);
      ContainsInRight(Lower(body), Lower(AutoLimit), "limit");
    }
  }

  /** Sending a sent query again changes nothing. */
  lemma GuardedQueryIdempotent(query: string)
    ensures GuardedQuery(GuardedQuery(query)) == GuardedQuery(query)
  {
    GuardedQueryIsGuarded(query);
  }

  // ----- rows to dictionaries -----

  /** What `snapshot.execute_sql` yields: the field names and the rows. */
  datatype QueryRows = QueryRows(fields: seq<string>, rows: seq<seq<Value>>)

  /** The message of the `IndexError` a row shorter than the field list raises. */
  const IndexErrorMessage: string := "list index out of range"

  /** A Python dictionary as its entries in insertion order, which is the
      order `json.dumps` writes them in. */
  type Entries = seq<(string, Value)>

  /** The keys of a dictionary, in order. */
  function Names(d: Entries): (r: seq<string>)
    ensures |r| == |d|
  {
    if d == [] then [] else [d[0].0] + Names(d[1..])
  }

  /** `d[k]`: the value of the first entry named `k`. */
  function ValueOf(d: Entries, k: string): Option<Value> {
    if d == [] then None else if d[0].0 == k then Some(d[0].1) else ValueOf(d[1..], k)
  }

  /** `d[k] = v`: an existing key keeps its position and takes the new
      value; a new key goes last. */
  function Assign(d: Entries, k: string, v: Value): (r: Entries)
    ensures |r| <= |d| + 1
  {
    if d == [] then [(k, v)]
    else if d[0].0 == k then [(k, v)] + d[1..]
    else [d[0]] + Assign(d[1..], k, v)
  }

  /** Assigning adds the key at the end exactly when it is new. */
  lemma {:induction false} AssignNames(d: Entries, k: string, v: Value)
    ensures Names(Assign(d, k, v)) == if k in Names(d) then Names(d) else Names(d) + [k]
  {
    if d != [] && d[0].0 != k {
      AssignNames(d[1..], k, v);
      assert Names(d) == [d[0].0] + Names(d[1..]);
    }
  }

  /** After `d[k] = v`, `k` reads `v` and every other key reads as before. */
  lemma {:induction false} AssignValue(d: Entries, k: string, v: Value, j: string)
    ensures ValueOf(Assign(d, k, v), j) == if j == k then Some(v) else ValueOf(d, j)
  {
    if d != [] && d[0].0 != k {
      AssignValue(d[1..], k, v, j);
    }
  }

  /** Each name at the position of its first occurrence, later repeats dropped. */
  function FirstOccurrences(s: seq<string>): seq<string> {
    if s == [] then []
    else
      var init := s[..|s| - 1];
      FirstOccurrences(init) + (if s[|s| - 1] in init then [] else [s[|s| - 1]])
  }

  /** The first occurrences are the names of the sequence, without repeats. */
  lemma {:induction false} FirstOccurrencesElements(s: seq<string>)
    ensures forall x :: x in FirstOccurrences(s) <==> x in s
    ensures Distinct(FirstOccurrences(s))
  {
    if s != [] {
      var init := s[..|s| - 1];
      FirstOccurrencesElements(init);
      assert s == init + [s[|s| - 1]];
    }
  }

  /** With no repeated name, every name keeps its place. */
  lemma {:induction false} FirstOccurrencesOfDistinct(s: seq<string>)
    requires Distinct(s)
    ensures FirstOccurrences(s) == s
  {
    if s != [] {
      var init := s[..|s| - 1];
      assert Distinct(init);
      FirstOccurrencesOfDistinct(init);
      assert s[|s| - 1] !in init;
      assert s == init + [s[|s| - 1]];
    }
  }

  /** `row_dict[field.name] = row[idx]` for the first `n` fields. */
  function RowMap(fields: seq<string>, row: seq<Value>, n: nat): (d: Entries)
    requires n <= |fields| && n <= |row|
    ensures |d| <= n
  {
    if n == 0 then [] else Assign(RowMap(fields, row, n - 1), fields[n - 1], row[n - 1])
  }

  /** The row dictionary's keys are the field names in field order, a
      repeated name keeping its first position. */
  lemma {:induction false} RowMapNames(fields: seq<string>, row: seq<Value>, n: nat)
    requires n <= |fields| && n <= |row|
    ensures Names(RowMap(fields, row, n)) == FirstOccurrences(fields[..n])
  {
    if n > 0 {
      var prev := RowMap(fields, row, n - 1);
      var s := fields[..n];
      RowMapNames(fields, row, n - 1);
      AssignNames(prev, fields[n - 1], row[n - 1]);
      FirstOccurrencesElements(fields[..n - 1]);
      assert s[..|s| - 1] == fields[..n - 1] && s[|s| - 1] == fields[n - 1];
      assert (fields[n - 1] in Names(prev)) == (fields[n - 1] in fields[..n - 1]);
    }
  }

  /** A field takes the value at its last position: a later field of the same
      name overwrites an earlier one. */
  lemma {:induction false} RowMapAt(fields: seq<string>, row: seq<Value>, n: nat, k: nat)
    requires n <= |fields| && n <= |row| && k < n
    requires forall j :: k < j < n ==> fields[j] != fields[k]
    ensures ValueOf(RowMap(fields, row, n), fields[k]) == Some(row[k])
  {
    AssignValue(RowMap(fields, row, n - 1), fields[n - 1], row[n - 1], fields[k]);
    if k < n - 1 {
      RowMapAt(fields, row, n - 1, k);
    }
  }

  /** The order is the field order: fields (b, a) give the dictionary
      {b, a}, and fields (a, b) give {a, b}. */
  lemma FieldOrderKept(x: Value, y: Value)
    ensures RowMap(["b", "a"], [x, y], 2) == [("b", x), ("a", y)]
    ensures RowMap(["a", "b"], [y, x], 2) == [("a", y), ("b", x)]
  {
    assert RowMap(["b", "a"], [x, y], 1) == [("b", x)];
    assert Assign([("b", x)], "a", y) == [("b", x)] + Assign([], "a", y);
    assert RowMap(["a", "b"], [y, x], 1) == [("a", y)];
    assert Assign([("a", y)], "b", x) == [("a", y)] + Assign([], "b", x);
  }

  /** Every row has a value for every field. */
  predicate RowsFit(fields: seq<string>, rows: seq<seq<Value>>) {
    forall j :: 0 <= j < |rows| ==> |fields| <= |rows[j]|
  }

  /** `raw_results`: one dictionary per row, in row order. */
  function RowMaps(fields: seq<string>, rows: seq<seq<Value>>): (raw: seq<Entries>)
    requires RowsFit(fields, rows)
    ensures |raw| == |rows|
    ensures forall j :: 0 <= j < |rows| ==> raw[j] == RowMap(fields, rows[j], |fields|)
  {
    if rows == [] then []
    else
      var init := rows[..|rows| - 1];
      assert forall j :: 0 <= j < |init| ==> init[j] == rows[j];
      RowMaps(fields, init) + [RowMap(fields, rows[|rows| - 1], |fields|)]
  }

  /** The record for a query that reached the database: the snapshot's error,
      the `IndexError` of a short row, or the dumped rows. */
  function RunOutcome<Db>(db: Db, query: string, run: (Db, string) -> Result<QueryRows, string>,
                      dumps: seq<Entries> -> string): map<string, Value>
  {
    match run(db, GuardedQuery(query))
    case Failure(e) => ErrorRecord(e)
    case Success(QueryRows(fields, rows)) =>
      if RowsFit(fields, rows) then SuccessRecord(dumps(RowMaps(fields, rows)))
      else ErrorRecord(IndexErrorMessage)
  }

  /** The record `execute_query` returns, given the outcome of `_get_database`. */
  function ExecuteOutcome<Db>(database: Result<Db, string>, query: string,
                              run: (Db, string) -> Result<QueryRows, string>,
                              dumps: seq<Entries> -> string): map<string, Value>
  {
    match database
    case Failure(e) => ErrorRecord(e)
    case Success(db) => RunOutcome(db, query, run, dumps)
  }

  /** Every record is an error record (with `error`) or a success record
      (without); the steps are always empty, and an error record's `result`
      is empty. */
  lemma ExecuteOutcomeShape<Db>(database: Result<Db, string>, query: string,
                                run: (Db, string) -> Result<QueryRows, string>,
                                dumps: seq<Entries> -> string)
    ensures var r := ExecuteOutcome(database, query, run, dumps);
      r["intermediate_steps"] == List([])
      && ("error" in r ==> r == ErrorRecord(r["error"].s))
      && ("error" !in r ==> r == SuccessRecord(r["result"].s))
  {
  }

  /** A database that cannot be opened, or a query the snapshot rejects,
      yields an error record carrying the message; the query never reaches
      the snapshot unguarded. */
  lemma ExecuteOutcomeErrors<Db>(database: Result<Db, string>, query: string,
                                 run: (Db, string) -> Result<QueryRows, string>,
                                 dumps: seq<Entries> -> string)
    ensures database.Failure? ==> ExecuteOutcome(database, query, run, dumps) == ErrorRecord(database.error)
    ensures database.Success? && run(database.value, GuardedQuery(query)).Failure? ==>
      ExecuteOutcome(database, query, run, dumps) == ErrorRecord(run(database.value, GuardedQuery(query)).error)
  {
  }

  // ----- SpannerQueryExecutor -----

  const IdsRequiredMessage: string := "instance_id and database_id are required."
  const ClientFailurePrefix: string := "Spanner client initialization failed: "
  const DatabaseFailurePrefix: string := "Spanner database initialization failed: "

  /** The executor. `client(instance, database)` opens a database handle or
      raises; `loaded` records, in order, the agent types whose handle was
      opened. */
  class SpannerQueryExecutor<Db> {
    const instanceId: string
    const databaseId: string
    const projectId: Option<string>
    const graphName: string
    const client: (string, string) -> Result<Db, string>
    var cache: map<string, Db>
    ghost var loaded: seq<string>

    /** Both identifiers are set, and each agent type's handle was opened
        once and is the one cached. */
    ghost predicate Valid()
      reads this
    {
      instanceId != [] && databaseId != []
      && Distinct(loaded) && (forall a :: a in cache <==> a in loaded)
    }

    constructor (instanceId: string, databaseId: string, projectId: Option<string>,
                 graphName: string, client: (string, string) -> Result<Db, string>)
      requires instanceId != [] && databaseId != []
      ensures Valid()
      ensures this.instanceId == instanceId && this.databaseId == databaseId
      ensures this.projectId == projectId && this.graphName == graphName && this.client == client
      ensures cache == map[] && loaded == []
    {
      this.instanceId := instanceId;
      this.databaseId := databaseId;
      this.projectId := projectId;
      this.graphName := graphName;
      this.client := client;
      cache := map[];
      loaded := [];
    }

    /** `_get_database(agent_type)`: the cached handle, or a newly opened one
        that is cached from then on. */
    method GetDatabase(agentType: string) returns (r: Result<Db, string>)
      requires Valid()
      modifies this
      ensures Valid()
      ensures r == DatabaseOutcome(old(cache), client, instanceId, databaseId, agentType)
      ensures agentType in old(cache) ==> cache == old(cache) && loaded == old(loaded)
      ensures agentType !in old(cache) && r.Success? ==>
        cache == old(cache)[agentType := r.value] && loaded == old(loaded) + [agentType]
      ensures agentType !in old(cache) && r.Failure? ==> cache == old(cache) && loaded == old(loaded)
    {
      if agentType !in cache {
        match client(instanceId, databaseId)
        case Failure(e) =>
          return Failure(DatabaseFailurePrefix + e);
        case Success(database) =>
          cache := cache[agentType := database];
          loaded := loaded + [agentType];
      }
      return Success(cache[agentType]);
    }

    /** `execute_query(query, agent_type)`. `run` is the snapshot's
        `execute_sql` (its rows, or the message of what it raised) and `dumps`
        is `json.dumps`. */
    method ExecuteQuery(query: string, agentType: string,
                        run: (Db, string) -> Result<QueryRows, string>,
                        dumps: seq<Entries> -> string)
      returns (out: map<string, Value>)
      requires Valid()
      modifies this
      ensures Valid()
      ensures out == ExecuteOutcome(DatabaseOutcome(old(cache), client, instanceId, databaseId, agentType),
                                    query, run, dumps)
      ensures agentType in old(cache) ==> cache == old(cache) && loaded == old(loaded)
      ensures agentType !in old(cache) && client(instanceId, databaseId).Success? ==>
        cache == old(cache)[agentType := client(instanceId, databaseId).value]
        && loaded == old(loaded) + [agentType]
      ensures agentType !in old(cache) && client(instanceId, databaseId).Failure? ==>
        cache == old(cache) && loaded == old(loaded)
    {
      var database := GetDatabase(agentType);
      if database.Failure? {
        return ErrorRecord(database.error);
      }
      var q := GuardQuery(query);
      var results := run(database.value, q);
      if results.Failure? {
        return ErrorRecord(results.error);
      }
      var raw := RowsToDicts(results.value.fields, results.value.rows);
      if raw.None? {
        return ErrorRecord(IndexErrorMessage);
      }
      return SuccessRecord(dumps(raw.value));
    }
  }

  /** The outcome of `_get_database` against a cache. */
  function DatabaseOutcome<Db>(cache: map<string, Db>, client: (string, string) -> Result<Db, string>,
                               instanceId: string, databaseId: string, agentType: string)
    : (r: Result<Db, string>)
    ensures agentType in cache ==> r == Success(cache[agentType])
    ensures agentType !in cache && client(instanceId, databaseId).Success? ==>
      r == Success(client(instanceId, databaseId).value)
    ensures agentType !in cache && client(instanceId, databaseId).Failure? ==>
      r == Failure(DatabaseFailurePrefix + client(instanceId, databaseId).error)
  {
    if agentType in cache then Success(cache[agentType])
    else match client(instanceId, databaseId)
      case Success(db) => Success(db)
      case Failure(e) => Failure(DatabaseFailurePrefix + e)
  }

  /** The row loop of `execute_query`: each row becomes a dictionary, or the
      first row shorter than the field list raises `IndexError` (None). */
  method RowsToDicts(fields: seq<string>, rows: seq<seq<Value>>) returns (raw: Option<seq<Entries>>)
    ensures RowsFit(fields, rows) ==> raw == Some(RowMaps(fields, rows))
    ensures !RowsFit(fields, rows) ==> raw.None?
  {
    var acc: seq<Entries> := [];
    var k := 0;
    while k < |rows|
      invariant 0 <= k <= |rows|
      invariant RowsFit(fields, rows[..k])
      invariant acc == RowMaps(fields, rows[..k])
    {
      var row := rows[k];
      var rowDict := RowToDict(fields, row);
      if rowDict.None? {
        return None;
      }
      TakeSnoc(rows, k);
      acc := acc + [rowDict.value];
      k := k + 1;
    }
    assert rows[..k] == rows;
    return Some(acc);
  }

  /** The field loop for one row: `row_dict[field.name] = row[idx]` in field
      order, or None where `row[idx]` raises. */
  method RowToDict(fields: seq<string>, row: seq<Value>) returns (d: Option<Entries>)
    ensures |fields| <= |row| ==> d == Some(RowMap(fields, row, |fields|))
    ensures |row| < |fields| ==> d.None?
  {
    var rowDict: Entries := [];
    var idx := 0;
    while idx < |fields|
      invariant 0 <= idx <= |fields| && idx <= |row|
      invariant rowDict == RowMap(fields, row, idx)
    {
      if idx >= |row| {
        return None;
      }
      rowDict := Assign(rowDict, fields[idx], row[idx]);
      idx := idx + 1;
    }
    return Some(rowDict);
  }

  /** `SpannerQueryExecutor(instance_id, database_id, ...)`: both identifiers
      are required, then the client must come up; `clientInit` is the given
      client, or that of `spanner.Client(project)`, or the message it raised. */
  method NewSpannerQueryExecutor<Db>(instanceId: string, databaseId: string, projectId: Option<string>,
                                     graphName: string,
                                     clientInit: Result<(string, string) -> Result<Db, string>, string>)
    returns (r: Result<SpannerQueryExecutor<Db>, string>)
    ensures (instanceId == [] || databaseId == []) ==> r == Failure(IdsRequiredMessage)
    ensures instanceId != [] && databaseId != [] && clientInit.Failure? ==>
      r == Failure(ClientFailurePrefix + clientInit.error)
    ensures instanceId != [] && databaseId != [] && clientInit.Success? ==>
      r.Success? && fresh(r.value) && r.value.Valid() && r.value.cache == map[]
      && r.value.instanceId == instanceId && r.value.databaseId == databaseId
      && r.value.projectId == projectId && r.value.graphName == graphName
      && r.value.client == clientInit.value
  {
    if instanceId == [] || databaseId == [] {
      return Failure(IdsRequiredMessage);
    }
    if clientInit.Failure? {
      return Failure(ClientFailurePrefix + clientInit.error);
    }
    var e := new SpannerQueryExecutor(instanceId, databaseId, projectId, graphName, clientInit.value);
    return Success(e);
  }

  /** A handle is opened once per agent type: once the first lookup for an
      agent type succeeds, the second returns the same handle and opens
      nothing. */
  method RepeatedLookupsShareDatabase<Db>(e: SpannerQueryExecutor<Db>, agentType: string)
    returns (r1: Result<Db, string>, r2: Result<Db, string>)
    requires e.Valid()
    modifies e
    ensures e.Valid()
    ensures r1.Success? ==> r2 == r1
    ensures r1.Success? ==> |e.loaded| <= |old(e.loaded)| + 1
  {
    r1 := e.GetDatabase(agentType);
    r2 := e.GetDatabase(agentType);
  }
}
