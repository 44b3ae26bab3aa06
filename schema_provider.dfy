/** Schema providers: a fixed schema string, and one schema per agent type
    with a default for agent types it does not know. */
module SchemaProviders {
  import opened Wrappers
  import opened Sequences

  /** A Python dict from agent type to schema, in insertion order. */
  type AgentSchemas = seq<(string, string)>

  function Keys(schemas: AgentSchemas): seq<string> {
    seq(|schemas|, i requires 0 <= i < |schemas| => schemas[i].0)
  }

  /** Dictionary keys are unique. */
  predicate WellFormed(schemas: AgentSchemas) {
    Distinct(Keys(schemas))
  }

  /** `schemas.get(agent_type)` */
  function Lookup(schemas: AgentSchemas, agent: string): (r: Option<string>)
    ensures r.Some? ==> (agent, r.value) in schemas
    ensures r.None? ==> forall i :: 0 <= i < |schemas| ==> schemas[i].0 != agent
  {
    if schemas == [] then None
    else if schemas[0].0 == agent then Some(schemas[0].1)
    else Lookup(schemas[1..], agent)
  }

  /** With unique keys, the lookup finds exactly the stored pairs. */
  lemma {:induction false} LookupExact(schemas: AgentSchemas, agent: string, schema: string)
    requires WellFormed(schemas)
    ensures Lookup(schemas, agent) == Some(schema) <==> (agent, schema) in schemas
  {
    if schemas != [] {
      var tail := schemas[1..];
      assert WellFormed(tail) by {
        forall i, j | 0 <= i < j < |tail| ensures Keys(tail)[i] != Keys(tail)[j] {
          assert Keys(schemas)[i + 1] != Keys(schemas)[j + 1];
        }
      }
      LookupExact(tail, agent, schema);
      if schemas[0].0 == agent {
        forall k | 0 <= k < |tail| ensures tail[k].0 != agent {
          assert Keys(schemas)[0] != Keys(schemas)[k + 1];
        }
      }
      assert (agent, schema) in schemas <==> schemas[0] == (agent, schema) || (agent, schema) in tail;
    }
  }

  datatype Provider =
    | StringProvider(schema: string)
    | MultiAgent(schemas: AgentSchemas, defaultSchema: string)

  /** `MultiAgentSchemaProvider(schemas, default_schema)`: the default is the
      given one unless it is absent or empty, else the first schema in
      insertion order, else "". */
  function NewMultiAgent(schemas: AgentSchemas, defaultSchema: Option<string>): (p: Provider)
    ensures p.MultiAgent? && p.schemas == schemas
    ensures defaultSchema.Some? && defaultSchema.value != "" ==> p.defaultSchema == defaultSchema.value
    ensures (defaultSchema.None? || defaultSchema.value == "") && schemas != [] ==> p.defaultSchema == schemas[0].1
    ensures (defaultSchema.None? || defaultSchema.value == "") && schemas == [] ==> p.defaultSchema == ""
  {
    var fallback := if schemas == [] then "" else schemas[0].1;
    MultiAgent(schemas, if defaultSchema.Some? && defaultSchema.value != "" then defaultSchema.value else fallback)
  }

  /** The default schema is never invented: it is the given one, one of the
      agent schemas, or empty. */
  lemma DefaultDrawnFromInputs(schemas: AgentSchemas, defaultSchema: Option<string>)
    ensures
      var d := NewMultiAgent(schemas, defaultSchema).defaultSchema;
      defaultSchema == Some(d) || (exists a :: (a, d) in schemas) || d == ""
  {
    var d := NewMultiAgent(schemas, defaultSchema).defaultSchema;
    if !(defaultSchema.Some? && defaultSchema.value != "") && schemas != [] {
      assert (schemas[0].0, d) == schemas[0];
    }
  }

  /** `get_schema(query, agent_type)` */
  function GetSchema(p: Provider, query: string, agentType: string): (r: string)
    ensures p.StringProvider? ==> r == p.schema
    ensures p.MultiAgent? && Lookup(p.schemas, agentType).Some? ==> r == Lookup(p.schemas, agentType).value
    ensures p.MultiAgent? && Lookup(p.schemas, agentType).None? ==> r == p.defaultSchema
  {
    match p
    case StringProvider(schema) => schema
    case MultiAgent(schemas, defaultSchema) =>
      match Lookup(schemas, agentType)
      case Some(s) => s
      case None => defaultSchema
  }

  /** The schema a provider returns does not depend on the query text. */
  lemma GetSchemaIgnoresQuery(p: Provider, q1: string, q2: string, agentType: string)
    ensures GetSchema(p, q1, agentType) == GetSchema(p, q2, agentType)
  {
  }

  /** A known agent type gets the schema stored for it. */
  lemma KnownAgentGetsItsSchema(schemas: AgentSchemas, defaultSchema: Option<string>,
                                query: string, agent: string, schema: string)
    requires WellFormed(schemas) && (agent, schema) in schemas
    ensures GetSchema(NewMultiAgent(schemas, defaultSchema), query, agent) == schema
  {
    LookupExact(schemas, agent, schema);
  }

  /** An unknown agent type gets the default schema. */
  lemma UnknownAgentGetsDefault(schemas: AgentSchemas, defaultSchema: Option<string>, query: string, agent: string)
    requires forall i :: 0 <= i < |schemas| ==> schemas[i].0 != agent
    ensures GetSchema(NewMultiAgent(schemas, defaultSchema), query, agent)
         == NewMultiAgent(schemas, defaultSchema).defaultSchema
  {
    LookupMissing(schemas, agent);
  }

  lemma {:induction false} LookupMissing(schemas: AgentSchemas, agent: string)
    requires forall i :: 0 <= i < |schemas| ==> schemas[i].0 != agent
    ensures Lookup(schemas, agent).None?
  {
    if schemas != [] {
      assert schemas[0].0 != agent;
      LookupMissing(schemas[1..], agent);
    }
  }

  /** The provider of the tests: "CNE" and "RNC" schemas with the CNE schema as
      default; an unknown agent type sees the CNE schema. */
  lemma TwoAgentScenario(cne: string, rnc: string, query: string)
    ensures
      var p := NewMultiAgent([("CNE", cne), ("RNC", rnc)], Some(cne));
      GetSchema(p, query, "CNE") == cne && GetSchema(p, query, "RNC") == rnc
      && GetSchema(p, query, "UNKNOWN") == cne
  {
    var schemas := [("CNE", cne), ("RNC", rnc)];
    assert schemas[1..][0].0 == "RNC";
    assert "CNE" != "RNC";
    assert "UNKNOWN" != "CNE" && "UNKNOWN" != "RNC";
  }
}
