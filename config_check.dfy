/** The configuration validator: which keys a pipeline configuration must
    hold, reported as an ordered list of error messages. */
module ConfigCheck {
  import opened Values
  import opened Sequences

  /** The top-level sections, in the order their absence is reported. */
  const RequiredSections: seq<string> :=
    ["gcp", "auth", "pipeline", "server", "monitoring", "data_quality"]

  /** Python's `key in v` on a parsed section; a section that is not a
      mapping is read as having no keys. */
  predicate Has(v: Value, key: string) {
    v.Dict? && key in v.entries
  }

  function Get(v: Value, key: string): Value
    requires Has(v, key)
  {
    v.entries[key]
  }

  /** One error when the key is missing, none otherwise. */
  function Require(v: Value, key: string, message: string): (r: seq<string>)
    ensures r == [] <==> Has(v, key)
    ensures r != [] ==> r == [message]
  {
    if Has(v, key) then [] else [message]
  }

  function SectionMessage(section: string): string {
    SectionPrefix + section
  }

  const SectionPrefix := "Missing required section: "

  /** The message for a missing key or subsection of a present section:
      `Message("gcp", "spanner section")` is "Missing gcp.spanner section". */
  function Message(section: string, what: string): string {
    "Missing " + section + "." + what
  }

  /** The messages for the missing top-level sections, in list order. */
  function MissingOf(config: map<string, Value>, sections: seq<string>): (r: seq<string>)
    ensures |r| <= |sections|
    ensures r == [] <==> forall i :: 0 <= i < |sections| ==> sections[i] in config
  {
    if sections == [] then []
    else
      var last := sections[|sections| - 1];
      MissingOf(config, sections[..|sections| - 1])
      + (if last in config then [] else [SectionMessage(last)])
  }

  function SpannerErrors(gcp: Value): seq<string> {
    if !Has(gcp, "spanner") then [Message("gcp", "spanner section")]
    else
      var spanner := Get(gcp, "spanner");
      Require(spanner, "instance_id", Message("gcp", "spanner.instance_id"))
      + Require(spanner, "database_id", Message("gcp", "spanner.database_id"))
  }

  function ViewsErrors(bq: Value): seq<string> {
    if !Has(bq, "views") then [Message("gcp", "bigquery.views")]
    else
      var views := Get(bq, "views");
      Require(views, "entities", Message("gcp", "bigquery.views.entities"))
      + Require(views, "edges", Message("gcp", "bigquery.views.edges"))
  }

  function BigQueryErrors(gcp: Value): seq<string> {
    if !Has(gcp, "bigquery") then [Message("gcp", "bigquery section")]
    else
      var bq := Get(gcp, "bigquery");
      Require(bq, "dataset_id", Message("gcp", "bigquery.dataset_id")) + ViewsErrors(bq)
  }

  function VertexErrors(gcp: Value): seq<string> {
    if !Has(gcp, "vertex_ai") then [Message("gcp", "vertex_ai section")]
    else
      var vertex := Get(gcp, "vertex_ai");
      Require(vertex, "location", Message("gcp", "vertex_ai.location"))
      + Require(vertex, "model", Message("gcp", "vertex_ai.model"))
  }

  function GcpErrors(gcp: Value): seq<string> {
    Require(gcp, "project_id", Message("gcp", "project_id"))
    + SpannerErrors(gcp) + BigQueryErrors(gcp) + VertexErrors(gcp)
  }

  function AuthErrors(auth: Value): seq<string> {
    Require(auth, "service_account_key", Message("auth", "service_account_key"))
  }

  function PipelineErrors(pipeline: Value): seq<string> {
    if !Has(pipeline, "ingestion") then [Message("pipeline", "ingestion section")]
    else Require(Get(pipeline, "ingestion"), "batch_size", Message("pipeline", "ingestion.batch_size"))
  }

  function ServerErrors(server: Value): seq<string> {
    if !Has(server, "mcp") then [Message("server", "mcp section")]
    else Require(Get(server, "mcp"), "port", Message("server", "mcp.port"))
  }

  /** `validate_config(config)` as a value: the nested checks of a section run
      only when the section is present. */
  function ConfigErrors(config: map<string, Value>): seq<string> {
    MissingOf(config, RequiredSections)
    + (if "gcp" in config then GcpErrors(config["gcp"]) else [])
    + (if "auth" in config then AuthErrors(config["auth"]) else [])
    + (if "pipeline" in config then PipelineErrors(config["pipeline"]) else [])
    + (if "server" in config then ServerErrors(config["server"]) else [])
  }

  /** `validate_config(config)`: the error list built by successive appends,
      block by block in source order. */
  method ValidateConfig(config: map<string, Value>) returns (errors: seq<string>)
    ensures errors == ConfigErrors(config)
  {
    errors := CheckSections(config, RequiredSections);
    ghost var e0 := errors;
    if "gcp" in config {
      errors := AppendGcp(errors, config["gcp"]);
    }
    assert errors == e0 + (if "gcp" in config then GcpErrors(config["gcp"]) else []);
    ghost var e1 := errors;
    if "auth" in config {
      errors := AppendIfMissing(errors, config["auth"], "service_account_key", Message("auth", "service_account_key"));
    }
    assert errors == e1 + (if "auth" in config then AuthErrors(config["auth"]) else []);
    ghost var e2 := errors;
    if "pipeline" in config {
      errors := AppendPipeline(errors, config["pipeline"]);
    }
    assert errors == e2 + (if "pipeline" in config then PipelineErrors(config["pipeline"]) else []);
    ghost var e3 := errors;
    if "server" in config {
      errors := AppendServer(errors, config["server"]);
    }
    assert errors == e3 + (if "server" in config then ServerErrors(config["server"]) else []);
  }

  /** The loop over the required sections. */
  method CheckSections(config: map<string, Value>, sections: seq<string>) returns (errors: seq<string>)
    ensures errors == MissingOf(config, sections)
  {
    errors := [];
    var i := 0;
    while i < |sections|
      invariant 0 <= i <= |sections|
      invariant errors == MissingOf(config, sections[..i])
    {
      TakeSnoc(sections, i);
      var section := sections[i];
      if section !in config {
        errors := errors + [SectionMessage(section)];
      }
      i := i + 1;
    }
    assert sections[..i] == sections;
  }

  /** Each message names a missing section, and each missing section has its message. */
  lemma {:induction false} MissingOfMessages(config: map<string, Value>, sections: seq<string>)
    ensures forall e :: e in MissingOf(config, sections) ==>
      exists i :: 0 <= i < |sections| && sections[i] !in config && e == SectionMessage(sections[i])
    ensures forall i :: 0 <= i < |sections| && sections[i] !in config ==>
      SectionMessage(sections[i]) in MissingOf(config, sections)
  {
    if sections != [] {
      var init := sections[..|sections| - 1];
      MissingOfMessages(config, init);
      forall e | e in MissingOf(config, sections)
        ensures exists i :: 0 <= i < |sections| && sections[i] !in config && e == SectionMessage(sections[i])
      {
        if e in MissingOf(config, init) {
          var i :| 0 <= i < |init| && init[i] !in config && e == SectionMessage(init[i]);
          assert sections[i] == init[i];
        }
      }
      forall i | 0 <= i < |sections| && sections[i] !in config
        ensures SectionMessage(sections[i]) in MissingOf(config, sections)
      {
        if i < |init| {
          assert init[i] == sections[i];
        }
      }
    }
  }

  /** `if key not in v: errors.append(message)` */
  method AppendIfMissing(errors: seq<string>, v: Value, key: string, message: string)
    returns (out: seq<string>)
    ensures out == errors + Require(v, key, message)
  {
    out := errors;
    if !Has(v, key) {
      out := out + [message];
    }
  }

  /** The checks of the `gcp` section, appended in source order. */
  method AppendGcp(errors: seq<string>, gcp: Value) returns (out: seq<string>)
    ensures out == errors + GcpErrors(gcp)
  {
    ghost var project := Require(gcp, "project_id", Message("gcp", "project_id"));
    ghost var spanner, bigQuery, vertex := SpannerErrors(gcp), BigQueryErrors(gcp), VertexErrors(gcp);
    out := AppendIfMissing(errors, gcp, "project_id", Message("gcp", "project_id"));
    out := AppendSpanner(out, gcp);
    out := AppendBigQuery(out, gcp);
    out := AppendVertex(out, gcp);
    assert out == errors + project + spanner + bigQuery + vertex;
    assert GcpErrors(gcp) == project + spanner + bigQuery + vertex;
  }

  method AppendSpanner(errors: seq<string>, gcp: Value) returns (out: seq<string>)
    ensures out == errors + SpannerErrors(gcp)
  {
    if !Has(gcp, "spanner") {
      out := errors + [Message("gcp", "spanner section")];
    } else {
      var spanner := Get(gcp, "spanner");
      out := AppendIfMissing(errors, spanner, "instance_id", Message("gcp", "spanner.instance_id"));
      out := AppendIfMissing(out, spanner, "database_id", Message("gcp", "spanner.database_id"));
      var first, second := Require(spanner, "instance_id", Message("gcp", "spanner.instance_id")),
                         Require(spanner, "database_id", Message("gcp", "spanner.database_id"));
      assert errors + first + second == errors + (first + second);
    }
  }

  method AppendBigQuery(errors: seq<string>, gcp: Value) returns (out: seq<string>)
    ensures out == errors + BigQueryErrors(gcp)
  {
    if !Has(gcp, "bigquery") {
      out := errors + [Message("gcp", "bigquery section")];
    } else {
      var bq := Get(gcp, "bigquery");
      out := AppendIfMissing(errors, bq, "dataset_id", Message("gcp", "bigquery.dataset_id"));
      out := AppendViews(out, bq);
      var first, second := Require(bq, "dataset_id", Message("gcp", "bigquery.dataset_id")),
                         ViewsErrors(bq);
      assert errors + first + second == errors + (first + second);
    }
  }

  method AppendViews(errors: seq<string>, bq: Value) returns (out: seq<string>)
    ensures out == errors + ViewsErrors(bq)
  {
    if !Has(bq, "views") {
      out := errors + [Message("gcp", "bigquery.views")];
    } else {
      var views := Get(bq, "views");
      out := AppendIfMissing(errors, views, "entities", Message("gcp", "bigquery.views.entities"));
      out := AppendIfMissing(out, views, "edges", Message("gcp", "bigquery.views.edges"));
      var first, second := Require(views, "entities", Message("gcp", "bigquery.views.entities")),
                         Require(views, "edges", Message("gcp", "bigquery.views.edges"));
      assert errors + first + second == errors + (first + second);
    }
  }

  method AppendVertex(errors: seq<string>, gcp: Value) returns (out: seq<string>)
    ensures out == errors + VertexErrors(gcp)
  {
    if !Has(gcp, "vertex_ai") {
      out := errors + [Message("gcp", "vertex_ai section")];
    } else {
      var vertex := Get(gcp, "vertex_ai");
      out := AppendIfMissing(errors, vertex, "location", Message("gcp", "vertex_ai.location"));
      out := AppendIfMissing(out, vertex, "model", Message("gcp", "vertex_ai.model"));
      var first, second := Require(vertex, "location", Message("gcp", "vertex_ai.location")),
                         Require(vertex, "model", Message("gcp", "vertex_ai.model"));
      assert errors + first + second == errors + (first + second);
    }
  }

  method AppendPipeline(errors: seq<string>, pipeline: Value) returns (out: seq<string>)
    ensures out == errors + PipelineErrors(pipeline)
  {
    if !Has(pipeline, "ingestion") {
      out := errors + [Message("pipeline", "ingestion section")];
    } else {
      out := AppendIfMissing(errors, Get(pipeline, "ingestion"), "batch_size", Message("pipeline", "ingestion.batch_size"));
    }
  }

  method AppendServer(errors: seq<string>, server: Value) returns (out: seq<string>)
    ensures out == errors + ServerErrors(server)
  {
    if !Has(server, "mcp") {
      out := errors + [Message("server", "mcp section")];
    } else {
      out := AppendIfMissing(errors, Get(server, "mcp"), "port", Message("server", "mcp.port"));
    }
  }

  // ---------------------------------------------------------------------
  // An independent statement of what a complete configuration holds

  /** `gcp` holds a project id, Spanner instance and database ids, a BigQuery
      dataset id with entity and edge views, and a Vertex AI location and model. */
  predicate GcpComplete(gcp: Value) {
    && Has(gcp, "project_id")
    && Has(gcp, "spanner")
    && Has(Get(gcp, "spanner"), "instance_id") && Has(Get(gcp, "spanner"), "database_id")
    && Has(gcp, "bigquery")
    && Has(Get(gcp, "bigquery"), "dataset_id") && Has(Get(gcp, "bigquery"), "views")
    && Has(Get(Get(gcp, "bigquery"), "views"), "entities")
    && Has(Get(Get(gcp, "bigquery"), "views"), "edges")
    && Has(gcp, "vertex_ai")
    && Has(Get(gcp, "vertex_ai"), "location") && Has(Get(gcp, "vertex_ai"), "model")
  }

  /** Every required section is there, and the nested keys of `gcp`, `auth`,
      `pipeline` and `server` are there. */
  predicate Complete(config: map<string, Value>) {
    && (forall i :: 0 <= i < |RequiredSections| ==> RequiredSections[i] in config)
    && "gcp" in config && GcpComplete(config["gcp"])
    && "auth" in config && Has(config["auth"], "service_account_key")
    && "pipeline" in config && Has(config["pipeline"], "ingestion")
    && Has(Get(config["pipeline"], "ingestion"), "batch_size")
    && "server" in config && Has(config["server"], "mcp")
    && Has(Get(config["server"], "mcp"), "port")
  }

  /** The `gcp` checks report nothing exactly when its keys are all there. */
  lemma GcpClean(gcp: Value)
    ensures GcpErrors(gcp) == [] <==> GcpComplete(gcp)
  {
  }

  /** The configuration is valid exactly when it is complete. */
  lemma ValidIffComplete(config: map<string, Value>)
    ensures ConfigErrors(config) == [] <==> Complete(config)
  {
    var present := forall i :: 0 <= i < |RequiredSections| ==> RequiredSections[i] in config;
    if present {
      assert "gcp" in config && "auth" in config && "pipeline" in config && "server" in config by {
        assert RequiredSections[0] == "gcp" && RequiredSections[1] == "auth";
        assert RequiredSections[2] == "pipeline" && RequiredSections[3] == "server";
      }
      GcpClean(config["gcp"]);
    }
  }

  // ---------------------------------------------------------------------
  // A missing section or subsection reports itself alone

  lemma RequiredSectionsDistinct()
    ensures Distinct(RequiredSections)
  {
  }

  lemma {:induction false} MissingOfOnly(config: map<string, Value>, sections: seq<string>, s: string)
    requires forall i :: 0 <= i < |sections| ==> sections[i] in config
    requires Distinct(sections) && s in sections
    ensures MissingOf(config - {s}, sections) == [SectionMessage(s)]
  {
    var init := sections[..|sections| - 1];
    var last := sections[|sections| - 1];
    if last == s {
      forall i | 0 <= i < |init| ensures init[i] in config - {s} {
        assert init[i] == sections[i];
      }
    } else {
      assert s in init by {
        var k :| 0 <= k < |sections| && sections[k] == s;
        assert init[k] == s;
      }
      assert Distinct(init) by {
        forall i, j | 0 <= i < j < |init| ensures init[i] != init[j] {
          assert init[i] == sections[i] && init[j] == sections[j];
        }
      }
      MissingOfOnly(config, init, s);
    }
  }

  /** In an otherwise complete configuration, a missing top-level section
      yields exactly its one message: its nested checks do not run. */
  lemma AbsentSectionAlone(config: map<string, Value>, s: string)
    requires Complete(config) && s in RequiredSections
    ensures ConfigErrors(config - {s}) == [SectionMessage(s)]
  {
    RequiredSectionsDistinct();
    MissingOfOnly(config, RequiredSections, s);
    ValidIffComplete(config);
  }

  /** The value with one key removed, as when a section omits it. */
  function Without(v: Value, key: string): (r: Value)
    ensures !Has(r, key)
    ensures forall k :: k != key ==> (Has(r, k) <==> Has(v, k))
  {
    if v.Dict? then Dict(v.entries - {key}) else v
  }

  /** Replacing `gcp` in a complete configuration leaves only the `gcp` checks. */
  lemma ReplaceGcp(config: map<string, Value>, gcp: Value)
    requires Complete(config)
    ensures ConfigErrors(config["gcp" := gcp]) == GcpErrors(gcp)
  {
    var c := config["gcp" := gcp];
    assert MissingOf(c, RequiredSections) == [] by {
      assert forall i :: 0 <= i < |RequiredSections| ==> RequiredSections[i] in c;
    }
    assert AuthErrors(c["auth"]) == [] && PipelineErrors(c["pipeline"]) == [] && ServerErrors(c["server"]) == [];
  }

  lemma GcpWithoutSpanner(gcp: Value)
    requires GcpComplete(gcp)
    ensures GcpErrors(Without(gcp, "spanner")) == [Message("gcp", "spanner section")]
  {
    var g := Without(gcp, "spanner");
    assert Get(g, "bigquery") == Get(gcp, "bigquery") && Get(g, "vertex_ai") == Get(gcp, "vertex_ai");
  }

  lemma GcpWithoutBigQuery(gcp: Value)
    requires GcpComplete(gcp)
    ensures GcpErrors(Without(gcp, "bigquery")) == [Message("gcp", "bigquery section")]
  {
    var g := Without(gcp, "bigquery");
    assert Get(g, "spanner") == Get(gcp, "spanner") && Get(g, "vertex_ai") == Get(gcp, "vertex_ai");
  }

  lemma GcpWithoutVertex(gcp: Value)
    requires GcpComplete(gcp)
    ensures GcpErrors(Without(gcp, "vertex_ai")) == [Message("gcp", "vertex_ai section")]
  {
    var g := Without(gcp, "vertex_ai");
    assert Get(g, "spanner") == Get(gcp, "spanner") && Get(g, "bigquery") == Get(gcp, "bigquery");
  }

  /** In an otherwise complete configuration, a `gcp` without `spanner`
      yields only the message for that subsection, and none for the keys
      inside it; likewise for `bigquery` and `vertex_ai`. */
  lemma AbsentSpannerAlone(config: map<string, Value>)
    requires Complete(config)
    ensures ConfigErrors(config["gcp" := Without(config["gcp"], "spanner")]) == [Message("gcp", "spanner section")]
  {
    ReplaceGcp(config, Without(config["gcp"], "spanner"));
    GcpWithoutSpanner(config["gcp"]);
  }

  lemma AbsentBigQueryAlone(config: map<string, Value>)
    requires Complete(config)
    ensures ConfigErrors(config["gcp" := Without(config["gcp"], "bigquery")]) == [Message("gcp", "bigquery section")]
  {
    ReplaceGcp(config, Without(config["gcp"], "bigquery"));
    GcpWithoutBigQuery(config["gcp"]);
  }

  lemma AbsentVertexAlone(config: map<string, Value>)
    requires Complete(config)
    ensures ConfigErrors(config["gcp" := Without(config["gcp"], "vertex_ai")]) == [Message("gcp", "vertex_ai section")]
  {
    ReplaceGcp(config, Without(config["gcp"], "vertex_ai"));
    GcpWithoutVertex(config["gcp"]);
  }

  /** A BigQuery section without `views` yields only that message. */
  lemma AbsentViewsAlone(config: map<string, Value>)
    requires Complete(config)
    ensures
      var gcp := config["gcp"];
      var bq := Without(Get(gcp, "bigquery"), "views");
      ConfigErrors(config["gcp" := Dict(gcp.entries["bigquery" := bq])]) == [Message("gcp", "bigquery.views")]
  {
    var gcp := config["gcp"];
    var bq := Without(Get(gcp, "bigquery"), "views");
    var g := Dict(gcp.entries["bigquery" := bq]);
    ReplaceGcp(config, g);
    assert Get(g, "spanner") == Get(gcp, "spanner") && Get(g, "vertex_ai") == Get(gcp, "vertex_ai");
  }

  // ---------------------------------------------------------------------
  // The order of the messages

  /** Every message of a block is one of its section's messages. */
  ghost predicate FromSection(errors: seq<string>, section: string) {
    forall e :: e in errors ==> exists what :: e == Message(section, what)
  }

  /** Every message of a block reports a missing top-level section. */
  ghost predicate SectionMessages(errors: seq<string>) {
    forall e :: e in errors ==> exists s :: s in RequiredSections && e == SectionMessage(s)
  }

  lemma FromSectionAppend(a: seq<string>, b: seq<string>, section: string)
    requires FromSection(a, section) && FromSection(b, section)
    ensures FromSection(a + b, section)
  {
  }

  lemma RequireFrom(v: Value, key: string, section: string, what: string)
    ensures FromSection(Require(v, key, Message(section, what)), section)
  {
  }

  lemma SpannerFrom(gcp: Value)
    ensures FromSection(SpannerErrors(gcp), "gcp")
  {
    if Has(gcp, "spanner") {
      var spanner := Get(gcp, "spanner");
      RequireFrom(spanner, "instance_id", "gcp", "spanner.instance_id");
      RequireFrom(spanner, "database_id", "gcp", "spanner.database_id");
      FromSectionAppend(Require(spanner, "instance_id", Message("gcp", "spanner.instance_id")),
                        Require(spanner, "database_id", Message("gcp", "spanner.database_id")), "gcp");
    } else {
      assert SpannerErrors(gcp)[0] == Message("gcp", "spanner section");
    }
  }

  lemma BigQueryFrom(gcp: Value)
    ensures FromSection(BigQueryErrors(gcp), "gcp")
  {
    if Has(gcp, "bigquery") {
      var bq := Get(gcp, "bigquery");
      RequireFrom(bq, "dataset_id", "gcp", "bigquery.dataset_id");
      if Has(bq, "views") {
        var views := Get(bq, "views");
        RequireFrom(views, "entities", "gcp", "bigquery.views.entities");
        RequireFrom(views, "edges", "gcp", "bigquery.views.edges");
        FromSectionAppend(Require(views, "entities", Message("gcp", "bigquery.views.entities")),
                          Require(views, "edges", Message("gcp", "bigquery.views.edges")), "gcp");
      } else {
        assert ViewsErrors(bq)[0] == Message("gcp", "bigquery.views");
      }
      FromSectionAppend(Require(bq, "dataset_id", Message("gcp", "bigquery.dataset_id")), ViewsErrors(bq), "gcp");
    } else {
      assert BigQueryErrors(gcp)[0] == Message("gcp", "bigquery section");
    }
  }

  lemma VertexFrom(gcp: Value)
    ensures FromSection(VertexErrors(gcp), "gcp")
  {
    if Has(gcp, "vertex_ai") {
      var vertex := Get(gcp, "vertex_ai");
      RequireFrom(vertex, "location", "gcp", "vertex_ai.location");
      RequireFrom(vertex, "model", "gcp", "vertex_ai.model");
      FromSectionAppend(Require(vertex, "location", Message("gcp", "vertex_ai.location")),
                        Require(vertex, "model", Message("gcp", "vertex_ai.model")), "gcp");
    } else {
      assert VertexErrors(gcp)[0] == Message("gcp", "vertex_ai section");
    }
  }

  lemma GcpFrom(gcp: Value)
    ensures FromSection(GcpErrors(gcp), "gcp")
  {
    var project := Require(gcp, "project_id", Message("gcp", "project_id"));
    RequireFrom(gcp, "project_id", "gcp", "project_id");
    SpannerFrom(gcp);
    BigQueryFrom(gcp);
    VertexFrom(gcp);
    FromSectionAppend(project, SpannerErrors(gcp), "gcp");
    FromSectionAppend(project + SpannerErrors(gcp), BigQueryErrors(gcp), "gcp");
    FromSectionAppend(project + SpannerErrors(gcp) + BigQueryErrors(gcp), VertexErrors(gcp), "gcp");
  }

  lemma OthersFrom(auth: Value, pipeline: Value, server: Value)
    ensures FromSection(AuthErrors(auth), "auth")
    ensures FromSection(PipelineErrors(pipeline), "pipeline")
    ensures FromSection(ServerErrors(server), "server")
  {
    RequireFrom(auth, "service_account_key", "auth", "service_account_key");
    if Has(pipeline, "ingestion") {
      RequireFrom(Get(pipeline, "ingestion"), "batch_size", "pipeline", "ingestion.batch_size");
    } else {
      assert PipelineErrors(pipeline)[0] == Message("pipeline", "ingestion section");
    }
    if Has(server, "mcp") {
      RequireFrom(Get(server, "mcp"), "port", "server", "mcp.port");
    } else {
      assert ServerErrors(server)[0] == Message("server", "mcp section");
    }
  }

  /** The messages come out block by block: the missing top-level sections
      first, then the messages of `gcp`, `auth`, `pipeline` and `server`. */
  lemma ErrorsInBlockOrder(config: map<string, Value>)
    ensures exists top, gcp, auth, pipeline, server ::
      && ConfigErrors(config) == top + gcp + auth + pipeline + server
      && SectionMessages(top)
      && FromSection(gcp, "gcp") && FromSection(auth, "auth")
      && FromSection(pipeline, "pipeline") && FromSection(server, "server")
  {
    var top := MissingOf(config, RequiredSections);
    var gcp := if "gcp" in config then GcpErrors(config["gcp"]) else [];
    var auth := if "auth" in config then AuthErrors(config["auth"]) else [];
    var pipeline := if "pipeline" in config then PipelineErrors(config["pipeline"]) else [];
    var server := if "server" in config then ServerErrors(config["server"]) else [];
    MissingOfMessages(config, RequiredSections);
    forall e | e in top ensures exists s :: s in RequiredSections && e == SectionMessage(s) {
      var i :| 0 <= i < |RequiredSections| && RequiredSections[i] !in config && e == SectionMessage(RequiredSections[i]);
    }
    if "gcp" in config { GcpFrom(config["gcp"]); }
    if "auth" in config { OthersFrom(config["auth"], Null, Null); }
    if "pipeline" in config { OthersFrom(Null, config["pipeline"], Null); }
    if "server" in config { OthersFrom(Null, Null, config["server"]); }
    assert ConfigErrors(config) == top + gcp + auth + pipeline + server;
  }
}
