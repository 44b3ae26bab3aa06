/** The Wikidata loader: the transformation of entity and edge rows into the
    column layout of the graph tables, and the batched load that counts the
    rows whose batch was committed. The warehouse query and the database are
    parameters: the rows arrive as a sequence, and a batch commit is a
    function that answers whether the commit went through. */
module Wikidata {
  import opened Wrappers
  import opened Values
  import opened Text

  /** A result row, read by column name. */
  type Row = map<string, Value>

  /** One column value of a table row: a plain value, the confidence score,
      a JSON document (the text of `json.dumps` of the value), or the
      commit-timestamp placeholder that the database fills in. */
  datatype Cell =
    | Plain(value: Value)
    | Real(r: real)
    | Json(doc: Value)
    | CommitTimestamp

  /** `row.get(key)`: the stored value, or `None`. */
  function Get(row: Row, key: string): (v: Value)
    ensures key !in row ==> v == Null
    ensures key in row ==> v == row[key]
  {
    if key in row then row[key] else Null
  }

  function KeyError(key: string): string {
    "KeyError: '" + key + "'"
  }

  // ---------------------------------------------------------------------
  // Entity types

  /** The Wikidata classes the loader names. */
  const EntityTypeMap: map<string, string> := map["Q5" := "Human", "Q43229" := "Organization", "Q515" := "City"]

  /** `_get_entity_type(instance_of_id)` */
  function EntityType(instanceOfId: string): (r: string)
    ensures instanceOfId in EntityTypeMap ==> r == EntityTypeMap[instanceOfId]
    ensures r == "Unknown" <==> instanceOfId !in EntityTypeMap
  {
    if instanceOfId in EntityTypeMap then EntityTypeMap[instanceOfId] else "Unknown"
  }

  /** The three named classes, and the fallback for any other id. */
  lemma EntityTypesOfTheMap(other: string)
    requires other != "Q5" && other != "Q43229" && other != "Q515"
    ensures EntityType("Q5") == "Human" && EntityType("Q43229") == "Organization"
    ensures EntityType("Q515") == "City" && EntityType(other) == "Unknown"
  {
    assert "Q5" in EntityTypeMap && "Q43229" in EntityTypeMap && "Q515" in EntityTypeMap;
  }

  /** A dictionary lookup with a list or dictionary as key raises. */
  predicate Hashable(v: Value) {
    !v.List? && !v.Dict?
  }

  const UnhashableMessage := "TypeError: unhashable type"

  /** `entity_type_map.get(row.get("primary_instance_of_id", ""), "Unknown")`:
      a string is looked up, any other hashable value is no key of the map. */
  function EntityTypeOf(row: Row): (r: Result<string, string>)
    ensures r.Failure? <==> !Hashable(Get(row, "primary_instance_of_id"))
    ensures "primary_instance_of_id" !in row ==> r == Success("Unknown")
    ensures r.Success? && r.value != "Unknown" ==>
      exists id :: id in EntityTypeMap && row["primary_instance_of_id"] == Str(id)
  {
    if "primary_instance_of_id" !in row then Success(EntityType(""))
    else
      match row["primary_instance_of_id"]
      case Str(id) => Success(EntityType(id))
      case List(_) => Failure(UnhashableMessage)
      case Dict(_) => Failure(UnhashableMessage)
      case _ => Success("Unknown")
  }

  // ---------------------------------------------------------------------
  // Entity rows

  const EntityColumns: seq<string> := [
    "vid", "entity_type", "label", "description", "confidence_score",
    "type_specific_attributes", "raw_claims", "created_at"
  ]

  /** The fields with a column of their own; the others go to the
      type-specific attributes. */
  const EntityReserved: set<string> := {"id", "primary_instance_of_id", "label", "description"}

  /** `{k: v for k, v in row.items() if k not in [...]}` */
  function TypeSpecific(row: Row): (r: Row)
    ensures forall k :: k in r <==> k in row && k !in EntityReserved
    ensures forall k :: k in r ==> r[k] == row[k]
  {
    map k | k in row && k !in EntityReserved :: row[k]
  }

  /** `json.dumps(value)` when the condition holds, else `None`. */
  function JsonOrNull(present: bool, value: Value): Cell {
    if present then Json(value) else Plain(Null)
  }

  /** `_transform_entity(row)`: the eight column values, or the error raised. */
  function TransformEntity(row: Row): (r: Result<seq<Cell>, string>)
    ensures r.Failure? <==> "id" !in row || !Hashable(Get(row, "primary_instance_of_id"))
    ensures "id" !in row ==> r == Failure(KeyError("id"))
    ensures r.Success? ==> |r.value| == |EntityColumns|
  {
    if "id" !in row then Failure(KeyError("id"))
    else
      match EntityTypeOf(row)
      case Failure(e) => Failure(e)
      case Success(entityType) =>
        var typeSpecific := TypeSpecific(row);
        Success([
          Plain(row["id"]),
          Plain(Str(entityType)),
          Plain(Get(row, "label")),
          Plain(Get(row, "description")),
          Real(1.0),
          JsonOrNull(typeSpecific != map[], Dict(typeSpecific)),
          JsonOrNull("claims" in row, Get(row, "claims")),
          CommitTimestamp
        ])
  }

  /** What each column of a transformed entity holds. */
  lemma EntityColumnsHold(row: Row)
    requires TransformEntity(row).Success?
    ensures
      var cells := TransformEntity(row).value;
      && cells[0] == Plain(row["id"])
      && EntityTypeOf(row).Success? && cells[1] == Plain(Str(EntityTypeOf(row).value))
      && cells[2] == Plain(Get(row, "label")) && cells[3] == Plain(Get(row, "description"))
      && cells[4] == Real(1.0)
      && cells[7] == CommitTimestamp
  {
  }

  /** The type-specific attributes are the fields without a column of their
      own, and they are `None` exactly when there are none. */
  lemma TypeSpecificColumn(row: Row)
    requires TransformEntity(row).Success?
    ensures
      var cell := TransformEntity(row).value[5];
      && (cell == Plain(Null) <==> forall k :: k in row ==> k in EntityReserved)
      && (cell != Plain(Null) ==> cell == Json(Dict(TypeSpecific(row))))
  {
    var t := TypeSpecific(row);
    if forall k :: k in row ==> k in EntityReserved {
      assert t == map[];
    } else {
      var k :| k in row && k !in EntityReserved;
      assert k in t;
    }
  }

  /** The raw claims are `None` exactly when the row has no claims field. */
  lemma RawClaimsColumn(row: Row)
    requires TransformEntity(row).Success?
    ensures TransformEntity(row).value[6] == Plain(Null) <==> "claims" !in row
    ensures "claims" in row ==> TransformEntity(row).value[6] == Json(row["claims"])
  {
  }

  // ---------------------------------------------------------------------
  // Edge rows

  const EdgeColumns: seq<string> := [
    "from_vid", "to_vid", "edge_type", "start_date", "end_date", "role", "rank",
    "properties", "created_at"
  ]

  const DefaultEdgeLabel := "RELATED_TO"

  const NoUpperMessage := "AttributeError: object has no attribute 'upper'"

  /** `row.get("edge_label", "RELATED_TO").upper()`: only a string has `upper`. */
  function EdgeType(row: Row): (r: Result<string, string>)
    ensures "edge_label" !in row ==> r == Success(DefaultEdgeLabel)
    ensures r.Failure? <==> "edge_label" in row && !row["edge_label"].Str?
    ensures r.Success? ==> forall i :: 0 <= i < |r.value| ==> !IsAsciiLower(r.value[i])
  {
    if "edge_label" !in row then
      UpperOfUpperCase(DefaultEdgeLabel);
      Success(Upper(DefaultEdgeLabel))
    else
      match row["edge_label"]
      case Str(given) => Success(Upper(given))
      case _ => Failure(NoUpperMessage)
  }

  /** A given label is kept, upper-cased. */
  lemma EdgeTypeOfLabel(row: Row, given: string)
    requires "edge_label" in row && row["edge_label"] == Str(given)
    ensures EdgeType(row) == Success(Upper(given))
    ensures |EdgeType(row).value| == |given|
  {
  }

  /** `_transform_edge(row)`: the nine column values, or the error raised. */
  function TransformEdge(row: Row): (r: Result<seq<Cell>, string>)
    ensures "from_id" !in row ==> r == Failure(KeyError("from_id"))
    ensures "from_id" in row && "to_id" !in row ==> r == Failure(KeyError("to_id"))
    ensures r.Success? <==> "from_id" in row && "to_id" in row && EdgeType(row).Success?
    ensures r.Success? ==> |r.value| == |EdgeColumns|
  {
    if "from_id" !in row then Failure(KeyError("from_id"))
    else if "to_id" !in row then Failure(KeyError("to_id"))
    else
      match EdgeType(row)
      case Failure(e) => Failure(e)
      case Success(edgeType) =>
        Success([
          Plain(row["from_id"]),
          Plain(row["to_id"]),
          Plain(Str(edgeType)),
          Plain(Get(row, "start_date")),
          Plain(Get(row, "end_date")),
          Plain(Get(row, "role")),
          Plain(Get(row, "rank")),
          JsonOrNull("properties" in row, Get(row, "properties")),
          CommitTimestamp
        ])
  }

  /** What each column of a transformed edge holds. */
  lemma EdgeColumnsHold(row: Row)
    requires TransformEdge(row).Success?
    ensures
      var cells := TransformEdge(row).value;
      && cells[0] == Plain(row["from_id"]) && cells[1] == Plain(row["to_id"])
      && cells[2] == Plain(Str(EdgeType(row).value))
      && cells[3] == Plain(Get(row, "start_date")) && cells[4] == Plain(Get(row, "end_date"))
      && cells[5] == Plain(Get(row, "role")) && cells[6] == Plain(Get(row, "rank"))
      && (cells[7] == Plain(Null) <==> "properties" !in row)
      && cells[8] == CommitTimestamp
  {
  }

  // ---------------------------------------------------------------------
  // Batches

  function Min(a: int, b: int): int {
    if a <= b then a else b
  }

  /** `[rows[i:i + size] for i in range(0, len(rows), size)]` */
  function Batches<T>(rows: seq<T>, size: nat): (bs: seq<seq<T>>)
    requires size > 0
    ensures rows == [] <==> bs == []
    decreases |rows|
  {
    if rows == [] then []
    else
      var k := Min(size, |rows|);
      [rows[..k]] + Batches(rows[k..], size)
  }

  /** No batch is empty, and none holds more than `size` rows. */
  lemma {:induction false} BatchSizes<T>(rows: seq<T>, size: nat)
    requires size > 0
    ensures forall j :: 0 <= j < |Batches(rows, size)| ==> 0 < |Batches(rows, size)[j]| <= size
    decreases |rows|
  {
    if rows != [] {
      var k := Min(size, |rows|);
      var bs := Batches(rows, size);
      BatchSizes(rows[k..], size);
      forall j | 0 < j < |bs| ensures 0 < |bs[j]| <= size {
        assert bs[j] == Batches(rows[k..], size)[j - 1];
      }
    }
  }

  function Flatten<T>(bs: seq<seq<T>>): seq<T> {
    if bs == [] then [] else bs[0] + Flatten(bs[1..])
  }

  /** The batches, put back together, are the rows in their order. */
  lemma {:induction false} BatchesPartition<T>(rows: seq<T>, size: nat)
    requires size > 0
    ensures Flatten(Batches(rows, size)) == rows
    decreases |rows|
  {
    if rows != [] {
      var k := Min(size, |rows|);
      BatchesPartition(rows[k..], size);
      assert Batches(rows, size)[1..] == Batches(rows[k..], size);
      assert rows == rows[..k] + rows[k..];
    }
  }

  /** Every batch but the last is full. */
  lemma {:induction false} BatchesFull<T>(rows: seq<T>, size: nat)
    requires size > 0
    ensures forall j :: 0 <= j < |Batches(rows, size)| - 1 ==> |Batches(rows, size)[j]| == size
    decreases |rows|
  {
    if rows != [] {
      var k := Min(size, |rows|);
      var bs := Batches(rows, size);
      BatchesFull(rows[k..], size);
      assert bs[1..] == Batches(rows[k..], size);
      forall j | 0 <= j < |bs| - 1 ensures |bs[j]| == size {
        if j == 0 {
          assert rows[k..] != [];
        } else {
          assert bs[j] == bs[1..][j - 1];
        }
      }
    }
  }

  /** Batch j is the slice that starts at `j * size`. */
  lemma {:induction false} BatchIsSlice<T>(rows: seq<T>, size: nat, j: nat)
    requires size > 0 && j < |Batches(rows, size)|
    ensures j * size < |rows|
    ensures Batches(rows, size)[j] == rows[j * size..Min(j * size + size, |rows|)]
    decreases |rows|
  {
    var k := Min(size, |rows|);
    if j > 0 {
      var rest := rows[k..];
      assert Batches(rows, size)[j] == Batches(rest, size)[j - 1];
      assert rest != [];
      BatchIsSlice(rest, size, j - 1);
      ShiftSlice(rows, size, j);
    }
  }

  /** The slice of the rest that starts one batch later. */
  lemma ShiftSlice<T>(rows: seq<T>, size: nat, j: nat)
    requires 0 < size < |rows| && j > 0 && (j - 1) * size < |rows| - size
    ensures j * size < |rows|
    ensures rows[size..][(j - 1) * size..Min((j - 1) * size + size, |rows| - size)]
         == rows[j * size..Min(j * size + size, |rows|)]
  {
    var p := (j - 1) * size;
    assert p + size == j * size;
  }

  // ---------------------------------------------------------------------
  // Loading

  const RangeStepZero := "ValueError: range() arg 3 must not be zero"

  /** The transformed rows of a batch, or the first error raised. */
  function TransformAll(batch: seq<Row>, transform: Row -> Result<seq<Cell>, string>): (r: Result<seq<seq<Cell>>, string>)
    decreases |batch|
  {
    if batch == [] then Success([])
    else
      match transform(batch[0])
      case Failure(e) => Failure(e)
      case Success(values) =>
        match TransformAll(batch[1..], transform)
        case Failure(e) => Failure(e)
        case Success(rest) => Success([values] + rest)
  }

  /** A batch transforms iff every row does, and then row by row. */
  lemma {:induction false} TransformAllRows(batch: seq<Row>, transform: Row -> Result<seq<Cell>, string>)
    ensures TransformAll(batch, transform).Success? <==> forall i :: 0 <= i < |batch| ==> transform(batch[i]).Success?
    ensures TransformAll(batch, transform).Success? ==> |TransformAll(batch, transform).value| == |batch|
    ensures TransformAll(batch, transform).Success? ==>
      forall i :: 0 <= i < |batch| ==> TransformAll(batch, transform).value[i] == transform(batch[i]).value
    decreases |batch|
  {
    if batch != [] {
      TransformAllRows(batch[1..], transform);
      assert forall i :: 1 <= i < |batch| ==> batch[i] == batch[1..][i - 1];
    }
  }

  /** A batch counts when every row transforms and the commit goes through;
      an error inside the batch aborts it. */
  predicate BatchLoads(batch: seq<Row>, transform: Row -> Result<seq<Cell>, string>, commit: seq<seq<Cell>> -> bool) {
    var values := TransformAll(batch, transform);
    values.Success? && commit(values.value)
  }

  /** `BatchLoads` as a test on batches. */
  function Loads(transform: Row -> Result<seq<Cell>, string>, commit: seq<seq<Cell>> -> bool): seq<Row> -> bool {
    batch => BatchLoads(batch, transform, commit)
  }

  /** The number of rows in the batches that pass the test. */
  function Committed<T>(bs: seq<seq<T>>, loads: seq<T> -> bool): nat
  {
    if bs == [] then 0
    else (if loads(bs[0]) then |bs[0]| else 0) + Committed(bs[1..], loads)
  }

  /** The count `load_entities` / `load_edges` return, or the error raised. */
  function LoadOutcome(rows: seq<Row>, batchSize: int, dryRun: bool,
                       transform: Row -> Result<seq<Cell>, string>, commit: seq<seq<Cell>> -> bool): (r: Result<nat, string>)
    ensures r.Failure? <==> batchSize == 0
    ensures batchSize != 0 && (batchSize < 0 || dryRun) ==> r == Success(0)
  {
    if batchSize == 0 then Failure(RangeStepZero)
    else if batchSize < 0 || dryRun then Success(0)
    else Success(Committed(Batches(rows, batchSize), Loads(transform, commit)))
  }

  /** The rows from position i on. */
  function Drop<T>(rows: seq<T>, i: nat): seq<T> {
    if i <= |rows| then rows[i..] else []
  }

  /** The batched load loop shared by `load_entities` and `load_edges`. */
  method LoadRows(rows: seq<Row>, batchSize: int, dryRun: bool,
                  transform: Row -> Result<seq<Cell>, string>, commit: seq<seq<Cell>> -> bool)
    returns (r: Result<nat, string>)
    ensures r == LoadOutcome(rows, batchSize, dryRun, transform, commit)
  {
    if batchSize == 0 {
      return Failure(RangeStepZero);
    }
    var loaded := 0;
    if batchSize > 0 && !dryRun {
      loaded := LoadBatches(rows, batchSize, transform, commit);
    }
    return Success(loaded);
  }

  /** `for i in range(0, len(rows), batch_size)` with a positive step, outside
      a dry run (a dry run only logs each batch). */
  method LoadBatches(rows: seq<Row>, size: nat,
                     transform: Row -> Result<seq<Cell>, string>, commit: seq<seq<Cell>> -> bool)
    returns (loaded: nat)
    requires size > 0
    ensures loaded == Committed(Batches(rows, size), Loads(transform, commit))
  {
    ghost var loads := Loads(transform, commit);
    loaded := 0;
    var i: nat := 0;
    while i < |rows|
      invariant loaded + Remaining(rows, size, i, loads) == Remaining(rows, size, 0, loads)
      decreases |rows| - i
    {
      var batch := rows[i..Min(i + size, |rows|)];
      var ok := InsertBatch(batch, transform, commit);
      assert Remaining(rows, size, i, loads) == (if ok then |batch| else 0) + Remaining(rows, size, i + size, loads);
      if ok {
        loaded := loaded + |batch|;
      }
      i := i + size;
    }
    RemainingCommitted(rows, size, 0, loads);
    assert Drop(rows, 0) == rows;
  }

  /** What the loop still adds from position i on: the batch at i, if it
      loads, then the rest. */
  function Remaining<T>(rows: seq<T>, size: nat, i: nat, loads: seq<T> -> bool): nat
    requires size > 0
    decreases |rows| - i
  {
    if i >= |rows| then 0
    else
      var batch := rows[i..Min(i + size, |rows|)];
      (if loads(batch) then |batch| else 0) + Remaining(rows, size, i + size, loads)
  }

  /** The loop's running count agrees with the batches of the rest. */
  lemma {:induction false} RemainingCommitted<T>(rows: seq<T>, size: nat, i: nat, loads: seq<T> -> bool)
    requires size > 0
    ensures Remaining(rows, size, i, loads) == Committed(Batches(Drop(rows, i), size), loads)
    decreases |rows| - i
  {
    if i < |rows| {
      RemainingCommitted(rows, size, i + size, loads);
      var rest := Drop(rows, i);
      var k := Min(size, |rest|);
      assert rest[..k] == rows[i..Min(i + size, |rows|)];
      assert rest[k..] == Drop(rows, i + size);
      CommittedCons(rest[..k], Batches(rest[k..], size), loads);
    }
  }

  lemma CommittedCons<T>(b: seq<T>, bs: seq<seq<T>>, loads: seq<T> -> bool)
    ensures Committed([b] + bs, loads) == (if loads(b) then |b| else 0) + Committed(bs, loads)
  {
    assert ([b] + bs)[1..] == bs;
  }

  /** The body of the `try`: transform every row of the batch inside one
      database batch, which commits on leaving the block; an error raised
      anywhere is caught and the batch is not counted. */
  method InsertBatch(batch: seq<Row>, transform: Row -> Result<seq<Cell>, string>, commit: seq<seq<Cell>> -> bool)
    returns (ok: bool)
    ensures ok == Loads(transform, commit)(batch)
  {
    var values := TransformBatch(batch, transform);
    ok := values.Success? && commit(values.value);
  }

  /** `for row in batch: values = transform(row)`, stopping at the first error. */
  method TransformBatch(batch: seq<Row>, transform: Row -> Result<seq<Cell>, string>)
    returns (r: Result<seq<seq<Cell>>, string>)
    ensures r == TransformAll(batch, transform)
  {
    var values: seq<seq<Cell>> := [];
    var i := 0;
    while i < |batch|
      invariant 0 <= i <= |batch|
      invariant forall j :: 0 <= j < i ==> transform(batch[j]).Success?
      invariant |values| == i && forall j :: 0 <= j < i ==> values[j] == transform(batch[j]).value
    {
      var t := transform(batch[i]);
      if t.Failure? {
        FirstFailure(batch, transform, i);
        return Failure(t.error);
      }
      values := values + [t.value];
      i := i + 1;
    }
    TransformAllRows(batch, transform);
    assert TransformAll(batch, transform).value == values;
    r := Success(values);
  }

  /** When the rows before i transform and row i does not, the batch fails with its error. */
  lemma {:induction false} FirstFailure(batch: seq<Row>, transform: Row -> Result<seq<Cell>, string>, i: nat)
    requires i < |batch| && transform(batch[i]).Failure?
    requires forall j :: 0 <= j < i ==> transform(batch[j]).Success?
    ensures TransformAll(batch, transform) == Failure(transform(batch[i]).error)
    decreases i
  {
    if i > 0 {
      assert transform(batch[0]).Success?;
      FirstFailure(batch[1..], transform, i - 1);
    }
  }

  /** `load_entities(batch_size, dry_run)` on the rows the warehouse returned. */
  method LoadEntities(rows: seq<Row>, batchSize: int, dryRun: bool, commit: seq<seq<Cell>> -> bool)
    returns (r: Result<nat, string>)
    ensures r == LoadOutcome(rows, batchSize, dryRun, TransformEntity, commit)
  {
    r := LoadRows(rows, batchSize, dryRun, TransformEntity, commit);
  }

  /** `load_edges(batch_size, dry_run)` on the rows the warehouse returned. */
  method LoadEdges(rows: seq<Row>, batchSize: int, dryRun: bool, commit: seq<seq<Cell>> -> bool)
    returns (r: Result<nat, string>)
    ensures r == LoadOutcome(rows, batchSize, dryRun, TransformEdge, commit)
  {
    r := LoadRows(rows, batchSize, dryRun, TransformEdge, commit);
  }

  // ---------------------------------------------------------------------
  // What the count means

  /** No more rows are counted than there are. */
  lemma {:induction false} CommittedAtMostRows<T>(rows: seq<T>, size: nat, loads: seq<T> -> bool)
    requires size > 0
    ensures Committed(Batches(rows, size), loads) <= |rows|
    decreases |rows|
  {
    if rows != [] {
      var k := Min(size, |rows|);
      CommittedAtMostRows(rows[k..], size, loads);
      assert Batches(rows, size)[1..] == Batches(rows[k..], size);
    }
  }

  /** Every row is counted exactly when every batch passes. */
  lemma {:induction false} CommittedAllIff<T>(rows: seq<T>, size: nat, loads: seq<T> -> bool)
    requires size > 0
    ensures
      var bs := Batches(rows, size);
      Committed(bs, loads) == |rows| <==> forall j :: 0 <= j < |bs| ==> loads(bs[j])
    decreases |rows|
  {
    if rows != [] {
      var k := Min(size, |rows|);
      var bs := Batches(rows, size);
      var tail := Batches(rows[k..], size);
      CommittedAllIff(rows[k..], size, loads);
      CommittedAtMostRows(rows[k..], size, loads);
      assert bs[1..] == tail;
      assert bs[0] == rows[..k];
      assert (forall j :: 0 <= j < |bs| ==> loads(bs[j]))
         <==> loads(bs[0]) && forall j :: 0 <= j < |tail| ==> loads(tail[j]) by {
        assert forall j :: 0 <= j < |tail| ==> tail[j] == bs[j + 1];
        assert forall j :: 0 < j < |bs| ==> bs[j] == tail[j - 1];
      }
    }
  }

  /** The returned count is at most the number of rows, and equals it exactly
      when every batch is committed. */
  lemma LoadCountBounds(rows: seq<Row>, batchSize: int, dryRun: bool,
                        transform: Row -> Result<seq<Cell>, string>, commit: seq<seq<Cell>> -> bool)
    requires batchSize != 0
    ensures LoadOutcome(rows, batchSize, dryRun, transform, commit).value <= |rows|
    ensures batchSize > 0 && !dryRun ==>
      (LoadOutcome(rows, batchSize, dryRun, transform, commit).value == |rows|
       <==> forall j :: 0 <= j < |Batches(rows, batchSize)| ==> BatchLoads(Batches(rows, batchSize)[j], transform, commit))
  {
    if batchSize > 0 && !dryRun {
      CommittedAtMostRows(rows, batchSize, Loads(transform, commit));
      CommittedAllIff(rows, batchSize, Loads(transform, commit));
    }
  }
}
