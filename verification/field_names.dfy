/**
 The names of tool-internal fields that a plan must not hold, spelled out, and the proof that the
 validator finds them in any spelling and at any depth.
 */
module FieldNames {
  import opened Json
  import opened RuntimePlan
  import opened Text

  /** One of the fifteen names, whatever the letter case, the hyphens and the extra separators. */
  ghost predicate NamesInternalField(key: string) {
    NamesInput(PlainSpelling(key)) || NamesSource(PlainSpelling(key))
    || NamesDetail(PlainSpelling(key)) || NamesResult(PlainSpelling(key))
  }

  predicate NamesInput(name: string) {
    || name == "required_inputs" || name == "expected_outputs" || name == "raw_sql" || name == "table_names"
    || name == "source_ids"
  }

  predicate NamesSource(name: string) {
    || name == "retrieval_query" || name == "chunk_ids" || name == "join_plan" || name == "sample_rows"
    || name == "column_profiles"
  }

  predicate NamesDetail(name: string) {
    name == "catalog_entry_ids" || name == "approved_join_details" || name == "schema_enrichment_payload"
  }

  predicate NamesResult(name: string) {
    name == "rag_raw_chunks" || name == "sql_result_rows"
  }

  lemma TwoWords(key: string, a: string, b: string, name: string)
    requires IsWord(a) && IsWord(b) && name == a + "_" + b
    ensures Words(SnakeCase(key)) == [a, b] <==> PlainSpelling(key) == name
  {
    SpellingIsExact(key, [a, b]);
    assert [a, b][1..] == [b] && Joined([b]) == b;
  }

  lemma ThreeWords(key: string, a: string, b: string, c: string, name: string)
    requires IsWord(a) && IsWord(b) && IsWord(c) && name == a + "_" + (b + "_" + c)
    ensures Words(SnakeCase(key)) == [a, b, c] <==> PlainSpelling(key) == name
  {
    SpellingIsExact(key, [a, b, c]);
    assert [a, b, c][1..] == [b, c] && [b, c][1..] == [c] && Joined([c]) == c;
    assert Joined([b, c]) == b + "_" + c;
  }

  lemma CatalogEntryIds(key: string)
    ensures Words(SnakeCase(key)) == ["catalog", "entry", "ids"] <==> PlainSpelling(key) == "catalog_entry_ids"
  {
    assert "entry" + "_" + "ids" == "entry_ids";
    assert "catalog" + "_" + "entry_ids" == "catalog_entry_ids";
    ThreeWords(key, "catalog", "entry", "ids", "catalog_entry_ids");
  }

  lemma ApprovedJoinDetails(key: string)
    ensures Words(SnakeCase(key)) == ["approved", "join", "details"] <==> PlainSpelling(key) == "approved_join_details"
  {
    assert "join" + "_" + "details" == "join_details";
    assert "approved" + "_" + "join_details" == "approved_join_details";
    ThreeWords(key, "approved", "join", "details", "approved_join_details");
  }

  lemma SchemaEnrichmentPayload(key: string)
    ensures Words(SnakeCase(key)) == ["schema", "enrichment", "payload"] <==> PlainSpelling(key) == "schema_enrichment_payload"
  {
    assert "enrichment" + "_" + "payload" == "enrichment_payload";
    assert "schema" + "_" + "enrichment_payload" == "schema_enrichment_payload";
    ThreeWords(key, "schema", "enrichment", "payload", "schema_enrichment_payload");
  }

  lemma RagRawChunks(key: string)
    ensures Words(SnakeCase(key)) == ["rag", "raw", "chunks"] <==> PlainSpelling(key) == "rag_raw_chunks"
  {
    assert "raw" + "_" + "chunks" == "raw_chunks";
    assert "rag" + "_" + "raw_chunks" == "rag_raw_chunks";
    ThreeWords(key, "rag", "raw", "chunks", "rag_raw_chunks");
  }

  lemma SqlResultRows(key: string)
    ensures Words(SnakeCase(key)) == ["sql", "result", "rows"] <==> PlainSpelling(key) == "sql_result_rows"
  {
    assert "result" + "_" + "rows" == "result_rows";
    assert "sql" + "_" + "result_rows" == "sql_result_rows";
    ThreeWords(key, "sql", "result", "rows", "sql_result_rows");
  }

  lemma InputNames(key: string)
    ensures NamesInput(PlainSpelling(key)) <==>
      || Words(SnakeCase(key)) == ["required", "inputs"]
      || Words(SnakeCase(key)) == ["expected", "outputs"]
      || Words(SnakeCase(key)) == ["raw", "sql"]
      || Words(SnakeCase(key)) == ["table", "names"]
      || Words(SnakeCase(key)) == ["source", "ids"]
  {
    TwoWords(key, "required", "inputs", "required_inputs");
    TwoWords(key, "expected", "outputs", "expected_outputs");
    TwoWords(key, "raw", "sql", "raw_sql");
    TwoWords(key, "table", "names", "table_names");
    TwoWords(key, "source", "ids", "source_ids");
  }

  lemma SourceNames(key: string)
    ensures NamesSource(PlainSpelling(key)) <==>
      || Words(SnakeCase(key)) == ["retrieval", "query"]
      || Words(SnakeCase(key)) == ["chunk", "ids"]
      || Words(SnakeCase(key)) == ["join", "plan"]
      || Words(SnakeCase(key)) == ["sample", "rows"]
      || Words(SnakeCase(key)) == ["column", "profiles"]
  {
    TwoWords(key, "retrieval", "query", "retrieval_query");
    TwoWords(key, "chunk", "ids", "chunk_ids");
    TwoWords(key, "join", "plan", "join_plan");
    TwoWords(key, "sample", "rows", "sample_rows");
    TwoWords(key, "column", "profiles", "column_profiles");
  }

  lemma DetailNames(key: string)
    ensures NamesDetail(PlainSpelling(key)) <==>
      || Words(SnakeCase(key)) == ["catalog", "entry", "ids"]
      || Words(SnakeCase(key)) == ["approved", "join", "details"]
      || Words(SnakeCase(key)) == ["schema", "enrichment", "payload"]
  {
    CatalogEntryIds(key);
    ApprovedJoinDetails(key);
    SchemaEnrichmentPayload(key);
  }

  lemma ResultNames(key: string)
    ensures NamesResult(PlainSpelling(key)) <==>
      || Words(SnakeCase(key)) == ["rag", "raw", "chunks"]
      || Words(SnakeCase(key)) == ["sql", "result", "rows"]
  {
    RagRawChunks(key);
    SqlResultRows(key);
  }

  /** The validator's test of a key. */
  lemma ForbiddenKeyIsExact(key: string)
    ensures ForbiddenKey(key) <==> NamesInternalField(key)
  {
    InputNames(key);
    SourceNames(key);
    DetailNames(key);
    ResultNames(key);
  }

  /** A value inside another, at any depth. */
  ghost predicate Within(inner: Json, outer: Json)
    decreases outer
  {
    || inner == outer
    || (outer.Arr? && exists i :: 0 <= i < |outer.items| && Within(inner, outer.items[i]))
    || (outer.Obj? && exists key :: key in outer.fields && Within(inner, outer.fields[key]))
  }

  /** Some object inside the value has a key that names a tool-internal field. */
  ghost predicate HoldsInternalField(j: Json) {
    exists inner: Json, key :: Within(inner, j) && inner.Obj? && key in inner.fields && NamesInternalField(key)
  }

  lemma {:induction false} FreeMeansNone(j: Json, inner: Json, key: string)
    requires FreeOfForbiddenFields(j) && Within(inner, j) && inner.Obj? && key in inner.fields
    ensures !NamesInternalField(key)
    decreases j
  {
    if inner == j {
      ForbiddenKeyIsExact(key);
    } else if j.Arr? {
      var i :| 0 <= i < |j.items| && Within(inner, j.items[i]);
      FreeMeansNone(j.items[i], inner, key);
    } else if j.Obj? {
      var k :| k in j.fields && Within(inner, j.fields[k]);
      FreeMeansNone(j.fields[k], inner, key);
    }
  }

  lemma {:induction false} NotFreeMeansSome(j: Json) returns (inner: Json, key: string)
    requires !FreeOfForbiddenFields(j)
    ensures Within(inner, j) && inner.Obj? && key in inner.fields && NamesInternalField(key)
    decreases j
  {
    if j.Arr? {
      var i :| 0 <= i < |j.items| && !FreeOfForbiddenFields(j.items[i]);
      inner, key := NotFreeMeansSome(j.items[i]);
    } else {
      var k :| k in j.fields && (ForbiddenKey(k) || !FreeOfForbiddenFields(j.fields[k]));
      if ForbiddenKey(k) {
        ForbiddenKeyIsExact(k);
        inner, key := j, k;
      } else {
        inner, key := NotFreeMeansSome(j.fields[k]);
      }
    }
  }

  /** The validator's search looks everywhere and finds nothing else. */
  lemma SearchIsExact(j: Json)
    ensures FreeOfForbiddenFields(j) <==> !HoldsInternalField(j)
  {
    if FreeOfForbiddenFields(j) {
      forall inner: Json, key | Within(inner, j) && inner.Obj? && key in inner.fields
        ensures !NamesInternalField(key)
      {
        FreeMeansNone(j, inner, key);
      }
    } else {
      var inner, key := NotFreeMeansSome(j);
    }
  }
}
