// The prompt generator: which template a query gets, the schema context of
// the selected tables with the foreign keys guessed from column names, and
// the prompt built for a query from its search results.

module PromptGeneration {
  import opened Wrappers
  import opened Strings
  import opened Sequences
  import opened Dicts
  import opened Values
  import opened SchemaLoading

  // ---------------------------------------------------------------------
  // auto_generate_prompt: the template choice
  // ---------------------------------------------------------------------

  const AnalyticsKeywords: seq<string> :=
    ["count", "sum", "total", "average", "avg", "max", "min",
     "group by", "having", "aggregate", "report", "statistics"]

  const ComplexKeywords: seq<string> := ["join", "relationship", "between", "across", "multiple"]

  /** any(word in text for word in words) */
  predicate AnyIn(words: seq<string>, text: string) {
    exists k :: 0 <= k < |words| && Contains(text, words[k])
  }

  /** The aggregation type of an analytics query: count, then sum/total, then average/avg. */
  function AggregationType(lower: string): (r: string)
    ensures r == "count" || r == "sum" || r == "average" || r == "aggregation"
  {
    if Contains(lower, "count") then "count"
    else if AnyIn(["sum", "total"], lower) then "sum"
    else if AnyIn(["average", "avg"], lower) then "average"
    else "aggregation"
  }

  datatype TemplateKind = BasicTemplate | AdvancedTemplate | AnalyticsTemplate(aggregationType: string)

  /** The template auto_generate_prompt picks for a query and a number of selected tables. */
  function ChooseTemplate(query: string, tableCount: nat): TemplateKind {
    var lower := ToLower(query);
    if AnyIn(AnalyticsKeywords, lower) then AnalyticsTemplate(AggregationType(lower))
    else if tableCount > 1 || AnyIn(ComplexKeywords, lower) then AdvancedTemplate
    else BasicTemplate
  }

  /**
   * The three templates split the queries:
   * analytics iff some analytics keyword occurs; advanced iff none does and
   * there is more than one table or a complex keyword; basic otherwise.
   */
  lemma ChooseTemplateCases(query: string, tableCount: nat)
    ensures var lower := ToLower(query);
      && (ChooseTemplate(query, tableCount).AnalyticsTemplate? <==> AnyIn(AnalyticsKeywords, lower))
      && (ChooseTemplate(query, tableCount).AdvancedTemplate? <==>
            !AnyIn(AnalyticsKeywords, lower) && (tableCount > 1 || AnyIn(ComplexKeywords, lower)))
      && (ChooseTemplate(query, tableCount).BasicTemplate? <==>
            !AnyIn(AnalyticsKeywords, lower) && tableCount <= 1 && !AnyIn(ComplexKeywords, lower))
  {
  }

  /** A query mentioning "count" anywhere (also inside a word) is an analytics count query. */
  lemma CountQuery(query: string, tableCount: nat)
    requires Contains(ToLower(query), "count")
    ensures ChooseTemplate(query, tableCount) == AnalyticsTemplate("count")
  {
    assert AnalyticsKeywords[0] == "count";
  }

  /** Without "count", "sum" or "total" outranks "average" and "avg". */
  lemma SumBeforeAverage(query: string, tableCount: nat)
    requires !Contains(ToLower(query), "count")
    requires Contains(ToLower(query), "sum") || Contains(ToLower(query), "total")
    ensures ChooseTemplate(query, tableCount) == AnalyticsTemplate("sum")
  {
    var lower := ToLower(query);
    if Contains(lower, "sum") {
      assert AnalyticsKeywords[1] == "sum";
      assert ["sum", "total"][0] == "sum";
    } else {
      assert AnalyticsKeywords[2] == "total";
      assert ["sum", "total"][1] == "total";
    }
  }

  /** "average" or "avg" without count, sum or total gives the average type. */
  lemma AverageQuery(query: string, tableCount: nat)
    requires !Contains(ToLower(query), "count") && !Contains(ToLower(query), "sum") && !Contains(ToLower(query), "total")
    requires Contains(ToLower(query), "average") || Contains(ToLower(query), "avg")
    ensures ChooseTemplate(query, tableCount) == AnalyticsTemplate("average")
  {
    var lower := ToLower(query);
    if Contains(lower, "average") {
      assert AnalyticsKeywords[3] == "average";
      assert ["average", "avg"][0] == "average";
    } else {
      assert AnalyticsKeywords[4] == "avg";
      assert ["average", "avg"][1] == "avg";
    }
    assert !AnyIn(["sum", "total"], lower) by {
      forall k | 0 <= k < 2 ensures !Contains(lower, ["sum", "total"][k]) {
        if k == 0 { assert ["sum", "total"][0] == "sum"; } else { assert ["sum", "total"][1] == "total"; }
      }
    }
  }

  /** More than one selected table never gets the basic template. */
  lemma SeveralTablesNotBasic(query: string, tableCount: nat)
    requires tableCount > 1
    ensures !ChooseTemplate(query, tableCount).BasicTemplate?
  {
  }

  // ---------------------------------------------------------------------
  // get_schema_context: foreign-key guessing
  // ---------------------------------------------------------------------

  /** col_key.replace('_id', '') followed by the master and header variants. */
  function RefCandidates(key: string): seq<string> {
    var base := RemoveAll(key, "_id");
    [base, base + "_mstr", base + "_hdr"]
  }

  /** A key names a foreign key when it ends in _id and is not the table's own {table}_id. */
  predicate IsForeignKeyColumn(table: string, key: string) {
    IsSuffix("_id", key) && key != table + "_id"
  }

  /** A candidate is taken when it is among the selected tables and is not the table itself. */
  predicate Eligible(candidate: string, table: string, selected: seq<Value>) {
    Str(candidate) in selected && candidate != table
  }

  /** The first eligible candidate, in list order. */
  function FirstEligible(cands: seq<string>, table: string, selected: seq<Value>): (r: Option<string>)
    ensures r.Some? ==> Eligible(r.value, table, selected)
    ensures r.Some? ==> exists i :: (0 <= i < |cands| && cands[i] == r.value &&
      forall j :: 0 <= j < i ==> !Eligible(cands[j], table, selected))
    ensures r.None? <==> forall i :: 0 <= i < |cands| ==> !Eligible(cands[i], table, selected)
  {
    if cands == [] then None
    else if Eligible(cands[0], table, selected) then Some(cands[0])
    else
      var r := FirstEligible(cands[1..], table, selected);
      assert r.Some? ==> exists i :: (1 <= i < |cands| && cands[i] == r.value &&
        forall j :: 0 <= j < i ==> !Eligible(cands[j], table, selected)) by {
        if r.Some? {
          var i :| 0 <= i < |cands[1..]| && cands[1..][i] == r.value &&
            forall j :: 0 <= j < i ==> !Eligible(cands[1..][j], table, selected);
          assert forall j :: 0 <= j < i + 1 ==> !Eligible(cands[j], table, selected) by {
            forall j | 0 <= j < i + 1 ensures !Eligible(cands[j], table, selected) {
              if j > 0 { assert cands[j] == cands[1..][j - 1]; }
            }
          }
          assert cands[i + 1] == r.value;
        }
      }
      assert r.None? ==> forall i :: 0 <= i < |cands| ==> !Eligible(cands[i], table, selected) by {
        if r.None? {
          forall i | 0 <= i < |cands| ensures !Eligible(cands[i], table, selected) {
            if i > 0 { assert cands[i] == cands[1..][i - 1]; }
          }
        }
      }
      r
  }

  /** The table a column's key points to, if the guess finds one. */
  function ForeignKey(table: string, key: string, selected: seq<Value>): Option<string> {
    if IsForeignKeyColumn(table, key) then FirstEligible(RefCandidates(key), table, selected) else None
  }

  /**
   * A guessed reference comes from a key ending in _id other than
   * {table}_id, is a selected table other than the table itself, and is the
   * first of base, base_mstr, base_hdr that qualifies.
   */
  lemma ForeignKeyMeaning(table: string, key: string, selected: seq<Value>)
    ensures var r := ForeignKey(table, key, selected);
      && (r.Some? ==> IsSuffix("_id", key) && key != table + "_id")
      && (r.Some? ==> Str(r.value) in selected && r.value != table)
      && (r.Some? ==> exists i :: (0 <= i < 3 && RefCandidates(key)[i] == r.value &&
            forall j :: 0 <= j < i ==> !Eligible(RefCandidates(key)[j], table, selected)))
      && (r.None? <==> (!IsForeignKeyColumn(table, key) ||
            forall i :: 0 <= i < 3 ==> !Eligible(RefCandidates(key)[i], table, selected)))
  {
  }

  /** "{table}.{col_key} → {candidate}.{col_key}" */
  datatype Relationship = Relationship(table: string, column: string, target: string)

  /** The arrow as the source spells it: the UTF-8 bytes of U+2192 read as Windows-1252. */
  const RelArrow: string := "\U{00E2}\U{2020}\U{2019}"

  function RenderRelationship(r: Relationship): (s: string)
    ensures '\U{2020}' in s
  {
    var s := r.table + "." + r.column + " " + RelArrow + " " + r.target + "." + r.column;
    assert s[|r.table + "." + r.column + " "| + 1] == '\U{2020}';
    s
  }

  /** The relationships appended while walking a table's column keys in order. */
  function ColumnForeignKeys(table: string, keys: seq<string>, selected: seq<Value>): seq<Relationship> {
    if keys == [] then []
    else
      var key := keys[|keys| - 1];
      ColumnForeignKeys(table, keys[..|keys| - 1], selected) +
        match ForeignKey(table, key, selected)
        case Some(c) => [Relationship(table, key, c)]
        case None => []
  }

  /** Each relationship belongs to a distinct column of the table, and is that column's guess. */
  lemma {:induction false} ColumnForeignKeysSound(table: string, keys: seq<string>, selected: seq<Value>, k: nat)
    requires k < |ColumnForeignKeys(table, keys, selected)|
    ensures var r := ColumnForeignKeys(table, keys, selected)[k];
      r.table == table && r.column in keys && ForeignKey(table, r.column, selected) == Some(r.target)
    decreases |keys|
  {
    var init := keys[..|keys| - 1];
    var prev := ColumnForeignKeys(table, init, selected);
    if k < |prev| {
      ColumnForeignKeysSound(table, init, selected, k);
      var r := prev[k];
      assert r.column in init;
    }
  }

  /** At most one relationship per column: with distinct keys, the columns of the relationships are distinct. */
  lemma {:induction false} OnePerColumn(table: string, keys: seq<string>, selected: seq<Value>, a: nat, b: nat)
    requires Distinct(keys)
    requires a < b < |ColumnForeignKeys(table, keys, selected)|
    ensures ColumnForeignKeys(table, keys, selected)[a].column != ColumnForeignKeys(table, keys, selected)[b].column
    decreases |keys|
  {
    var init := keys[..|keys| - 1];
    var prev := ColumnForeignKeys(table, init, selected);
    assert Distinct(init) by {
      forall i, j | 0 <= i < j < |init| ensures init[i] != init[j] { assert init[i] == keys[i] && init[j] == keys[j]; }
    }
    if b < |prev| {
      OnePerColumn(table, init, selected, a, b);
    } else {
      ColumnForeignKeysSound(table, init, selected, a);
      var last := keys[|keys| - 1];
      assert last !in init by {
        forall i | 0 <= i < |init| ensures init[i] != last { assert init[i] == keys[i]; }
      }
    }
  }

  // ---------------------------------------------------------------------
  // get_schema_context
  // ---------------------------------------------------------------------

  /**
   * One block of the schema text: a table that was found ("Table: ...",
   * its description, aliases and column lines), or the error note written
   * when looking an entry up raised.
   */
  datatype Section = Described(table: string) | LoadError(entry: Value)

  /** "Schema not available", or the blocks of the schema text in order (their wording is not modelled). */
  datatype SchemaText = NotAvailable | Sections(sections: seq<Section>)

  /** {"schema_text": ..., "tables": ..., "relationships": ...} */
  datatype SchemaContext = SchemaContext(text: SchemaText, tables: Dict<string, Dict<string, Column>>, relationships: seq<Relationship>)

  function Placeholder(): SchemaContext {
    SchemaContext(NotAvailable, Dicts.Empty(), [])
  }

  /** The table an entry resolves to: a name (or alias) the loader knows; other entries resolve to nothing. */
  function Resolved(loader: SchemaLoader, e: Value): Option<Table>
    requires loader.Valid()
  {
    if e.Str? then loader.GetTable(e.s) else None
  }

  /** A list or dict entry cannot be hashed, so looking it up raises. */
  predicate Unhashable(e: Value) {
    e.List? || e.Object?
  }

  /** The blocks of the schema text after the entries: one per resolved or unhashable entry. */
  function ContextSections(loader: SchemaLoader, entries: seq<Value>): seq<Section>
    requires loader.Valid()
  {
    if entries == [] then []
    else
      var prev := ContextSections(loader, entries[..|entries| - 1]);
      var e := entries[|entries| - 1];
      if Resolved(loader, e).Some? then prev + [Described(e.s)]
      else if Unhashable(e) then prev + [LoadError(e)]
      else prev
  }

  /** The tables dict after the entries: each resolved name with its columns. */
  function ContextTableDict(loader: SchemaLoader, entries: seq<Value>): (r: Dict<string, Dict<string, Column>>)
    requires loader.Valid()
    ensures Dicts.Valid(r)
  {
    if entries == [] then Dicts.Empty()
    else
      var prev := ContextTableDict(loader, entries[..|entries| - 1]);
      var e := entries[|entries| - 1];
      if Resolved(loader, e).Some? then Put(prev, e.s, Resolved(loader, e).value.columns) else prev
  }

  /** The relationships after the entries: the column guesses of each resolved name, in order. */
  function ContextRels(loader: SchemaLoader, entries: seq<Value>, selected: seq<Value>): seq<Relationship>
    requires loader.Valid()
  {
    if entries == [] then []
    else
      var prev := ContextRels(loader, entries[..|entries| - 1], selected);
      var e := entries[|entries| - 1];
      if Resolved(loader, e).Some? then prev + ColumnForeignKeys(e.s, Resolved(loader, e).value.columns.order, selected)
      else prev
  }

  /**
   * The context after the entries, in order: a name the loader resolves
   * (by name or alias) adds its block, its columns under that name, and its
   * guessed relationships; a list or dict entry cannot be hashed, so the
   * lookup raises and only the error block is added; any other entry is
   * skipped.
   */
  function ContextOf(loader: SchemaLoader, entries: seq<Value>, selected: seq<Value>): (r: SchemaContext)
    requires loader.Valid()
    ensures r.text.Sections? && Dicts.Valid(r.tables)
  {
    SchemaContext(Sections(ContextSections(loader, entries)), ContextTableDict(loader, entries),
                  ContextRels(loader, entries, selected))
  }

  /** get_schema_context: the placeholder without a loader. */
  function ContextFor(loader: Option<SchemaLoader>, selected: seq<Value>): SchemaContext
    requires loader.Some? ==> loader.value.Valid()
  {
    if loader.None? then Placeholder() else ContextOf(loader.value, selected, selected)
  }

  /** The tables of the context are exactly the entries the loader resolves, each with its columns. */
  lemma {:induction false} ContextTables(loader: SchemaLoader, entries: seq<Value>, name: string)
    requires loader.Valid()
    ensures name in ContextTableDict(loader, entries).entries <==> Str(name) in entries && loader.GetTable(name).Some?
    ensures name in ContextTableDict(loader, entries).entries ==>
      ContextTableDict(loader, entries).entries[name] == loader.GetTable(name).value.columns
    decreases |entries|
  {
    if entries != [] {
      var init := entries[..|entries| - 1];
      ContextTables(loader, init, name);
      assert entries == init + [entries[|entries| - 1]];
    }
  }

  /** r is the guess of a column of a table one of the entries resolves to. */
  predicate FromResolvedColumn(loader: SchemaLoader, entries: seq<Value>, selected: seq<Value>, r: Relationship)
    requires loader.Valid()
  {
    && Str(r.table) in entries
    && loader.GetTable(r.table).Some?
    && r.column in loader.GetTable(r.table).value.columns.entries
    && ForeignKey(r.table, r.column, selected) == Some(r.target)
  }

  /**
   * Every relationship comes from a column of a resolved entry, and is that
   * column's guessed foreign key.
   */
  lemma {:induction false} ContextRelationships(loader: SchemaLoader, entries: seq<Value>, selected: seq<Value>, k: nat)
    requires loader.Valid()
    requires k < |ContextRels(loader, entries, selected)|
    ensures FromResolvedColumn(loader, entries, selected, ContextRels(loader, entries, selected)[k])
    decreases |entries|
  {
    var init := entries[..|entries| - 1];
    var prev := ContextRels(loader, init, selected);
    if k < |prev| {
      ContextRelationships(loader, init, selected, k);
      EarlierRelationship(loader, entries, selected, k);
    } else {
      LastRelationship(loader, entries, selected, k);
    }
  }

  /** A relationship of the earlier entries stays one, and its entry stays among the entries. */
  lemma EarlierRelationship(loader: SchemaLoader, entries: seq<Value>, selected: seq<Value>, k: nat)
    requires loader.Valid() && entries != []
    requires k < |ContextRels(loader, entries[..|entries| - 1], selected)|
    requires FromResolvedColumn(loader, entries[..|entries| - 1], selected, ContextRels(loader, entries[..|entries| - 1], selected)[k])
    ensures FromResolvedColumn(loader, entries, selected, ContextRels(loader, entries, selected)[k])
  {
    var init := entries[..|entries| - 1];
    var prev := ContextRels(loader, init, selected);
    var r := prev[k];
    assert ContextRels(loader, entries, selected)[k] == r;
    var i :| 0 <= i < |init| && init[i] == Str(r.table);
    assert entries[i] == Str(r.table);
  }

  /** A relationship the last entry adds is a guess for one of its columns. */
  lemma LastRelationship(loader: SchemaLoader, entries: seq<Value>, selected: seq<Value>, k: nat)
    requires loader.Valid() && entries != []
    requires |ContextRels(loader, entries[..|entries| - 1], selected)| <= k < |ContextRels(loader, entries, selected)|
    ensures FromResolvedColumn(loader, entries, selected, ContextRels(loader, entries, selected)[k])
  {
    var prev := ContextRels(loader, entries[..|entries| - 1], selected);
    var e := entries[|entries| - 1];
    assert Resolved(loader, e).Some?;
    var t := Resolved(loader, e).value;
    var rels := ColumnForeignKeys(e.s, t.columns.order, selected);
    assert ContextRels(loader, entries, selected) == prev + rels;
    var r := rels[k - |prev|];
    assert ContextRels(loader, entries, selected)[k] == r;
    ColumnForeignKeysSound(e.s, t.columns.order, selected, k - |prev|);
    assert loader.GetTable(r.table) == Some(t);
    assert Dicts.Valid(t.columns) by {
      assert loader.GetColumns(e.s).value == t.columns;
    }
    assert r.column in t.columns.entries;
  }

  /**
   * A guessed relationship always joins two different selected tables, through
   * a key ending in _id that is not the table's own id.
   */
  lemma RelationshipShape(loader: SchemaLoader, selected: seq<Value>, k: nat)
    requires loader.Valid()
    requires k < |ContextRels(loader, selected, selected)|
    ensures var r := ContextRels(loader, selected, selected)[k];
      && Str(r.table) in selected && Str(r.target) in selected && r.target != r.table
      && IsSuffix("_id", r.column) && r.column != r.table + "_id"
  {
    ContextRelationships(loader, selected, selected, k);
    var r := ContextRels(loader, selected, selected)[k];
    assert FromResolvedColumn(loader, selected, selected, r);
    ForeignKeyMeaning(r.table, r.column, selected);
  }

  // ---------------------------------------------------------------------
  // The prompts
  // ---------------------------------------------------------------------

  const NoRelationships: string := "No explicit relationships detected"

  const GeneralQuery: string := "General query"

  /** The relationships text of the advanced prompt. */
  function RelationshipsText(rels: seq<Relationship>): string {
    var text := Join(Map(rels, RenderRelationship), '\n');
    if text == [] then NoRelationships else text
  }

  /** `context or "General query"` */
  function ContextText(context: string): string {
    if context == [] then GeneralQuery else context
  }

  lemma {:induction false} JoinKeepsHead(parts: seq<string>, sep: char, c: char)
    requires |parts| >= 1 && c in parts[0]
    ensures c in Join(parts, sep)
  {
    if |parts| > 1 {
      assert Join(parts, sep) == parts[0] + [sep] + Join(parts[1..], sep);
    }
  }

  /** The default relationships text appears exactly when no relationship was guessed. */
  lemma RelationshipsDefault(rels: seq<Relationship>)
    ensures RelationshipsText(rels) == NoRelationships <==> rels == []
  {
    if rels != [] {
      var parts := Map(rels, RenderRelationship);
      JoinKeepsHead(parts, '\n', '\U{2020}');
      DefaultHasNoArrow();
    }
  }

  /** The default text is plain ASCII, so it has no character of the arrow. */
  lemma DefaultHasNoArrow()
    ensures '\U{2020}' !in NoRelationships
  {
    forall i | 0 <= i < |NoRelationships| ensures NoRelationships[i] != '\U{2020}' {
      assert NoRelationships[i] <= 'z';
    }
  }

  /** The empty context becomes "General query"; any other is kept. */
  lemma ContextDefault(context: string)
    ensures ContextText(context) == (if context == "" then "General query" else context)
    ensures context != "" ==> ContextText(context) == context
  {
  }

  /**
   * The arguments of the formatted prompt (the template wording is not
   * modelled): the schema text, the question, and the relationships and
   * context or the aggregation type; the fallback prompt carries only the
   * question.
   */
  datatype Prompt =
    | BasicPrompt(schema: SchemaText, question: string)
    | AdvancedPrompt(schema: SchemaText, relationships: string, question: string, context: string)
    | AnalyticsPrompt(schema: SchemaText, question: string, aggregationType: string)
    | FallbackPrompt(question: string)
    | ErrorPrompt

  /** The prompt of one template for a query, given its schema context. */
  function PromptFor(kind: TemplateKind, ctx: SchemaContext, query: string, context: string): (p: Prompt)
    ensures p.AdvancedPrompt? ==> (p.relationships == NoRelationships <==> ctx.relationships == [])
    ensures p.AdvancedPrompt? ==> p.context != []
    ensures (p.BasicPrompt? || p.AdvancedPrompt? || p.AnalyticsPrompt?) && p.schema == ctx.text && p.question == query
  {
    RelationshipsDefault(ctx.relationships);
    match kind
    case BasicTemplate => BasicPrompt(ctx.text, query)
    case AdvancedTemplate => AdvancedPrompt(ctx.text, RelationshipsText(ctx.relationships), query, ContextText(context))
    case AnalyticsTemplate(agg) => AnalyticsPrompt(ctx.text, query, agg)
  }

  // ---------------------------------------------------------------------
  // generate_sql_query: the tables named by the search results
  // ---------------------------------------------------------------------

  /**
   * metadata.get('table_name') or metadata.get('table') for one result;
   * a 'metadata' entry that is not a dict has no .get and raises.
   */
  function ResultTable(result: Metadata): Result<Value> {
    var meta := if "metadata" in result then result["metadata"] else Object(map[]);
    match meta
    case Object(m) => Ok(Or(Lookup(m, "table_name"), Lookup(m, "table")))
    case _ => Err("AttributeError: object has no attribute 'get'")
  }

  /** The selected tables after the results, in order: truthy names, first occurrence kept. */
  function SelectedTables(results: seq<Metadata>): Result<seq<Value>>
    decreases |results|
  {
    if results == [] then Ok([])
    else
      match SelectedTables(results[..|results| - 1])
      case Err(e) => Err(e)
      case Ok(prev) =>
        match ResultTable(results[|results| - 1])
        case Err(e) => Err(e)
        case Ok(name) => if Truthy(name) && name !in prev then Ok(prev + [name]) else Ok(prev)
  }

  /** Result k names v: its metadata is a dict whose table_name-or-table value is the truthy v. */
  ghost predicate Names(results: seq<Metadata>, k: int, v: Value) {
    0 <= k < |results| && ResultTable(results[k]) == Ok(v) && Truthy(v)
  }

  /** No result before position k names v. */
  ghost predicate FirstNamed(results: seq<Metadata>, k: int, v: Value) {
    Names(results, k, v) && forall j :: 0 <= j < k ==> !Names(results, j, v)
  }

  /** Names in a prefix of the results are names in the results. */
  lemma NamesPrefix(results: seq<Metadata>, n: nat)
    requires n <= |results|
    ensures forall k, v :: 0 <= k < n ==> (Names(results[..n], k, v) <==> Names(results, k, v))
  {
    forall k, v | 0 <= k < n ensures Names(results[..n], k, v) <==> Names(results, k, v) {
      assert results[..n][k] == results[k];
    }
  }

  /** The selected tables are distinct, and a value is among them iff some result names it. */
  lemma {:induction false} SelectedMembers(results: seq<Metadata>)
    requires SelectedTables(results).Ok?
    ensures Distinct(SelectedTables(results).value)
    ensures forall v :: v in SelectedTables(results).value <==> exists k :: Names(results, k, v)
    decreases |results|
  {
    if results != [] {
      var last := |results| - 1;
      var init := results[..last];
      SelectedMembers(init);
      NamesPrefix(results, last);
      var prev := SelectedTables(init).value;
      var sel := SelectedTables(results).value;
      forall v ensures v in sel <==> exists k :: Names(results, k, v) {
        if v in sel && v !in prev {
          assert Names(results, last, v);
        }
        if exists k :: Names(results, k, v) {
          var k :| Names(results, k, v);
          if k < last { assert Names(init, k, v); }
        }
      }
    }
  }

  /** Every selected table has a result that names it first. */
  lemma {:induction false} SelectedFirstNamed(results: seq<Metadata>, i: nat)
    requires SelectedTables(results).Ok? && i < |SelectedTables(results).value|
    ensures exists k :: FirstNamed(results, k, SelectedTables(results).value[i])
    decreases |results|
  {
    var last := |results| - 1;
    var init := results[..last];
    var prev := SelectedTables(init).value;
    var sel := SelectedTables(results).value;
    NamesPrefix(results, last);
    if i < |prev| {
      SelectedFirstNamed(init, i);
      var k :| FirstNamed(init, k, prev[i]);
      assert FirstNamed(results, k, sel[i]);
    } else {
      var name := sel[i];
      SelectedMembers(init);
      assert forall j :: 0 <= j < last ==> !Names(results, j, name);
      assert FirstNamed(results, last, name);
    }
  }

  /** Two results first naming the same value are the same result. */
  lemma FirstNamedUnique(results: seq<Metadata>, a: int, b: int, v: Value)
    requires FirstNamed(results, a, v) && FirstNamed(results, b, v)
    ensures a == b
  {
    assert !(a < b) && !(b < a);
  }

  /** The selected tables are in the order of the results that first name them. */
  lemma {:induction false} SelectedOrder(results: seq<Metadata>, i: nat, j: nat, ki: int, kj: int)
    requires SelectedTables(results).Ok? && i < j < |SelectedTables(results).value|
    requires FirstNamed(results, ki, SelectedTables(results).value[i])
    requires FirstNamed(results, kj, SelectedTables(results).value[j])
    ensures ki < kj
    decreases |results|
  {
    var last := |results| - 1;
    var init := results[..last];
    var prev := SelectedTables(init).value;
    var sel := SelectedTables(results).value;
    NamesPrefix(results, last);
    SelectedFirstNamed(init, i);
    var ki' :| FirstNamed(init, ki', prev[i]);
    assert FirstNamed(results, ki', sel[i]);
    FirstNamedUnique(results, ki, ki', sel[i]);
    if j < |prev| {
      SelectedFirstNamed(init, j);
      var kj' :| FirstNamed(init, kj', prev[j]);
      assert FirstNamed(results, kj', sel[j]);
      FirstNamedUnique(results, kj, kj', sel[j]);
      SelectedOrder(init, i, j, ki', kj');
    } else {
      SelectedMembers(init);
    }
  }

  /** `self.loader.tables`, as _infer_tables_from_query reads it: a SchemaLoader has no such attribute. */
  function InferTablesAsWritten(loader: SchemaLoader, query: string): (r: seq<string>)
    ensures |r| == 0
  {
    []
  }

  /** The names the query mentions, in list order. */
  function MentionedTables(names: seq<string>, lower: string): seq<string>
    decreases |names|
  {
    if names == [] then []
    else
      var prev := MentionedTables(names[..|names| - 1], lower);
      var n := names[|names| - 1];
      if Contains(lower, ToLower(n)) then prev + [n] else prev
  }

  /** The mentioned names are those whose lower-case form occurs in the lower-cased query. */
  lemma {:induction false} MentionedTablesMembers(names: seq<string>, lower: string, n: string)
    ensures n in MentionedTables(names, lower) <==> n in names && Contains(lower, ToLower(n))
    decreases |names|
  {
    if names != [] {
      var init := names[..|names| - 1];
      var last := names[|names| - 1];
      MentionedTablesMembers(init, lower, n);
      InitOrLast(names, n);
    }
  }

  /** As written, a table named in the query is never inferred. */
  lemma InferTablesMisses(loader: SchemaLoader, query: string, name: string)
    requires loader.Valid()
    requires name in loader.ListTables() && Contains(ToLower(query), ToLower(name))
    ensures name !in InferTablesAsWritten(loader, query)
    ensures name in MentionedTables(loader.ListTables(), ToLower(query))
  {
    MentionedTablesMembers(loader.ListTables(), ToLower(query), name);
  }

  // ---------------------------------------------------------------------
  // The generator object
  // ---------------------------------------------------------------------

  /** The prompt generate_sql_query returns for a query and its search results. */
  function SqlQueryPrompt(loader: Option<SchemaLoader>, query: string, results: Option<seq<Metadata>>): Prompt
    requires loader.Some? ==> loader.value.Valid()
  {
    var found := if results.Some? && results.value != [] then SelectedTables(results.value) else Ok([]);
    match found
    case Err(_) => ErrorPrompt
    case Ok(sel) =>
      var selected :=
        if sel == [] && loader.Some? then Map(MentionedTables(loader.value.ListTables(), ToLower(query)), (n: string) => Str(n))
        else sel;
      if selected == [] then FallbackPrompt(query)
      else PromptFor(ChooseTemplate(query, |selected|), ContextFor(loader, selected), query, "")
  }

  /** When some result names a table, the prompt is built from a template and not the fallback. */
  lemma NamedTablesGetTemplate(loader: Option<SchemaLoader>, query: string, results: seq<Metadata>, k: nat)
    requires loader.Some? ==> loader.value.Valid()
    requires SelectedTables(results).Ok?
    requires k < |results| && ResultTable(results[k]).Ok? && Truthy(ResultTable(results[k]).value)
    ensures var p := SqlQueryPrompt(loader, query, Some(results));
      p.BasicPrompt? || p.AdvancedPrompt? || p.AnalyticsPrompt?
  {
    var sel := SelectedTables(results).value;
    SelectedMembers(results);
    assert Names(results, k, ResultTable(results[k]).value);
    assert ResultTable(results[k]).value in sel;
    var ctx := ContextFor(loader, sel);
    assert SqlQueryPrompt(loader, query, Some(results)) == PromptFor(ChooseTemplate(query, |sel|), ctx, query, "");
  }

  /**
   * The prompt generate_sql_query returns as written, where the query-based
   * inference is the one that never finds a table: whenever no search result
   * names a table, the fallback prompt is returned, loader or not.
   */
  function SqlQueryPromptAsWritten(loader: Option<SchemaLoader>, query: string, results: Option<seq<Metadata>>): (p: Prompt)
    requires loader.Some? ==> loader.value.Valid()
    ensures (results.None? || results.value == [] || SelectedTables(results.value) == Ok([])) ==> p == FallbackPrompt(query)
    ensures results.Some? && results.value != [] && SelectedTables(results.value).Err? ==> p == ErrorPrompt
    ensures results.Some? && results.value != [] && SelectedTables(results.value).Ok? && SelectedTables(results.value).value != []
            ==> p == SqlQueryPrompt(loader, query, results)
  {
    var found := if results.Some? && results.value != [] then SelectedTables(results.value) else Ok([]);
    match found
    case Err(_) => ErrorPrompt
    case Ok(sel) =>
      var selected :=
        if sel == [] && loader.Some? then Map(InferTablesAsWritten(loader.value, query), (n: string) => Str(n))
        else sel;
      if selected == [] then FallbackPrompt(query)
      else PromptFor(ChooseTemplate(query, |selected|), ContextFor(loader, selected), query, "")
  }

  /**
   * A schema table the query mentions, with no search results: as written the
   * fallback prompt is returned, while the corrected inference gives a
   * template prompt.
   */
  lemma MentionedQueryFallsBack(loader: SchemaLoader, query: string, name: string)
    requires loader.Valid()
    requires name in loader.ListTables() && Contains(ToLower(query), ToLower(name))
    ensures SqlQueryPromptAsWritten(Some(loader), query, None) == FallbackPrompt(query)
    ensures !SqlQueryPrompt(Some(loader), query, None).FallbackPrompt?
  {
    MentionedTablesMembers(loader.ListTables(), ToLower(query), name);
  }

  /** Without a loader and without named tables, the fallback prompt is used. */
  lemma NoTablesFallback(query: string, results: Option<seq<Metadata>>)
    requires results.None? || results.value == []
    ensures SqlQueryPrompt(None, query, results) == FallbackPrompt(query)
  {
  }

  class SQLPromptGenerator {
    /** The schema loader, or None when the schema file was missing or failed to load. */
    const loader: Option<SchemaLoader>
    /** _last_generated_prompt; None before the first generate_sql_query. */
    var lastPrompt: Option<Prompt>

    ghost predicate Valid() {
      loader.Some? ==> loader.value.Valid()
    }

    constructor (schemaLoader: Option<SchemaLoader>)
      requires schemaLoader.Some? ==> schemaLoader.value.Valid()
      ensures Valid() && loader == schemaLoader && lastPrompt == None
    {
      loader := schemaLoader;
      lastPrompt := None;
    }

    /** The candidate loop: the first of base, base_mstr, base_hdr that is selected and not the table. */
    static method FindReference(table: string, key: string, selected: seq<Value>) returns (target: Option<string>)
      ensures target == ForeignKey(table, key, selected)
    {
      target := None;
      if IsSuffix("_id", key) && key != table + "_id" {
        var cands := RefCandidates(key);
        var i := 0;
        while i < |cands|
          invariant 0 <= i <= |cands|
          invariant target.None?
          invariant FirstEligible(cands, table, selected) == FirstEligible(cands[i..], table, selected)
        {
          assert cands[i..][0] == cands[i];
          if Str(cands[i]) in selected && cands[i] != table {
            target := Some(cands[i]);
            break;
          }
          assert cands[i..][1..] == cands[i + 1..];
          i := i + 1;
        }
      }
    }

    /** The column loop of one table: the guessed relationships in column order. */
    static method TableRelationships(table: string, columns: Dict<string, Column>, selected: seq<Value>)
      returns (rels: seq<Relationship>)
      requires Dicts.Valid(columns)
      ensures rels == ColumnForeignKeys(table, columns.order, selected)
    {
      var items := Items(columns);
      rels := [];
      var j := 0;
      while j < |items|
        invariant 0 <= j <= |items|
        invariant rels == ColumnForeignKeys(table, columns.order[..j], selected)
      {
        var (key, _) := items[j];
        assert columns.order[..j + 1][..j] == columns.order[..j];
        assert columns.order[..j + 1][j] == key;
        var target := FindReference(table, key, selected);
        if target.Some? {
          rels := rels + [Relationship(table, key, target.value)];
        }
        j := j + 1;
      }
      assert columns.order[..j] == columns.order;
    }

    /** get_schema_context */
    method GetSchemaContext(selected: seq<Value>) returns (ctx: SchemaContext)
      requires Valid()
      ensures ctx == ContextFor(loader, selected)
      ensures loader.None? ==> ctx.text == NotAvailable && ctx.tables.order == [] && ctx.relationships == []
    {
      if loader.None? {
        return Placeholder();
      }
      var l := loader.value;
      var sections: seq<Section> := [];
      var tables: Dict<string, Dict<string, Column>> := Dicts.Empty();
      var rels: seq<Relationship> := [];
      var i := 0;
      while i < |selected|
        invariant 0 <= i <= |selected|
        invariant sections == ContextSections(l, selected[..i])
        invariant tables == ContextTableDict(l, selected[..i])
        invariant rels == ContextRels(l, selected[..i], selected)
      {
        var e := selected[i];
        assert selected[..i + 1][..i] == selected[..i];
        assert selected[..i + 1][i] == e;
        match e {
          case Str(name) =>
            var t := l.GetTable(name);
            if t.Some? {
              var columns := l.GetColumns(name);
              sections := sections + [Described(name)];
              tables := Put(tables, name, columns.value);
              var found := TableRelationships(name, columns.value, selected);
              rels := rels + found;
            }
          case List(_) =>
            sections := sections + [LoadError(e)];
          case Object(_) =>
            sections := sections + [LoadError(e)];
          case _ =>
        }
        i := i + 1;
      }
      assert selected[..i] == selected;
      ctx := SchemaContext(Sections(sections), tables, rels);
    }

    /** generate_basic_prompt */
    method GenerateBasicPrompt(query: string, selected: seq<Value>) returns (p: Prompt)
      requires Valid()
      ensures p == PromptFor(BasicTemplate, ContextFor(loader, selected), query, "")
    {
      var ctx := GetSchemaContext(selected);
      p := BasicPrompt(ctx.text, query);
    }

    /** generate_advanced_prompt */
    method GenerateAdvancedPrompt(query: string, selected: seq<Value>, context: string) returns (p: Prompt)
      requires Valid()
      ensures p == PromptFor(AdvancedTemplate, ContextFor(loader, selected), query, context)
    {
      var ctx := GetSchemaContext(selected);
      var text := Join(Map(ctx.relationships, RenderRelationship), '\n');
      if text == [] {
        text := NoRelationships;
      }
      p := AdvancedPrompt(ctx.text, text, query, if context != [] then context else GeneralQuery);
    }

    /** generate_analytics_prompt */
    method GenerateAnalyticsPrompt(query: string, selected: seq<Value>, aggregationType: string) returns (p: Prompt)
      requires Valid()
      ensures p == PromptFor(AnalyticsTemplate(aggregationType), ContextFor(loader, selected), query, "")
    {
      var ctx := GetSchemaContext(selected);
      p := AnalyticsPrompt(ctx.text, query, aggregationType);
    }

    /** auto_generate_prompt */
    method AutoGeneratePrompt(query: string, selected: seq<Value>, context: string) returns (p: Prompt)
      requires Valid()
      ensures p == PromptFor(ChooseTemplate(query, |selected|), ContextFor(loader, selected), query, context)
    {
      var lower := ToLower(query);
      if AnyIn(AnalyticsKeywords, lower) {
        var agg := "aggregation";
        if Contains(lower, "count") {
          agg := "count";
        } else if AnyIn(["sum", "total"], lower) {
          agg := "sum";
        } else if AnyIn(["average", "avg"], lower) {
          agg := "average";
        }
        p := GenerateAnalyticsPrompt(query, selected, agg);
        return;
      }
      if |selected| > 1 || AnyIn(ComplexKeywords, lower) {
        p := GenerateAdvancedPrompt(query, selected, context);
        return;
      }
      p := GenerateBasicPrompt(query, selected);
    }

    /** The loop over the search results: each result's table, kept on first occurrence. */
    static method ExtractSelected(results: seq<Metadata>) returns (r: Result<seq<Value>>)
      ensures r == SelectedTables(results)
    {
      var selected: seq<Value> := [];
      var i := 0;
      while i < |results|
        invariant 0 <= i <= |results|
        invariant SelectedTables(results[..i]) == Ok(selected)
      {
        assert results[..i + 1][..i] == results[..i];
        assert results[..i + 1][i] == results[i];
        var name := ResultTable(results[i]);
        if name.Err? {
          assert SelectedTables(results[..i + 1]).Err?;
          SelectedErrSticks(results, i + 1);
          return Err(name.message);
        }
        if Truthy(name.value) && name.value !in selected {
          selected := selected + [name.value];
        }
        i := i + 1;
      }
      assert results[..i] == results;
      r := Ok(selected);
    }

    /** The corrected _infer_tables_from_query: the schema's table names the query mentions. */
    static method InferTables(l: SchemaLoader, query: string) returns (tables: seq<string>)
      requires l.Valid()
      ensures tables == MentionedTables(l.ListTables(), ToLower(query))
    {
      var names := l.ListTables();
      var lower := ToLower(query);
      tables := [];
      var i := 0;
      while i < |names|
        invariant 0 <= i <= |names|
        invariant tables == MentionedTables(names[..i], lower)
      {
        tables := Mention(tables, names, lower, i);
        i := i + 1;
      }
      assert names[..i] == names;
    }

    /** One pass of the loop: keep the i-th name when the query mentions it. */
    static method Mention(tables0: seq<string>, names: seq<string>, lower: string, i: nat) returns (tables: seq<string>)
      requires i < |names| && tables0 == MentionedTables(names[..i], lower)
      ensures tables == MentionedTables(names[..i + 1], lower)
    {
      assert names[..i + 1][..i] == names[..i];
      assert names[..i + 1][i] == names[i];
      tables := tables0;
      if Contains(lower, ToLower(names[i])) {
        tables := tables0 + [names[i]];
      }
    }

    /**
     * The corrected generate_sql_query: the prompt for the query, with the
     * corrected inference, also kept as the last prompt.
     */
    method GenerateSqlQuery(query: string, results: Option<seq<Metadata>>) returns (p: Prompt)
      requires Valid()
      modifies this
      ensures Valid()
      ensures p == SqlQueryPrompt(loader, query, results)
      ensures lastPrompt == Some(p)
    {
      var selected: seq<Value> := [];
      if results.Some? && results.value != [] {
        var found := ExtractSelected(results.value);
        if found.Err? {
          p := ErrorPrompt;
          lastPrompt := Some(p);
          return;
        }
        selected := found.value;
      }
      if selected == [] && loader.Some? {
        var names := InferTables(loader.value, query);
        selected := Map(names, (n: string) => Str(n));
      }
      if selected != [] {
        p := AutoGeneratePrompt(query, selected, "");
      } else {
        p := FallbackPrompt(query);
      }
      lastPrompt := Some(p);
    }

    /** get_last_prompt */
    function GetLastPrompt(): Option<Prompt>
      reads this
    {
      lastPrompt
    }
  }

  /** Once a prefix of the results fails, so do all the results. */
  lemma {:induction false} SelectedErrSticks(results: seq<Metadata>, n: nat)
    requires n <= |results| && SelectedTables(results[..n]).Err?
    ensures SelectedTables(results) == SelectedTables(results[..n])
    decreases |results| - n
  {
    if n < |results| {
      assert results[..n + 1][..n] == results[..n];
      SelectedErrSticks(results, n + 1);
    } else {
      assert results[..n] == results;
    }
  }
}
