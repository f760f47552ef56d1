// Record validation and the preparation of ChromaDB insert data
// (vector_store.py): unique ids, documents and flattened metadata.

module VectorStorage {
  import opened Wrappers
  import opened Strings
  import opened Sequences
  import opened Dicts
  import opened Values

  /** One embedded record: a Python dict with 'embedding', 'text', 'table', 'column' and extra keys. */
  type Record = Dict<string, Value>

  /** rec.get(key, default) */
  function Get(rec: Record, key: string, default: Value): Value {
    if key in rec.entries then rec.entries[key] else default
  }

  /** safe_str: None becomes the empty string, anything else its str(). */
  function SafeStr(v: Value, render: Value -> string): (r: string)
    ensures v.Null? ==> r == ""
    ensures !v.Null? ==> r == PyStr(v, render)
  {
    if v.Null? then "" else PyStr(v, render)
  }

  // ---------------------------------------------------------------------
  // _validate_records
  // ---------------------------------------------------------------------

  /** hasattr(embedding, '__iter__') and not a string: a list (or array) or a dict. */
  predicate ArrayLike(v: Value) {
    v.List? || v.Object?
  }

  predicate RecordOk(rec: Record) {
    "embedding" in rec.entries && "text" in rec.entries && ArrayLike(rec.entries["embedding"])
  }

  /** The error raised for record i, checked in the source's order. */
  function RecordProblem(i: nat, rec: Record): (r: Option<string>)
    ensures r.None? <==> RecordOk(rec)
  {
    var prefix := "ValueError: Record " + NatToString(i);
    if "embedding" !in rec.entries then Some(prefix + " missing 'embedding' field")
    else if "text" !in rec.entries then Some(prefix + " missing 'text' field")
    else if !ArrayLike(rec.entries["embedding"]) then Some(prefix + " embedding must be array-like")
    else None
  }

  const EmptyRecords: string := "ValueError: Records list cannot be empty"

  /** The first problem among records[from..]. */
  function FirstProblem(records: seq<Record>, from: nat): Option<string>
    decreases |records| - from
  {
    if from >= |records| then None
    else if RecordProblem(from, records[from]).Some? then RecordProblem(from, records[from])
    else FirstProblem(records, from + 1)
  }

  function Validation(records: seq<Record>): Result<()> {
    if records == [] then Err(EmptyRecords)
    else match FirstProblem(records, 0)
      case Some(m) => Err(m)
      case None => Ok(())
  }

  method ValidateRecords(records: seq<Record>) returns (r: Result<()>)
    ensures r == Validation(records)
  {
    if records == [] {
      return Err(EmptyRecords);
    }
    var i := 0;
    while i < |records|
      invariant 0 <= i <= |records|
      invariant FirstProblem(records, 0) == FirstProblem(records, i)
    {
      var rec := records[i];
      if "embedding" !in rec.entries {
        return Err("ValueError: Record " + NatToString(i) + " missing 'embedding' field");
      }
      if "text" !in rec.entries {
        return Err("ValueError: Record " + NatToString(i) + " missing 'text' field");
      }
      var embedding := rec.entries["embedding"];
      if !(embedding.List? || embedding.Object?) {
        return Err("ValueError: Record " + NatToString(i) + " embedding must be array-like");
      }
      i := i + 1;
    }
    r := Ok(());
  }

  /** The scan reports the first bad record at or after from, if any. */
  lemma {:induction false} FirstProblemMeaning(records: seq<Record>, from: nat)
    ensures FirstProblem(records, from).None? <==> forall i :: from <= i < |records| ==> RecordOk(records[i])
    ensures FirstProblem(records, from).Some? ==>
      exists i :: from <= i < |records| && !RecordOk(records[i])
        && (forall j :: from <= j < i ==> RecordOk(records[j]))
        && FirstProblem(records, from) == RecordProblem(i, records[i])
  {
    FirstProblemNone(records, from);
    if FirstProblem(records, from).Some? {
      var i := FirstProblemAt(records, from);
    }
  }

  lemma {:induction false} FirstProblemNone(records: seq<Record>, from: nat)
    ensures FirstProblem(records, from).None? <==> forall i :: from <= i < |records| ==> RecordOk(records[i])
    decreases |records| - from
  {
    if from < |records| && RecordProblem(from, records[from]).None? {
      FirstProblemNone(records, from + 1);
    }
  }

  /** The position of the record the scan reports. */
  lemma {:induction false} FirstProblemAt(records: seq<Record>, from: nat) returns (i: nat)
    requires FirstProblem(records, from).Some?
    ensures from <= i < |records| && !RecordOk(records[i])
    ensures forall j :: from <= j < i ==> RecordOk(records[j])
    ensures FirstProblem(records, from) == RecordProblem(i, records[i])
    decreases |records| - from
  {
    if RecordProblem(from, records[from]).Some? {
      i := from;
    } else {
      i := FirstProblemAt(records, from + 1);
    }
  }

  /**
   * An empty list is rejected; otherwise validation succeeds iff every record
   * has an embedding and a text and the embedding is array-like, and a
   * failure names the first bad record.
   */
  lemma ValidationMeaning(records: seq<Record>)
    ensures records == [] ==> Validation(records) == Err(EmptyRecords)
    ensures Validation(records).Ok? <==> records != [] && forall i :: 0 <= i < |records| ==> RecordOk(records[i])
    ensures Validation(records).Err? && records != [] ==>
      exists i :: 0 <= i < |records| && !RecordOk(records[i])
        && (forall j :: 0 <= j < i ==> RecordOk(records[j]))
        && Validation(records) == Err(RecordProblem(i, records[i]).value)
  {
    FirstProblemMeaning(records, 0);
  }

  // ---------------------------------------------------------------------
  // Unique ids
  // ---------------------------------------------------------------------

  /** f"{base_id}_{counter}" */
  function Candidate(base: string, k: nat): string {
    base + "_" + NatToString(k)
  }

  lemma CandidateInjective(base: string, j: nat, k: nat)
    requires Candidate(base, j) == Candidate(base, k)
    ensures j == k
  {
    assert NatToString(j) == Candidate(base, j)[|base| + 1..];
    assert NatToString(k) == Candidate(base, k)[|base| + 1..];
    NatToStringInjective(j, k);
  }

  /**
   * The id a record receives given the ids already issued: the base id when
   * it is free, else base_k for the smallest k >= 1 not yet issued.
   */
  ghost predicate IdChoice(issued: seq<string>, base: string, id: string) {
    && id !in issued
    && (base !in issued ==> id == base)
    && (base in issued ==>
          exists k :: k >= 1 && id == Candidate(base, k) && forall j :: 1 <= j < k ==> Candidate(base, j) in issued)
  }

  /** At most one id satisfies the choice, so the rule fixes the id. */
  lemma IdChoiceUnique(issued: seq<string>, base: string, a: string, b: string)
    requires IdChoice(issued, base, a) && IdChoice(issued, base, b)
    ensures a == b
  {
    if base in issued {
      var ka :| ka >= 1 && a == Candidate(base, ka) && forall j :: 1 <= j < ka ==> Candidate(base, j) in issued;
      var kb :| kb >= 1 && b == Candidate(base, kb) && forall j :: 1 <= j < kb ==> Candidate(base, j) in issued;
      assert !(ka < kb) && !(kb < ka);
    }
  }

  lemma SubsetCard<T>(a: set<T>, b: set<T>)
    requires a <= b
    ensures |a| <= |b|
  {
    if a != {} {
      var x :| x in a;
      SubsetCard(a - {x}, b - {x});
    }
  }

  /** The newest candidate is neither the base id nor an earlier candidate. */
  lemma FreshCandidate(base: string, c: nat, tried: set<string>)
    requires c >= 1
    requires forall t :: t in tried ==> t == base || exists j :: 1 <= j < c && t == Candidate(base, j)
    ensures Candidate(base, c) !in tried
  {
    assert |Candidate(base, c)| > |base|;
    forall j | 1 <= j < c ensures Candidate(base, j) != Candidate(base, c) {
      if Candidate(base, j) == Candidate(base, c) {
        CandidateInjective(base, j, c);
      }
    }
  }

  /**
   * The state of the renaming loop after counter - 1 rounds: id is the
   * current candidate, every earlier one is taken, and tried collects them.
   */
  ghost predicate Searching(ids: seq<string>, base: string, id: string, counter: nat, tried: set<string>) {
    && counter >= 1
    && id == (if counter == 1 then base else Candidate(base, counter - 1))
    && (counter > 1 ==> base in ids)
    && (forall j :: 1 <= j < counter - 1 ==> Candidate(base, j) in ids)
    && tried <= SetOf(ids) && |tried| == counter - 1
    && (forall t :: t in tried ==> t == base || exists j :: 1 <= j < counter - 1 && t == Candidate(base, j))
  }

  /** One round of the loop keeps the state and adds a taken id to tried. */
  lemma SearchStep(ids: seq<string>, base: string, id: string, counter: nat, tried: set<string>)
    requires Searching(ids, base, id, counter, tried) && id in ids
    ensures Searching(ids, base, Candidate(base, counter), counter + 1, tried + {id})
    ensures |tried + {id}| <= |SetOf(ids)|
  {
    if counter > 1 {
      FreshCandidate(base, counter - 1, tried);
    }
    SubsetCard(tried + {id}, SetOf(ids));
  }

  /** The while loop of _prepare_data that renames a colliding id. */
  method UniqueId(ids: seq<string>, base: string) returns (id: string)
    ensures IdChoice(ids, base, id)
  {
    id := base;
    var counter: nat := 1;
    ghost var tried: set<string> := {};
    while id in ids
      invariant Searching(ids, base, id, counter, tried)
      decreases |SetOf(ids)| - |tried|
    {
      SearchStep(ids, base, id, counter, tried);
      tried := tried + {id};
      id := base + "_" + NatToString(counter);
      counter := counter + 1;
    }
    if counter > 1 {
      assert id == Candidate(base, counter - 1);
    }
  }

  // ---------------------------------------------------------------------
  // _prepare_data
  // ---------------------------------------------------------------------

  /** f"{table}.{column}", with column 'table' when the key is absent. */
  function BaseId(rec: Record, render: Value -> string): string {
    SafeStr(Get(rec, "table", Null), render) + "." + SafeStr(Get(rec, "column", Str("table")), render)
  }

  const Reserved: set<string> := {"embedding", "text", "table", "column"}

  /** The three fixed metadata keys. */
  function CoreMetadata(rec: Record, render: Value -> string): Metadata {
    map["table" := Str(SafeStr(Get(rec, "table", Null), render)),
        "column" := Str(SafeStr(Get(rec, "column", Null), render)),
        "level" := Str(if !Get(rec, "column", Null).Null? then "column" else "table")]
  }

  /** Primitive values are kept, anything else is stringified. */
  function ExtraValue(v: Value, render: Value -> string): (r: Value)
    ensures IsPrimitive(r)
  {
    if IsPrimitive(v) then v else Str(PyStr(v, render))
  }

  predicate IsExtra(rec: Record, k: string) {
    k !in Reserved && k in rec.entries && !rec.entries[k].Null?
  }

  /** The loop over rec.items() after the fixed keys, up to the given keys. */
  function AddExtras(md: Metadata, rec: Record, keys: seq<string>, render: Value -> string): Metadata {
    if keys == [] then md
    else
      var m := AddExtras(md, rec, keys[..|keys| - 1], render);
      var k := keys[|keys| - 1];
      if IsExtra(rec, k) then m[k := ExtraValue(rec.entries[k], render)] else m
  }

  function RecordMetadata(rec: Record, render: Value -> string): Metadata {
    AddExtras(CoreMetadata(rec, render), rec, rec.order, render)
  }

  method BuildMetadata(rec: Record, render: Value -> string) returns (md: Metadata)
    ensures md == RecordMetadata(rec, render)
  {
    md := map["table" := Str(SafeStr(Get(rec, "table", Null), render)),
              "column" := Str(SafeStr(Get(rec, "column", Null), render)),
              "level" := Str(if !Get(rec, "column", Null).Null? then "column" else "table")];
    var i := 0;
    while i < |rec.order|
      invariant 0 <= i <= |rec.order|
      invariant md == AddExtras(CoreMetadata(rec, render), rec, rec.order[..i], render)
    {
      var key := rec.order[i];
      assert rec.order[..i + 1][..i] == rec.order[..i];
      if key !in Reserved && key in rec.entries {
        var value := rec.entries[key];
        if IsPrimitive(value) {
          md := md[key := value];
        } else if !value.Null? {
          md := md[key := Str(PyStr(value, render))];
        }
      }
      i := i + 1;
    }
    assert rec.order[..i] == rec.order;
  }

  lemma {:induction false} AddExtrasMeaning(md: Metadata, rec: Record, keys: seq<string>, render: Value -> string)
    ensures var m := AddExtras(md, rec, keys, render);
      && (forall k :: k in m <==> k in md || (k in keys && IsExtra(rec, k)))
      && (forall k :: k in keys && IsExtra(rec, k) ==> m[k] == ExtraValue(rec.entries[k], render))
      && (forall k :: k in md && !(k in keys && IsExtra(rec, k)) ==> m[k] == md[k])
  {
    if keys != [] {
      AddExtrasMeaning(md, rec, keys[..|keys| - 1], render);
      assert keys == keys[..|keys| - 1] + [keys[|keys| - 1]];
    }
  }

  /**
   * The metadata holds table, column and level plus every extra key with a
   * non-None value (stringified unless primitive); every value is a primitive,
   * and level says "column" iff the record has a non-None column, unless an
   * extra 'level' key overrides it.
   */
  lemma RecordMetadataMeaning(rec: Record, render: Value -> string)
    requires Valid(rec)
    ensures var md := RecordMetadata(rec, render);
      && (forall k :: k in md <==> k in {"table", "column", "level"} || IsExtra(rec, k))
      && (forall k :: IsExtra(rec, k) ==> md[k] == ExtraValue(rec.entries[k], render))
      && md["table"] == Str(SafeStr(Get(rec, "table", Null), render))
      && md["column"] == Str(SafeStr(Get(rec, "column", Null), render))
      && (!IsExtra(rec, "level") ==> (md["level"] == Str("column") <==> !Get(rec, "column", Null).Null?))
      && (forall k :: k in md ==> IsPrimitive(md[k]))
  {
    var core := CoreMetadata(rec, render);
    AddExtrasMeaning(core, rec, rec.order, render);
    assert forall k :: IsExtra(rec, k) ==> k in rec.order;
  }

  /** What _prepare_data hands to collection.add: four parallel lists. */
  datatype PreparedData = PreparedData(
    ids: seq<string>,
    embeddings: seq<seq<Value>>,
    documents: seq<string>,
    metadatas: seq<Metadata>)

  /** list(d) for a dict d: each key once, as a string; the Value model keeps no key order. */
  ghost predicate KeyList(r: seq<Value>, fields: map<string, Value>) {
    && Distinct(r)
    && |r| == |fields|
    && (forall j :: 0 <= j < |r| ==> r[j].Str? && r[j].s in fields)
    && (forall k :: k in fields ==> Str(k) in r)
  }

  /** r is list(v) for an array-like v: a list's items, or a dict's keys. */
  ghost predicate IsEmbeddingList(r: seq<Value>, v: Value) {
    && (v.List? ==> r == v.items)
    && (v.Object? ==> KeyList(r, v.fields))
  }

  /** list(embedding) for an embedding that passed validation. */
  method EmbeddingList(v: Value) returns (r: seq<Value>)
    requires ArrayLike(v)
    ensures IsEmbeddingList(r, v)
  {
    if v.List? {
      return v.items;
    }
    r := [];
    var rest := v.fields.Keys;
    while rest != {}
      invariant rest <= v.fields.Keys
      invariant Distinct(r)
      invariant |r| + |rest| == |v.fields.Keys|
      invariant forall j :: 0 <= j < |r| ==> r[j].Str? && r[j].s in v.fields && r[j].s !in rest
      invariant forall k :: k in v.fields && k !in rest ==> Str(k) in r
      decreases rest
    {
      var k :| k in rest;
      r := r + [Str(k)];
      rest := rest - {k};
    }
  }

  /** One pass of the _prepare_data loop: the record's id against the ids issued so far, and its three entries. */
  method PrepareOne(rec: Record, ids: seq<string>, render: Value -> string)
    returns (id: string, embedding: seq<Value>, document: string, metadata: Metadata)
    requires "embedding" in rec.entries && "text" in rec.entries && ArrayLike(rec.entries["embedding"])
    ensures IdChoice(ids, BaseId(rec, render), id)
    ensures IsEmbeddingList(embedding, rec.entries["embedding"])
    ensures document == PyStr(rec.entries["text"], render)
    ensures metadata == RecordMetadata(rec, render)
  {
    var table := SafeStr(Get(rec, "table", Null), render);
    var column := SafeStr(Get(rec, "column", Str("table")), render);
    id := UniqueId(ids, table + "." + column);
    embedding := EmbeddingList(rec.entries["embedding"]);
    document := PyStr(rec.entries["text"], render);
    metadata := BuildMetadata(rec, render);
  }

  /** ids[i] is the id the renaming rule gives record i against the ids before it. */
  ghost predicate IdsUpTo(records: seq<Record>, render: Value -> string, ids: seq<string>) {
    && |ids| <= |records|
    && (forall i :: 0 <= i < |ids| ==> IdChoice(ids[..i], BaseId(records[i], render), ids[i]))
    && Distinct(ids)
  }

  /** Entry i of the three other lists is built from record i. */
  ghost predicate EntriesUpTo(records: seq<Record>, render: Value -> string, n: nat,
                              embeddings: seq<seq<Value>>, documents: seq<string>, metadatas: seq<Metadata>) {
    && n <= |records|
    && |embeddings| == |documents| == |metadatas| == n
    && (forall i :: 0 <= i < n ==> "embedding" in records[i].entries && "text" in records[i].entries)
    && (forall i :: 0 <= i < n ==> IsEmbeddingList(embeddings[i], records[i].entries["embedding"]))
    && (forall i :: 0 <= i < n ==> documents[i] == PyStr(records[i].entries["text"], render))
    && (forall i :: 0 <= i < n ==> metadatas[i] == RecordMetadata(records[i], render))
  }

  ghost predicate PreparedUpTo(records: seq<Record>, render: Value -> string, n: nat, data: PreparedData) {
    && |data.ids| == n
    && IdsUpTo(records, render, data.ids)
    && EntriesUpTo(records, render, n, data.embeddings, data.documents, data.metadatas)
  }

  /** Issuing record n's id keeps the renaming rule for every id. */
  lemma IdsStep(records: seq<Record>, render: Value -> string, ids: seq<string>, id: string)
    requires IdsUpTo(records, render, ids) && |ids| < |records|
    requires IdChoice(ids, BaseId(records[|ids|], render), id)
    ensures IdsUpTo(records, render, ids + [id])
  {
    var n := |ids|;
    var ids' := ids + [id];
    forall i | 0 <= i < n + 1 ensures IdChoice(ids'[..i], BaseId(records[i], render), ids'[i]) {
      if i < n {
        assert ids'[..i] == ids[..i];
      } else {
        assert ids'[..n] == ids;
      }
    }
  }

  /** Appending record n's entries keeps the other three lists in step. */
  lemma EntriesStep(records: seq<Record>, render: Value -> string, n: nat,
                    embeddings: seq<seq<Value>>, documents: seq<string>, metadatas: seq<Metadata>,
                    embedding: seq<Value>, document: string, metadata: Metadata)
    requires EntriesUpTo(records, render, n, embeddings, documents, metadatas) && n < |records|
    requires "embedding" in records[n].entries && "text" in records[n].entries
    requires IsEmbeddingList(embedding, records[n].entries["embedding"])
    requires document == PyStr(records[n].entries["text"], render)
    requires metadata == RecordMetadata(records[n], render)
    ensures EntriesUpTo(records, render, n + 1, embeddings + [embedding], documents + [document], metadatas + [metadata])
  {
  }

  method PrepareData(records: seq<Record>, render: Value -> string) returns (data: PreparedData)
    requires forall i :: 0 <= i < |records| ==>
      "embedding" in records[i].entries && "text" in records[i].entries && ArrayLike(records[i].entries["embedding"])
    ensures |data.ids| == |data.embeddings| == |data.documents| == |data.metadatas| == |records|
    ensures forall i :: 0 <= i < |records| ==> IdChoice(data.ids[..i], BaseId(records[i], render), data.ids[i])
    ensures Distinct(data.ids)
    ensures forall i :: 0 <= i < |records| ==> IsEmbeddingList(data.embeddings[i], records[i].entries["embedding"])
    ensures forall i :: 0 <= i < |records| ==> data.documents[i] == PyStr(records[i].entries["text"], render)
    ensures forall i :: 0 <= i < |records| ==> data.metadatas[i] == RecordMetadata(records[i], render)
  {
    data := PreparedData([], [], [], []);
    var n := 0;
    while n < |records|
      invariant PreparedUpTo(records, render, n, data)
      decreases |records| - n
    {
      var colId, embedding, document, metadata := PrepareOne(records[n], data.ids, render);
      IdsStep(records, render, data.ids, colId);
      EntriesStep(records, render, n, data.embeddings, data.documents, data.metadatas, embedding, document, metadata);
      data := PreparedData(data.ids + [colId], data.embeddings + [embedding],
                           data.documents + [document], data.metadatas + [metadata]);
      n := n + 1;
    }
  }

  // ---------------------------------------------------------------------
  // store_records and store_embedded_schema
  // ---------------------------------------------------------------------

  /** store_records: validation, then the number of prepared ids. */
  function StoredCount(records: seq<Record>): Result<nat> {
    match Validation(records)
    case Err(m) => Err(m)
    case Ok(_) => Ok(|records|)
  }

  method StoreRecords(records: seq<Record>, render: Value -> string) returns (r: Result<nat>)
    ensures r == StoredCount(records)
  {
    var valid := ValidateRecords(records);
    if valid.Err? {
      return Err(valid.message);
    }
    ValidationMeaning(records);
    var data := PrepareData(records, render);
    r := Ok(|data.ids|);
  }

  /** f"{collection_prefix}_{kind}" */
  function CollectionName(prefix: string, kind: string): string {
    prefix + "_" + kind
  }

  /**
   * store_embedded_schema: the columns are stored first, then the tables,
   * each only when its key is present; a failing store raises and stops.
   * `written` lists the collections stored, in order.
   */
  method StoreEmbeddedSchema(embedded: map<string, seq<Record>>, prefix: string, render: Value -> string)
    returns (r: Result<map<string, nat>>, written: seq<string>)
    ensures var cols := if "columns" in embedded then StoredCount(embedded["columns"]) else Ok(0);
      var tabs := if "tables" in embedded then StoredCount(embedded["tables"]) else Ok(0);
      && (r.Ok? <==> cols.Ok? && tabs.Ok?)
      && (cols.Err? ==> r == Err(cols.message) && written == [])
      && (cols.Ok? && tabs.Err? ==> r == Err(tabs.message))
      && (r.Ok? ==> r.value.Keys == embedded.Keys * {"columns", "tables"})
      && (r.Ok? ==> forall k :: k in r.value ==> r.value[k] == |embedded[k]|)
      && (cols.Ok? ==>
            written == (if "columns" in embedded then [CollectionName(prefix, "columns")] else []) +
                       (if "tables" in embedded && tabs.Ok? then [CollectionName(prefix, "tables")] else []))
  {
    var results: map<string, nat> := map[];
    written := [];
    if "columns" in embedded {
      var count := StoreRecords(embedded["columns"], render);
      if count.Err? {
        return Err(count.message), written;
      }
      results := results["columns" := count.value];
      written := written + [CollectionName(prefix, "columns")];
    }
    if "tables" in embedded {
      var count := StoreRecords(embedded["tables"], render);
      if count.Err? {
        return Err(count.message), written;
      }
      results := results["tables" := count.value];
      written := written + [CollectionName(prefix, "tables")];
    }
    r := Ok(results);
  }

  /** The two collections never share a name. */
  lemma CollectionNamesDiffer(prefix: string)
    ensures CollectionName(prefix, "columns") != CollectionName(prefix, "tables")
  {
    assert |CollectionName(prefix, "columns")| != |CollectionName(prefix, "tables")|;
  }
}
